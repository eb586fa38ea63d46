/** The canonical JSON form that policy hashes and receipt hashes are computed over
    (agent/policy/canonical.py). A `string` of Dafny characters is a string of Unicode scalar
    values; numbers are kept as the lexemes Python prints for them. */
module Canonical {

  datatype Json =
    | Null
    | Bool(b: bool)
    | Number(lexeme: string)
    | Str(s: string)
    | Arr(items: seq<Json>)
    | Obj(members: seq<Member>)

  // A dictionary is its members in insertion order, with distinct keys (see `WellFormed`).
  datatype Member = Member(key: string, value: Json)

  predicate NumberChar(c: char) {
    '0' <= c <= '9' || c in "+-.eE"
  }

  predicate NumberLexeme(s: string) {
    && |s| > 0
    && ('0' <= s[0] <= '9' || s[0] == '-')
    && forall i | 0 <= i < |s| :: NumberChar(s[i])
  }

  predicate UniqueKeys(ms: seq<Member>) {
    forall i, j | 0 <= i < j < |ms| :: ms[i].key != ms[j].key
  }

  predicate WellFormed(v: Json) {
    match v
    case Number(lexeme) => NumberLexeme(lexeme)
    case Arr(items) => forall x | x in items :: WellFormed(x)
    case Obj(members) => UniqueKeys(members) && forall m | m in members :: WellFormed(m.value)
    case _ => true
  }

  /** The same JSON value up to the order of object members. */
  ghost predicate Same(a: Json, b: Json) {
    match (a, b)
    case (Arr(xs), Arr(ys)) => |xs| == |ys| && forall i | 0 <= i < |xs| :: Same(xs[i], ys[i])
    case (Obj(ms), Obj(ns)) =>
      && (forall m | m in ms :: exists n | n in ns :: m.key == n.key && Same(m.value, n.value))
      && (forall n | n in ns :: exists m | m in ms :: m.key == n.key && Same(m.value, n.value))
    case _ => a == b
  }

  // ---------------------------------------------------------------- strip_comments

  predicate IsComment(key: string) {
    |key| > 0 && key[0] == '_'
  }

  function StripComments(v: Json): Json
    decreases v, 1
  {
    match v
    case Arr(items) => Arr(StripItems(items))
    case Obj(members) => Obj(StripMembers(members))
    case _ => v
  }

  function StripItems(xs: seq<Json>): (r: seq<Json>)
    ensures |r| == |xs|
    ensures forall i | 0 <= i < |xs| :: r[i] == StripComments(xs[i])
    decreases xs, 0
  {
    if xs == [] then [] else [StripComments(xs[0])] + StripItems(xs[1..])
  }

  function StripMembers(ms: seq<Member>): (r: seq<Member>)
    decreases ms, 0
  {
    if ms == [] then []
    else if IsComment(ms[0].key) then StripMembers(ms[1..])
    else [Member(ms[0].key, StripComments(ms[0].value))] + StripMembers(ms[1..])
  }

  lemma {:induction false} StripKeeps(ms: seq<Member>, m: Member)
    requires m in ms && !IsComment(m.key)
    ensures Member(m.key, StripComments(m.value)) in StripMembers(ms)
  {
    hide StripComments;
    if m != ms[0] {
      assert ms == [ms[0]] + ms[1..];
      StripKeeps(ms[1..], m);
    }
  }

  ghost predicate StrippedFrom(r: Member, ms: seq<Member>) {
    !IsComment(r.key) && exists m | m in ms :: m.key == r.key && r.value == StripComments(m.value)
  }

  lemma {:induction false} StripAddsNothing(ms: seq<Member>, r: Member)
    requires r in StripMembers(ms)
    ensures StrippedFrom(r, ms)
  {
    hide StripComments;
    if IsComment(ms[0].key) || r != StripMembers(ms)[0] {
      StripAddsNothing(ms[1..], r);
      var m :| m in ms[1..] && m.key == r.key && r.value == StripComments(m.value);
      assert m in ms;
    } else {
      assert ms[0] in ms;
    }
  }

  lemma {:induction false} StripKeepsUnique(ms: seq<Member>)
    requires UniqueKeys(ms)
    ensures UniqueKeys(StripMembers(ms))
  {
    hide StripComments;
    if ms != [] {
      StripKeepsUnique(ms[1..]);
      var rest := StripMembers(ms[1..]);
      forall i | 0 <= i < |rest| ensures rest[i].key != ms[0].key {
        assert rest[i] in rest;
        StripAddsNothing(ms[1..], rest[i]);
        var m :| m in ms[1..] && m.key == rest[i].key;
        var j :| 0 <= j < |ms[1..]| && ms[1..][j] == m;
        assert ms[j + 1] == m;
      }
    }
  }

  /** What stripping keeps of an object: exactly the members whose keys do not begin with an underscore, each
      stripped. */
  lemma {:induction false} StripMembersContents(ms: seq<Member>)
    ensures forall m | m in ms && !("_" <= m.key) ::
              Member(m.key, StripComments(m.value)) in StripMembers(ms)
    ensures forall r | r in StripMembers(ms) ::
              !("_" <= r.key) && exists m | m in ms :: m.key == r.key && r.value == StripComments(m.value)
    ensures UniqueKeys(ms) ==> UniqueKeys(StripMembers(ms))
  {
    hide StripComments, StripMembers, UniqueKeys;
    forall m | m in ms && !IsComment(m.key) ensures Member(m.key, StripComments(m.value)) in StripMembers(ms) {
      StripKeeps(ms, m);
    }
    forall r | r in StripMembers(ms)
      ensures !IsComment(r.key) && exists m | m in ms :: m.key == r.key && r.value == StripComments(m.value)
    {
      StripAddsNothing(ms, r);
    }
    if UniqueKeys(ms) { StripKeepsUnique(ms); }
  }

  /** No key, at any depth, begins with an underscore. */
  predicate NoComments(v: Json) {
    match v
    case Arr(items) => forall x | x in items :: NoComments(x)
    case Obj(members) => forall m | m in members :: !("_" <= m.key) && NoComments(m.value)
    case _ => true
  }

  /** Stripping leaves no comments at any depth, keeps the items of an array, each stripped, in their places, and leaves
      a value without comments alone. */
  lemma {:induction false} StripMeans(v: Json)
    ensures NoComments(StripComments(v)) && (NoComments(v) ==> StripComments(v) == v)
    ensures v.Arr? ==>
              && StripComments(v).Arr? && |StripComments(v).items| == |v.items|
              && forall i | 0 <= i < |v.items| :: StripComments(v).items[i] == StripComments(v.items[i])
    decreases v, 1
  {
    match v
    case Arr(items) =>
      var stripped := StripItems(items);
      forall i | 0 <= i < |items|
        ensures NoComments(stripped[i]) && (NoComments(items[i]) ==> stripped[i] == items[i])
      {
        StripMeans(items[i]);
      }
      if NoComments(v) { assert forall i | 0 <= i < |items| :: items[i] in items && stripped[i] == items[i]; }
    case Obj(members) => StripMembersMeans(members);
    case _ =>
  }

  lemma {:induction false} StripMembersMeans(ms: seq<Member>)
    ensures NoComments(Obj(StripMembers(ms))) && (NoComments(Obj(ms)) ==> StripMembers(ms) == ms)
    decreases ms, 0
  {
    if ms != [] {
      StripMeans(ms[0].value);
      StripMembersMeans(ms[1..]);
      assert ms == [ms[0]] + ms[1..];
    }
  }

  lemma {:induction false} StripWellFormed(v: Json)
    requires WellFormed(v)
    ensures WellFormed(StripComments(v))
  {
    match v
    case Arr(items) =>
      forall x | x in items ensures WellFormed(StripComments(x)) { StripWellFormed(x); }
    case Obj(members) =>
      StripMembersContents(members);
      forall r | r in StripMembers(members) ensures WellFormed(r.value) {
        var m :| m in members && r.value == StripComments(m.value);
        StripWellFormed(m.value);
      }
    case _ =>
  }

  /** Stripping twice is stripping once. */
  lemma {:induction false} StripIdempotent(v: Json)
    ensures StripComments(StripComments(v)) == StripComments(v)
    decreases v, 1
  {
    match v
    case Arr(items) =>
      forall i | 0 <= i < |items| ensures StripComments(StripItems(items)[i]) == StripItems(items)[i] {
        StripIdempotent(items[i]);
      }
      assert StripItems(StripItems(items)) == StripItems(items);
    case Obj(members) => StripMembersIdempotent(members);
    case _ =>
  }

  lemma {:induction false} StripMembersIdempotent(ms: seq<Member>)
    ensures StripMembers(StripMembers(ms)) == StripMembers(ms)
    decreases ms, 0
  {
    if ms != [] {
      StripMembersIdempotent(ms[1..]);
      if !IsComment(ms[0].key) {
        StripIdempotent(ms[0].value);
        assert StripMembers(ms)[1..] == StripMembers(ms[1..]);
      }
    }
  }

  // ---------------------------------------------------------------- sort_keys

  /** Python's order on strings: lexicographic by code point. */
  predicate KeyLess(a: string, b: string) {
    |b| > 0 && (|a| == 0 || a[0] < b[0] || (a[0] == b[0] && KeyLess(a[1..], b[1..])))
  }

  lemma {:induction false} KeyLessTotal(a: string, b: string)
    ensures KeyLess(a, b) || KeyLess(b, a) || a == b
    ensures !(KeyLess(a, b) && KeyLess(b, a))
    ensures !KeyLess(a, a)
  {
    if |a| > 0 { KeyLessTotal(a[1..], a[1..]); }
    if |a| > 0 && |b| > 0 {
      KeyLessTotal(a[1..], b[1..]);
      assert a == [a[0]] + a[1..] && b == [b[0]] + b[1..];
    }
  }

  lemma {:induction false} KeyLessTransitive(a: string, b: string, c: string)
    requires KeyLess(a, b) && KeyLess(b, c)
    ensures KeyLess(a, c)
  {
    if |a| > 0 && a[0] == b[0] && b[0] == c[0] {
      KeyLessTransitive(a[1..], b[1..], c[1..]);
    }
  }

  // `a` and `b` agree before `i`, where `a` ends or has the smaller code point.
  ghost predicate SplitAt(a: string, b: string, i: nat) {
    i <= |a| && i < |b| && a[..i] == b[..i] && (i == |a| || (a[i] as int) < b[i] as int)
  }

  /** `a` is a proper beginning of `b`, or at the first place where they differ its code point is the smaller. */
  ghost predicate Precedes(a: string, b: string) {
    exists i: nat :: SplitAt(a, b, i)
  }

  lemma SplitLater(a: string, b: string, i: nat)
    requires |a| > 0 && |b| > 0
    ensures SplitAt(a, b, i + 1) <==> a[0] == b[0] && SplitAt(a[1..], b[1..], i)
  {
    if i < |a| && i + 1 < |b| {
      assert a[..i + 1] == [a[0]] + a[1..][..i] && b[..i + 1] == [b[0]] + b[1..][..i];
    }
  }

  lemma SplitFirst(a: string, b: string)
    ensures SplitAt(a, b, 0) <==> |b| > 0 && (|a| == 0 || (a[0] as int) < b[0] as int)
  {
  }

  lemma {:induction false} KeyLessMeans(a: string, b: string)
    ensures KeyLess(a, b) <==> Precedes(a, b)
  {
    hide SplitAt;
    SplitFirst(a, b);
    if |a| > 0 && |b| > 0 {
      var p, q := a[1..], b[1..];
      KeyLessMeans(p, q);
      if a[0] == b[0] && Precedes(p, q) {
        var i: nat :| SplitAt(p, q, i);
        SplitLater(a, b, i);
      }
      if Precedes(a, b) {
        var i: nat :| SplitAt(a, b, i);
        if i > 0 { SplitLater(a, b, i - 1); }
      }
    } else {
      EmptySplits(a, b);
    }
  }

  lemma EmptySplits(a: string, b: string)
    requires a == "" || b == ""
    ensures Precedes(a, b) <==> SplitAt(a, b, 0)
  {
  }

  predicate SortedByKey(ms: seq<Member>) {
    forall i, j | 0 <= i < j < |ms| :: KeyLess(ms[i].key, ms[j].key)
  }

  function InsertMember(m: Member, ms: seq<Member>): (r: seq<Member>)
    requires SortedByKey(ms) && forall x | x in ms :: x.key != m.key
    ensures SortedByKey(r)
    ensures forall x :: x in r <==> x == m || x in ms
  {
    if ms == [] then [m]
    else if KeyLess(m.key, ms[0].key) then
      assert forall x | x in ms :: KeyLess(m.key, x.key) by {
        forall x | x in ms ensures KeyLess(m.key, x.key) {
          if x != ms[0] { KeyLessTransitive(m.key, ms[0].key, x.key); }
        }
      }
      [m] + ms
    else
      assert KeyLess(ms[0].key, m.key) by { KeyLessTotal(m.key, ms[0].key); }
      assert ms == [ms[0]] + ms[1..];
      var rest := InsertMember(m, ms[1..]);
      assert forall i | 0 <= i < |rest| :: KeyLess(ms[0].key, rest[i].key) by {
        forall i | 0 <= i < |rest| ensures KeyLess(ms[0].key, rest[i].key) {
          assert rest[i] in rest;
          if rest[i] != m { FirstIsLeast(ms, rest[i]); }
        }
      }
      [ms[0]] + rest
  }

  lemma FirstIsLeast(ms: seq<Member>, x: Member)
    requires ms != [] && SortedByKey(ms) && x in ms[1..]
    ensures KeyLess(ms[0].key, x.key)
  {
    var j :| 0 <= j < |ms[1..]| && ms[1..][j] == x;
    assert ms[j + 1] == x;
  }

  function SortMembers(ms: seq<Member>): (r: seq<Member>)
    requires UniqueKeys(ms)
    ensures SortedByKey(r)
    ensures forall x :: x in r <==> x in ms
  {
    if ms == [] then []
    else
      assert ms == [ms[0]] + ms[1..];
      assert forall x | x in ms[1..] :: x.key != ms[0].key;
      InsertMember(ms[0], SortMembers(ms[1..]))
  }

  lemma HeadNotInTail(a: seq<Member>)
    requires SortedByKey(a) && a != []
    ensures forall x :: x in a[1..] <==> x in a && x != a[0]
  {
    KeyLessTotal(a[0].key, a[0].key);
    assert a == [a[0]] + a[1..];
  }

  /** A sorted listing is determined by its set of members. */
  lemma {:induction false} SortedUnique(a: seq<Member>, b: seq<Member>)
    requires SortedByKey(a) && SortedByKey(b)
    requires forall x :: x in a <==> x in b
    ensures a == b
  {
    if a != [] { assert a[0] in b; }
    if b != [] { assert b[0] in a; }
    if a != [] && b != [] {
      if a[0] != b[0] {
        KeyLessTotal(a[0].key, b[0].key);
      }
      HeadNotInTail(a);
      HeadNotInTail(b);
      SortedUnique(a[1..], b[1..]);
    }
  }

  function Normalise(v: Json): (r: Json)
    requires WellFormed(v)
    decreases v, 1
  {
    match v
    case Arr(items) => Arr(NormaliseItems(items))
    case Obj(members) => Obj(SortMembers(NormaliseMembers(members)))
    case _ => v
  }

  function NormaliseItems(xs: seq<Json>): (r: seq<Json>)
    requires forall x | x in xs :: WellFormed(x)
    ensures |r| == |xs|
    ensures forall i | 0 <= i < |xs| :: r[i] == Normalise(xs[i])
    decreases xs, 0
  {
    if xs == [] then [] else [Normalise(xs[0])] + NormaliseItems(xs[1..])
  }

  function NormaliseMembers(ms: seq<Member>): (r: seq<Member>)
    requires UniqueKeys(ms) && forall m | m in ms :: WellFormed(m.value)
    ensures |r| == |ms|
    ensures forall i | 0 <= i < |ms| :: r[i] == Member(ms[i].key, Normalise(ms[i].value))
    ensures UniqueKeys(r)
    decreases ms, 0
  {
    if ms == [] then []
    else [Member(ms[0].key, Normalise(ms[0].value))] + NormaliseMembers(ms[1..])
  }

  /** The members of every object, at any depth, ascend by their keys. */
  ghost predicate Ascending(v: Json) {
    match v
    case Arr(items) => forall x | x in items :: Ascending(x)
    case Obj(members) =>
      && (forall i, j | 0 <= i < j < |members| :: Precedes(members[i].key, members[j].key))
      && forall m | m in members :: Ascending(m.value)
    case _ => true
  }

  lemma {:induction false} NormaliseAscends(v: Json)
    requires WellFormed(v)
    ensures Ascending(Normalise(v))
  {
    match v
    case Arr(items) =>
      forall i | 0 <= i < |items| ensures Ascending(Normalise(items[i])) { NormaliseAscends(items[i]); }
    case Obj(members) =>
      var ns := NormaliseMembers(members);
      var ms := SortMembers(ns);
      forall m | m in ms ensures Ascending(m.value) {
        var i :| 0 <= i < |ns| && ns[i] == m;
        NormaliseAscends(members[i].value);
      }
      forall i, j | 0 <= i < j < |ms| ensures Precedes(ms[i].key, ms[j].key) {
        KeyLessMeans(ms[i].key, ms[j].key);
      }
    case _ =>
  }

  /** Sorting every object makes exactly the values that differ in member order only equal. */
  lemma {:induction false} NormaliseSame(a: Json, b: Json)
    requires WellFormed(a) && WellFormed(b)
    ensures Normalise(a) == Normalise(b) <==> Same(a, b)
    decreases a
  {
    if a.Arr? && b.Arr? {
      if |a.items| == |b.items| {
        forall i | 0 <= i < |a.items|
          ensures Normalise(a.items[i]) == Normalise(b.items[i]) <==> Same(a.items[i], b.items[i])
        {
          NormaliseSame(a.items[i], b.items[i]);
        }
      }
    } else if a.Obj? && b.Obj? {
      forall m, n | m in a.members && n in b.members
        ensures Normalise(m.value) == Normalise(n.value) <==> Same(m.value, n.value)
      {
        NormaliseSame(m.value, n.value);
      }
      SortedMembersEqual(a.members, b.members);
      SameObjects(a.members, b.members);
    }
  }

  lemma SameObjects(ms: seq<Member>, ns: seq<Member>)
    requires forall m | m in ms :: WellFormed(m.value)
    requires forall n | n in ns :: WellFormed(n.value)
    requires forall m, n | m in ms && n in ns ::
               Normalise(m.value) == Normalise(n.value) <==> Same(m.value, n.value)
    ensures Same(Obj(ms), Obj(ns)) <==> Covers(ms, ns) && Covers(ns, ms)
  {
  }

  /** Every member of `ms` has a counterpart in `ns`: same key, same normal form. */
  ghost predicate Covers(ms: seq<Member>, ns: seq<Member>)
    requires forall m | m in ms :: WellFormed(m.value)
    requires forall n | n in ns :: WellFormed(n.value)
  {
    forall m | m in ms :: exists n | n in ns :: m.key == n.key && Normalise(m.value) == Normalise(n.value)
  }

  lemma SortedMembersEqual(ms: seq<Member>, ns: seq<Member>)
    requires UniqueKeys(ms) && forall m | m in ms :: WellFormed(m.value)
    requires UniqueKeys(ns) && forall n | n in ns :: WellFormed(n.value)
    ensures SortMembers(NormaliseMembers(ms)) == SortMembers(NormaliseMembers(ns)) <==>
            Covers(ms, ns) && Covers(ns, ms)
  {
    var nms, nns := NormaliseMembers(ms), NormaliseMembers(ns);
    CoversNormalised(ms, ns);
    CoversNormalised(ns, ms);
    if SortMembers(nms) == SortMembers(nns) {
      forall x ensures x in nms <==> x in nns {
        assert x in nms <==> x in SortMembers(nms);
      }
    }
    if Covers(ms, ns) && Covers(ns, ms) {
      SortedUnique(SortMembers(nms), SortMembers(nns));
    }
  }

  lemma CoversNormalised(ms: seq<Member>, ns: seq<Member>)
    requires UniqueKeys(ms) && forall m | m in ms :: WellFormed(m.value)
    requires UniqueKeys(ns) && forall n | n in ns :: WellFormed(n.value)
    ensures Covers(ms, ns) <==> forall x | x in NormaliseMembers(ms) :: x in NormaliseMembers(ns)
  {
    var nms, nns := NormaliseMembers(ms), NormaliseMembers(ns);
    if Covers(ms, ns) {
      forall x | x in nms ensures x in nns {
        var i :| 0 <= i < |nms| && nms[i] == x;
        assert ms[i] in ms;
        var n :| n in ns && ms[i].key == n.key && Normalise(ms[i].value) == Normalise(n.value);
        var j :| 0 <= j < |ns| && ns[j] == n;
        assert nns[j] == x;
      }
    }
    if forall x | x in nms :: x in nns {
      forall m | m in ms
        ensures exists n | n in ns :: m.key == n.key && Normalise(m.value) == Normalise(n.value)
      {
        var i :| 0 <= i < |ms| && ms[i] == m;
        assert nms[i] in nns;
        var j :| 0 <= j < |ns| && nns[j] == nms[i];
        assert ns[j] in ns;
      }
    }
  }
}
