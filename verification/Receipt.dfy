/** Hash-chained decision receipts and their verifier (agent/policy/receipt.py). SHA-256 is a
    parameter `H`, from the hashed text to its 64 hexadecimal digits. */
module Receipts {
  import opened Wrappers
  import opened Canonical
  import opened JsonText

  type Digest = string -> string

  const PREFIX: string := "sha256:"
  const DIGEST_LEN: nat := 64
  const ZEROS: string := Zeros(DIGEST_LEN)
  const GENESIS: string := PREFIX + ZEROS
  const CID_HEX_LEN := 32

  function Zeros(n: nat): (s: string)
    ensures |s| == n && forall i | 0 <= i < n :: s[i] == '0'
  {
    if n == 0 then "" else ['0'] + Zeros(n - 1)
  }

  /** What is assumed of SHA-256: digests have 64 digits, and among the given texts there is neither a
      collision nor a preimage of the all-zero digest. */
  ghost predicate SoundOn(H: Digest, texts: set<string>) {
    && (forall t: string :: |H(t)| == DIGEST_LEN)
    && (forall s, t | s in texts && t in texts && H(s) == H(t) :: s == t)
    && (forall t | t in texts :: H(t) != ZEROS)
  }

  // ---------------------------------------------------------------- integers in JSON

  function Digits(n: nat): (s: string)
    ensures |s| > 0 && forall i | 0 <= i < |s| :: '0' <= s[i] <= '9'
  {
    if n < 10 then [('0' as int + n) as char] else Digits(n / 10) + [('0' as int + n % 10) as char]
  }

  function IntegerLexeme(n: int): (s: string)
    ensures NumberLexeme(s)
  {
    if n < 0 then "-" + Digits(-n) else Digits(n)
  }

  function DigitsValue(s: string): int {
    if s == [] then 0 else 10 * DigitsValue(s[..|s| - 1]) + (s[|s| - 1] as int - '0' as int)
  }

  lemma {:induction false} DigitsReadBack(n: nat)
    ensures DigitsValue(Digits(n)) == n && (Digits(n)[0] == '0' ==> Digits(n) == "0")
  {
    if n >= 10 {
      DigitsReadBack(n / 10);
      assert Digits(n)[..|Digits(n)| - 1] == Digits(n / 10);
    } else {
      assert Digits(n)[..0] == [];
    }
  }

  lemma IntegerLexemeInjective(m: int, n: int)
    requires IntegerLexeme(m) == IntegerLexeme(n)
    ensures m == n
  {
    var p, q := if m < 0 then -m else m, if n < 0 then -n else n;
    DigitsReadBack(p);
    DigitsReadBack(q);
    if m < 0 || n < 0 {
      assert IntegerLexeme(m)[0] == '-' && IntegerLexeme(n)[0] == '-';
      assert Digits(p) == IntegerLexeme(m)[1..] && Digits(q) == IntegerLexeme(n)[1..];
    }
  }

  // ---------------------------------------------------------------- receipts

  datatype Receipt = Receipt(
    seqNo: int,
    ts: string,
    policyHash: string,
    kind: string,
    decision: Json,
    verdict: string,
    reason: string,
    inputsDigest: string,
    prevHash: string,
    hash: string)

  const BODY_KEYS: seq<string> :=
    ["seq", "ts", "policy_hash", "kind", "decision", "verdict", "reason", "inputs_digest"]

  function BodyValues(r: Receipt): (vs: seq<Json>)
    ensures |vs| == 8
    ensures WellFormed(r.decision) ==> forall i | 0 <= i < 8 :: WellFormed(vs[i])
  {
    [Number(IntegerLexeme(r.seqNo)), Str(r.ts), Str(r.policyHash), Str(r.kind), r.decision, Str(r.verdict),
     Str(r.reason), Str(r.inputsDigest)]
  }

  lemma BodyKeys()
    ensures |BODY_KEYS| == 8
    ensures forall i | 0 <= i < 8 :: !IsComment(BODY_KEYS[i])
    ensures forall i, j | 0 <= i < j < 8 :: BODY_KEYS[i] != BODY_KEYS[j]
  {
    var ks := BODY_KEYS;
    assert |ks[0]| == 3 && |ks[1]| == 2 && |ks[2]| == 11 && |ks[3]| == 4;
    assert |ks[4]| == 8 && |ks[5]| == 7 && |ks[6]| == 6 && |ks[7]| == 13;
  }

  function Zip(keys: seq<string>, values: seq<Json>): (ms: seq<Member>)
    requires |keys| == |values|
    ensures |ms| == |keys|
    ensures forall i | 0 <= i < |keys| :: ms[i] == Member(keys[i], values[i])
  {
    seq(|keys|, i requires 0 <= i < |keys| => Member(keys[i], values[i]))
  }

  function Body(r: Receipt): (v: Json)
    requires WellFormed(r.decision)
    ensures WellFormed(v)
  {
    BodyKeys();
    var ms := Zip(BODY_KEYS, BodyValues(r));
    assert forall m | m in ms :: WellFormed(m.value);
    Obj(ms)
  }

  /** The body is a dictionary of every field but the two hashes, each under its name. */
  lemma BodyMeans(r: Receipt)
    requires WellFormed(r.decision)
    ensures Body(r) == Obj([
              Member("seq", Number(IntegerLexeme(r.seqNo))), Member("ts", Str(r.ts)),
              Member("policy_hash", Str(r.policyHash)), Member("kind", Str(r.kind)), Member("decision", r.decision),
              Member("verdict", Str(r.verdict)), Member("reason", Str(r.reason)),
              Member("inputs_digest", Str(r.inputsDigest))])
  {
    BodyKeys();
    hide IntegerLexeme, WellFormed;
  }

  /** The text whose digest is the receipt's hash. */
  function Preimage(r: Receipt): string
    requires WellFormed(r.decision)
  {
    r.prevHash + CanonicalText(Body(r))
  }

  function ComputeHash(H: Digest, r: Receipt): string
    requires WellFormed(r.decision)
  {
    PREFIX + H(Preimage(r))
  }

  predicate Readable(rs: seq<Receipt>) {
    forall r | r in rs :: WellFormed(r.decision)
  }

  /** The hash that the receipt at index `i` has to link to. */
  function HashBefore(rs: seq<Receipt>, i: nat): string
    requires i <= |rs|
  {
    if i == 0 then GENESIS else rs[i - 1].hash
  }

  function HeadHash(rs: seq<Receipt>): string {
    HashBefore(rs, |rs|)
  }

  predicate LinkOk(H: Digest, rs: seq<Receipt>, i: nat)
    requires Readable(rs) && i < |rs|
  {
    rs[i].prevHash == HashBefore(rs, i) && rs[i].hash == ComputeHash(H, rs[i])
  }

  lemma LinkMeans(H: Digest, rs: seq<Receipt>, i: nat)
    requires Readable(rs) && i < |rs|
    ensures LinkOk(H, rs, i) <==> rs[i].prevHash == HashBefore(rs, i) && rs[i].hash == ComputeHash(H, rs[i])
  {
  }

  predicate ChainValid(H: Digest, rs: seq<Receipt>) {
    Readable(rs) && forall i | 0 <= i < |rs| :: LinkOk(H, rs, i)
  }

  predicate References(r: Receipt, expected: Option<string>) {
    expected == None || expected == Some(r.policyHash)
  }

  datatype Break = PrevHashMismatch | HashMismatch
  datatype ChainReport =
    | Intact(count: nat, policyOk: bool)
    | Broken(count: nat, brokenAt: nat, why: Break)

  /** The verifier accepts exactly the valid chains; otherwise it names the first broken link. */
  method VerifyChain(H: Digest, records: seq<Receipt>, expected: Option<string>) returns (report: ChainReport)
    requires Readable(records)
    ensures report.count == |records|
    ensures report.Intact? <==> ChainValid(H, records)
    ensures report.Intact? ==>
              (report.policyOk <==> forall i | 0 <= i < |records| :: References(records[i], expected))
    ensures report.Intact? ==>
              (report.policyOk <==> expected.None? || forall r | r in records :: r.policyHash == expected.value)
    ensures report.Broken? ==>
              && report.brokenAt < |records|
              && (forall i | 0 <= i < report.brokenAt :: LinkOk(H, records, i))
              && !LinkOk(H, records, report.brokenAt)
              && (report.why == PrevHashMismatch <==>
                  records[report.brokenAt].prevHash != HashBefore(records, report.brokenAt))
  {
    hide ComputeHash, LinkOk;
    var prev := GENESIS;
    var policyOk := true;
    var i := 0;
    while i < |records|
      invariant 0 <= i <= |records|
      invariant prev == HashBefore(records, i)
      invariant forall k | 0 <= k < i :: LinkOk(H, records, k)
      invariant policyOk <==> forall k | 0 <= k < i :: References(records[k], expected)
    {
      var r := records[i];
      LinkMeans(H, records, i);
      if r.prevHash != prev {
        return Broken(|records|, i, PrevHashMismatch);
      }
      if ComputeHash(H, r) != r.hash {
        return Broken(|records|, i, HashMismatch);
      }
      if expected.Some? && r.policyHash != expected.value {
        policyOk := false;
      }
      prev := r.hash;
      i := i + 1;
    }
    return Intact(|records|, policyOk);
  }

  lemma PrefixLinks(H: Digest, rs: seq<Receipt>, n: nat)
    requires Readable(rs) && n <= |rs| && forall k | 0 <= k < n :: LinkOk(H, rs, k)
    ensures ChainValid(H, rs[..n])
  {
    forall k | 0 <= k < n ensures LinkOk(H, rs[..n], k) {
      assert LinkOk(H, rs, k);
    }
  }

  // ---------------------------------------------------------------- producing receipts

  /** What `append` is given: a receipt without its place in the chain. */
  datatype Draft = Draft(
    ts: string, policyHash: string, kind: string, decision: Json, verdict: string, reason: string, inputsDigest: string)

  function NextReceipt(H: Digest, rs: seq<Receipt>, d: Draft): (r: Receipt)
    requires WellFormed(d.decision)
    ensures r.ts == d.ts && r.policyHash == d.policyHash && r.kind == d.kind && r.decision == d.decision
    ensures r.verdict == d.verdict && r.reason == d.reason && r.inputsDigest == d.inputsDigest
  {
    var seqNo := if rs == [] then 0 else rs[|rs| - 1].seqNo + 1;
    var r := Receipt(seqNo, d.ts, d.policyHash, d.kind, d.decision, d.verdict, d.reason, d.inputsDigest,
                     HeadHash(rs), "");
    r.(hash := ComputeHash(H, r))
  }

  predicate Numbered(rs: seq<Receipt>) {
    forall i | 0 <= i < |rs| :: rs[i].seqNo == i
  }

  /** The chain file and its only writer. */
  class ReceiptChain {
    var records: seq<Receipt>

    constructor ()
      ensures records == []
    {
      records := [];
    }

    method Head() returns (nextSeq: int, prevHash: string)
      ensures prevHash == HeadHash(records)
      ensures nextSeq == if records == [] then 0 else records[|records| - 1].seqNo + 1
    {
      if records == [] {
        return 0, GENESIS;
      }
      var last := records[|records| - 1];
      return last.seqNo + 1, last.hash;
    }

    method Append(H: Digest, d: Draft) returns (r: Receipt)
      requires WellFormed(d.decision)
      modifies this
      ensures r == NextReceipt(H, old(records), d)
      ensures records == old(records) + [r]
      ensures ChainValid(H, old(records)) ==> ChainValid(H, records)
      ensures Numbered(old(records)) ==> Numbered(records)
    {
      var seqNo, prev := Head();
      r := Receipt(seqNo, d.ts, d.policyHash, d.kind, d.decision, d.verdict, d.reason, d.inputsDigest, prev, "");
      r := r.(hash := ComputeHash(H, r));
      if ChainValid(H, records) { AppendKeepsValid(H, records, d); }
      records := records + [r];
    }
  }

  /** Appending to a valid, numbered chain keeps it so: the verifier accepts whatever the producer wrote. */
  lemma AppendKeepsValid(H: Digest, rs: seq<Receipt>, d: Draft)
    requires ChainValid(H, rs) && WellFormed(d.decision)
    ensures ChainValid(H, rs + [NextReceipt(H, rs, d)])
    ensures Numbered(rs) ==> Numbered(rs + [NextReceipt(H, rs, d)])
  {
    var r := NextReceipt(H, rs, d);
    var all := rs + [r];
    assert Preimage(r) == Preimage(r.(hash := ""));
    forall i | 0 <= i < |all| ensures LinkOk(H, all, i) {
      if i < |rs| {
        assert LinkOk(H, rs, i);
      }
    }
  }

  // ---------------------------------------------------------------- tamper evidence

  ghost function Preimages(rs: seq<Receipt>): set<string>
    requires Readable(rs)
  {
    set i | 0 <= i < |rs| :: Preimage(rs[i])
  }

  /** The two receipts record the same decision: every committed field agrees, the decision itself up
      to comments and the order of members. */
  ghost predicate SameRecord(a: Receipt, b: Receipt) {
    && a.seqNo == b.seqNo && a.ts == b.ts && a.policyHash == b.policyHash && a.kind == b.kind
    && a.verdict == b.verdict && a.reason == b.reason && a.inputsDigest == b.inputsDigest
    && Same(StripComments(a.decision), StripComments(b.decision))
  }

  lemma {:induction false} StripWithoutComments(ms: seq<Member>)
    requires forall m | m in ms :: !IsComment(m.key)
    ensures |StripMembers(ms)| == |ms|
    ensures forall i | 0 <= i < |ms| :: StripMembers(ms)[i] == Member(ms[i].key, StripComments(ms[i].value))
  {
    if ms != [] { StripWithoutComments(ms[1..]); }
  }

  lemma SameMember(ps: seq<Member>, qs: seq<Member>, p: Member) returns (q: Member)
    requires Same(Obj(ps), Obj(qs)) && p in ps
    ensures q in qs && p.key == q.key && Same(p.value, q.value)
  {
    q :| q in qs && p.key == q.key && Same(p.value, q.value);
  }

  lemma SamePositions(ps: seq<Member>, qs: seq<Member>, i: nat)
    requires UniqueKeys(ps) && |ps| == |qs| && forall k | 0 <= k < |ps| :: ps[k].key == qs[k].key
    requires Same(Obj(ps), Obj(qs)) && i < |ps|
    ensures Same(ps[i].value, qs[i].value)
  {
    hide Same;
    var q := SameMember(ps, qs, ps[i]);
    var j :| 0 <= j < |qs| && qs[j] == q;
    assert ps[j].key == ps[i].key;
  }

  lemma SameByPosition(ps: seq<Member>, qs: seq<Member>)
    requires UniqueKeys(ps) && |ps| == |qs| && forall i | 0 <= i < |ps| :: ps[i].key == qs[i].key
    ensures Same(Obj(ps), Obj(qs)) <==> forall i | 0 <= i < |ps| :: Same(ps[i].value, qs[i].value)
  {
    hide Same;
    if Same(Obj(ps), Obj(qs)) {
      forall i | 0 <= i < |ps| ensures Same(ps[i].value, qs[i].value) {
        SamePositions(ps, qs, i);
      }
    }
    if forall i | 0 <= i < |ps| :: Same(ps[i].value, qs[i].value) {
      SameIfPositions(ps, qs);
    }
  }

  lemma SameIfPositions(ps: seq<Member>, qs: seq<Member>)
    requires |ps| == |qs|
    requires forall i | 0 <= i < |ps| :: ps[i].key == qs[i].key && Same(ps[i].value, qs[i].value)
    ensures Same(Obj(ps), Obj(qs))
  {
    forall p | p in ps ensures exists q | q in qs :: p.key == q.key && Same(p.value, q.value) {
      var i :| 0 <= i < |ps| && ps[i] == p;
      assert qs[i] in qs;
    }
    forall q | q in qs ensures exists p | p in ps :: p.key == q.key && Same(p.value, q.value) {
      var i :| 0 <= i < |qs| && qs[i] == q;
      assert ps[i] in ps;
    }
  }

  lemma TextsAreThemselves(s: string, t: string)
    ensures Same(StripComments(Str(s)), StripComments(Str(t))) <==> s == t
    ensures Same(StripComments(Number(s)), StripComments(Number(t))) <==> s == t
  {
  }

  ghost predicate SameValues(vs: seq<Json>, ws: seq<Json>)
    requires |vs| == |ws| == 8
  {
    forall i | 0 <= i < 8 :: Same(StripComments(vs[i]), StripComments(ws[i]))
  }

  lemma BodyValuesCommit(a: Receipt, b: Receipt)
    ensures SameValues(BodyValues(a), BodyValues(b)) <==> SameRecord(a, b)
  {
    hide Same, StripComments, IntegerLexeme;
    TextsAreThemselves(IntegerLexeme(a.seqNo), IntegerLexeme(b.seqNo));
    TextsAreThemselves(a.ts, b.ts);
    TextsAreThemselves(a.policyHash, b.policyHash);
    TextsAreThemselves(a.kind, b.kind);
    TextsAreThemselves(a.verdict, b.verdict);
    TextsAreThemselves(a.reason, b.reason);
    TextsAreThemselves(a.inputsDigest, b.inputsDigest);
    if IntegerLexeme(a.seqNo) == IntegerLexeme(b.seqNo) { IntegerLexemeInjective(a.seqNo, b.seqNo); }
    var vs, ws := BodyValues(a), BodyValues(b);
    assert vs[0] == Number(IntegerLexeme(a.seqNo)) && ws[0] == Number(IntegerLexeme(b.seqNo));
    EightValues(vs, ws);
  }

  lemma EightValues(vs: seq<Json>, ws: seq<Json>)
    requires |vs| == |ws| == 8
    ensures SameValues(vs, ws) <==>
            && Same(StripComments(vs[0]), StripComments(ws[0])) && Same(StripComments(vs[1]), StripComments(ws[1]))
            && Same(StripComments(vs[2]), StripComments(ws[2])) && Same(StripComments(vs[3]), StripComments(ws[3]))
            && Same(StripComments(vs[4]), StripComments(ws[4])) && Same(StripComments(vs[5]), StripComments(ws[5]))
            && Same(StripComments(vs[6]), StripComments(ws[6])) && Same(StripComments(vs[7]), StripComments(ws[7]))
  {
    hide Same, StripComments;
  }

  lemma StrippedZip(vs: seq<Json>)
    requires |vs| == |BODY_KEYS|
    ensures var ms := StripMembers(Zip(BODY_KEYS, vs));
            && |ms| == 8 && UniqueKeys(ms)
            && forall i | 0 <= i < 8 :: ms[i] == Member(BODY_KEYS[i], StripComments(vs[i]))
  {
    BodyKeys();
    StripWithoutComments(Zip(BODY_KEYS, vs));
  }

  /** The canonical body commits to the record: exactly equal records have equal canonical bodies. */
  lemma BodyCommits(a: Receipt, b: Receipt)
    requires WellFormed(a.decision) && WellFormed(b.decision)
    ensures CanonicalText(Body(a)) == CanonicalText(Body(b)) <==> SameRecord(a, b)
  {
    hide CanonicalText, SameRecord, BodyValues;
    CanonicalInjective(Body(a), Body(b));
    BodiesSame(BodyValues(a), BodyValues(b));
    BodyValuesCommit(a, b);
  }

  lemma BodiesSame(vs: seq<Json>, ws: seq<Json>)
    requires |vs| == |ws| == 8 && |BODY_KEYS| == 8
    ensures Same(StripComments(Obj(Zip(BODY_KEYS, vs))), StripComments(Obj(Zip(BODY_KEYS, ws)))) <==> SameValues(vs, ws)
  {
    StrippedZip(vs);
    StrippedZip(ws);
    var ps, qs := StripMembers(Zip(BODY_KEYS, vs)), StripMembers(Zip(BODY_KEYS, ws));
    hide Same, StripMembers, Zip;
    SameByPosition(ps, qs);
    assert StripComments(Obj(Zip(BODY_KEYS, vs))) == Obj(ps) && StripComments(Obj(Zip(BODY_KEYS, ws))) == Obj(qs);
    assert forall i | 0 <= i < 8 :: ps[i].value == StripComments(vs[i]) && qs[i].value == StripComments(ws[i]);
  }

  ghost predicate SameHistory(a: seq<Receipt>, b: seq<Receipt>) {
    |a| == |b| && forall i | 0 <= i < |a| :: SameRecord(a[i], b[i])
  }

  /** Tamper evidence: among accepted chains the last hash stands for the whole history. Two chains end
      in the same hash exactly when they have the same length and the same record at every index. */
  lemma {:induction false} TamperEvident(H: Digest, a: seq<Receipt>, b: seq<Receipt>)
    requires ChainValid(H, a) && ChainValid(H, b)
    requires SoundOn(H, Preimages(a) + Preimages(b))
    ensures HeadHash(a) == HeadHash(b) <==> SameHistory(a, b)
    decreases |a|
  {
    hide ComputeHash, Preimage, SameRecord, LinkOk, SoundOn, Preimages;
    var texts := Preimages(a) + Preimages(b);
    if a == [] || b == [] {
      if a != [] {
        SoundOnFewer(H, Preimages(a), texts);
        NonGenesisHead(H, a);
      }
      if b != [] {
        SoundOnFewer(H, Preimages(b), texts);
        NonGenesisHead(H, b);
      }
    } else {
      var p, q := a[..|a| - 1], b[..|b| - 1];
      PrefixValid(H, a);
      PrefixValid(H, b);
      SoundOnFewer(H, Preimages(p) + Preimages(q), texts);
      TamperEvident(H, p, q);
      HeadStep(H, a, b);
      SameHistorySplit(a, b);
    }
  }

  lemma SoundOnFewer(H: Digest, fewer: set<string>, texts: set<string>)
    requires SoundOn(H, texts) && fewer <= texts
    ensures SoundOn(H, fewer)
  {
  }

  lemma SameHistorySplit(a: seq<Receipt>, b: seq<Receipt>)
    requires a != [] && b != []
    ensures SameHistory(a, b) <==>
            SameHistory(a[..|a| - 1], b[..|b| - 1]) && SameRecord(a[|a| - 1], b[|b| - 1])
  {
    var p, q := a[..|a| - 1], b[..|b| - 1];
    if SameHistory(p, q) && SameRecord(a[|a| - 1], b[|b| - 1]) {
      forall i | 0 <= i < |a| ensures SameRecord(a[i], b[i]) {
        if i < |p| { assert SameRecord(p[i], q[i]); }
      }
    }
    if SameHistory(a, b) {
      forall i | 0 <= i < |p| ensures SameRecord(p[i], q[i]) { assert SameRecord(a[i], b[i]); }
    }
  }

  /** Equal heads mean equal last records on equal heads. */
  lemma HeadStep(H: Digest, a: seq<Receipt>, b: seq<Receipt>)
    requires ChainValid(H, a) && ChainValid(H, b) && a != [] && b != []
    requires SoundOn(H, Preimages(a) + Preimages(b))
    ensures HeadHash(a) == HeadHash(b) <==>
            HashBefore(a, |a| - 1) == HashBefore(b, |b| - 1) && SameRecord(a[|a| - 1], b[|b| - 1])
  {
    hide Body, CanonicalText, SameRecord, Preimages;
    LinkAt(H, a, |a| - 1);
    LinkAt(H, b, |b| - 1);
    BodyCommits(a[|a| - 1], b[|b| - 1]);
    LinksCompare(H, Preimages(a) + Preimages(b), a[|a| - 1], b[|b| - 1]);
  }

  lemma PrefixValid(H: Digest, a: seq<Receipt>)
    requires ChainValid(H, a) && a != []
    ensures ChainValid(H, a[..|a| - 1]) && Preimages(a[..|a| - 1]) <= Preimages(a)
  {
    PrefixLinks(H, a, |a| - 1);
    var p := a[..|a| - 1];
    forall t | t in Preimages(p) ensures t in Preimages(a) {
      var i :| 0 <= i < |p| && t == Preimage(p[i]);
      assert a[i] == p[i];
    }
  }

  lemma NonGenesisHead(H: Digest, a: seq<Receipt>)
    requires ChainValid(H, a) && a != [] && SoundOn(H, Preimages(a))
    ensures HeadHash(a) != GENESIS
  {
    LinkAt(H, a, |a| - 1);
    var r := a[|a| - 1];
    assert r.hash[|PREFIX|..] == H(Preimage(r)) && GENESIS[|PREFIX|..] == ZEROS;
  }

  /** The previous hash has a fixed length, so a preimage splits into it and the body in one way only. */
  lemma LinksCompare(H: Digest, texts: set<string>, r: Receipt, s: Receipt)
    requires WellFormed(r.decision) && WellFormed(s.decision)
    requires SoundOn(H, texts) && Preimage(r) in texts && Preimage(s) in texts
    requires |r.prevHash| == |s.prevHash|
    ensures ComputeHash(H, r) == ComputeHash(H, s) <==>
            r.prevHash == s.prevHash && CanonicalText(Body(r)) == CanonicalText(Body(s))
  {
    var n := |r.prevHash|;
    if ComputeHash(H, r) == ComputeHash(H, s) {
      assert H(Preimage(r)) == ComputeHash(H, r)[|PREFIX|..] && H(Preimage(s)) == ComputeHash(H, s)[|PREFIX|..];
      assert Preimage(r) == Preimage(s);
      assert r.prevHash == Preimage(r)[..n] && s.prevHash == Preimage(s)[..n];
      assert CanonicalText(Body(r)) == Preimage(r)[n..] && CanonicalText(Body(s)) == Preimage(s)[n..];
    }
  }

  lemma LinkAt(H: Digest, rs: seq<Receipt>, i: nat)
    requires ChainValid(H, rs) && i < |rs|
    ensures rs[i].prevHash == HashBefore(rs, i)
    ensures rs[i].hash == ComputeHash(H, rs[i]) && Preimage(rs[i]) in Preimages(rs)
    ensures (forall t: string :: |H(t)| == DIGEST_LEN) ==> |rs[i].prevHash| == |PREFIX| + DIGEST_LEN
  {
    assert LinkOk(H, rs, i);
    if i > 0 { assert LinkOk(H, rs, i - 1); }
  }

  /** In a numbered chain no two receipts share a hash. */
  lemma HashesDistinct(H: Digest, rs: seq<Receipt>, i: nat, j: nat)
    requires ChainValid(H, rs) && Numbered(rs) && SoundOn(H, Preimages(rs))
    requires i < j < |rs|
    ensures rs[i].hash != rs[j].hash
  {
    LinkAt(H, rs, i);
    LinkAt(H, rs, j);
    LinksCompare(H, Preimages(rs), rs[i], rs[j]);
    BodyCommits(rs[i], rs[j]);
  }

  // ---------------------------------------------------------------- order ids

  /** The text after the first colon, or all of it if there is none. */
  function AfterColon(s: string): string {
    if ':' !in s then s else if s[0] == ':' then s[1..] else AfterColon(s[1..])
  }

  function ReceiptCid(hash: string): (cid: string)
    ensures |cid| <= CID_HEX_LEN
  {
    var hex := AfterColon(hash);
    if |hex| <= CID_HEX_LEN then hex else hex[..CID_HEX_LEN]
  }

  lemma {:induction false} AfterColonSkips(s: string, n: nat)
    requires n < |s| && s[n] == ':' && forall i | 0 <= i < n :: s[i] != ':'
    ensures AfterColon(s) == s[n + 1..]
  {
    if n > 0 {
      AfterColonSkips(s[1..], n - 1);
      assert s[1..][n..] == s[n + 1..];
    }
  }

  /** The order id of a receipt is the first half of its digest: 128 bits of the hash. */
  lemma CidIsDigestPrefix(digest: string)
    requires |digest| == DIGEST_LEN
    ensures ReceiptCid(PREFIX + digest) == digest[..32]
  {
    AfterColonSkips(PREFIX + digest, 6);
    assert (PREFIX + digest)[7..] == digest;
  }
}
