/** `json.dumps(..., sort_keys=True, separators=(",", ":"), ensure_ascii=True)` as used by
    `canonical_bytes` (agent/policy/canonical.py:39-42), and why its output is unambiguous. */
module JsonText {
  import opened Wrappers
  import opened Canonical

  // ---------------------------------------------------------------- strings

  function HexDigit(d: nat): char
    requires d < 16
  {
    if d < 10 then ('0' as int + d) as char else ('a' as int + d - 10) as char
  }

  function UnicodeEscape(unit: nat): string
    requires unit < 0x10000
  {
    ['\\', 'u', HexDigit(unit / 4096), HexDigit(unit / 256 % 16), HexDigit(unit / 16 % 16), HexDigit(unit % 16)]
  }

  function HighSurrogate(n: nat): (unit: nat)
    requires n < 0x100000
    ensures 0xD800 <= unit < 0xDC00
  {
    0xD800 + n / 0x400
  }

  function LowSurrogate(n: nat): (unit: nat)
    ensures 0xDC00 <= unit < 0xE000
  {
    0xDC00 + n % 0x400
  }

  /** One character as Python's ASCII-only string encoder writes it. */
  function EscapeChar(c: char): string {
    var n := c as int;
    if c == '\\' then "\\\\"
    else if c == '"' then "\\\""
    else if n == 8 then "\\b"
    else if n == 9 then "\\t"
    else if n == 10 then "\\n"
    else if n == 12 then "\\f"
    else if n == 13 then "\\r"
    else if 0x20 <= n <= 0x7E then [c]
    else if n < 0x10000 then UnicodeEscape(n)
    else UnicodeEscape(HighSurrogate(n - 0x10000)) + UnicodeEscape(LowSurrogate(n - 0x10000))
  }

  /** The characters of `s`, the closing quote, and then `rest`. */
  function StringThen(s: string, rest: string): string {
    if s == [] then "\"" + rest else EscapeChar(s[0]) + StringThen(s[1..], rest)
  }

  function HexValue(c: char): Option<nat> {
    if '0' <= c <= '9' then Some(c as int - '0' as int)
    else if 'a' <= c <= 'f' then Some(c as int - 'a' as int + 10)
    else if 'A' <= c <= 'F' then Some(c as int - 'A' as int + 10)
    else None
  }

  /** A `\uXXXX` escape at the head of `t`: one UTF-16 code unit. */
  function ReadUnit(t: string): (r: Option<nat>)
    ensures r.Some? ==> |t| >= 6 && r.value < 0x10000
  {
    if |t| < 6 || t[0] != '\\' || t[1] != 'u' then None
    else
      match (HexValue(t[2]), HexValue(t[3]), HexValue(t[4]), HexValue(t[5]))
      case (Some(a), Some(b), Some(c), Some(d)) =>
        assert a < 16 && b < 16 && c < 16 && d < 16;
        Some(4096 * a + 256 * b + 16 * c + d)
      case _ => None
  }

  datatype Read<T> = NoParse | Parsed(value: T, rest: string)

  /** One character of a JSON string body, by section 7 of RFC 8259. A `\u` escape that is a lone
      surrogate denotes no character (section 8.2). */
  function ReadChar(t: string): (r: Read<char>)
    ensures r.Parsed? ==> |r.rest| < |t|
  {
    if t == [] || t[0] == '"' || (t[0] as int) < 0x20 then NoParse
    else if t[0] != '\\' then Parsed(t[0], t[1..])
    else if |t| < 2 then NoParse
    else
      match t[1]
      case '"' => Parsed('"', t[2..])
      case '\\' => Parsed('\\', t[2..])
      case '/' => Parsed('/', t[2..])
      case 'b' => Parsed(8 as char, t[2..])
      case 'f' => Parsed(12 as char, t[2..])
      case 'n' => Parsed(10 as char, t[2..])
      case 'r' => Parsed(13 as char, t[2..])
      case 't' => Parsed(9 as char, t[2..])
      case 'u' =>
        (match ReadUnit(t)
         case None => NoParse
         case Some(u) =>
           if u < 0xD800 || u >= 0xE000 then Parsed(u as char, t[6..])
           else
             match ReadUnit(t[6..])
             case None => NoParse
             case Some(v) =>
               if u < 0xDC00 && 0xDC00 <= v < 0xE000 then
                 Parsed((0x10000 + (u - 0xD800) * 0x400 + (v - 0xDC00)) as char, t[12..])
               else NoParse)
      case _ => NoParse
  }

  /** A JSON string body up to its closing quote. */
  function ReadString(t: string): (r: Read<string>)
    ensures r.Parsed? ==> |r.rest| < |t|
    decreases |t|
  {
    if t == [] then NoParse
    else if t[0] == '"' then Parsed("", t[1..])
    else
      match ReadChar(t)
      case NoParse => NoParse
      case Parsed(c, rest) =>
        match ReadString(rest)
        case NoParse => NoParse
        case Parsed(s, end) => Parsed([c] + s, end)
  }

  lemma HexDigitValue(d: nat)
    requires d < 16
    ensures HexValue(HexDigit(d)) == Some(d)
  {
  }

  lemma HexDigitsSum(unit: nat)
    requires unit < 0x10000
    ensures 4096 * (unit / 4096) + 256 * (unit / 256 % 16) + 16 * (unit / 16 % 16) + unit % 16 == unit
  {
    var x, y, z := unit / 16, unit / 256, unit / 4096;
    NextDigit(unit, 16);
    NextDigit(unit, 256);
    assert unit == 16 * x + unit % 16 && x == 16 * y + x % 16 && y == 16 * z + y % 16;
  }

  lemma NextDigit(unit: nat, base: nat)
    requires base == 16 || base == 256
    ensures unit / base / 16 == unit / (16 * base)
  {
  }

  lemma ReadUnitEscape(unit: nat, rest: string)
    requires unit < 0x10000
    ensures ReadUnit(UnicodeEscape(unit) + rest) == Some(unit)
    ensures (UnicodeEscape(unit) + rest)[6..] == rest
    ensures (UnicodeEscape(unit) + rest)[0] == '\\' && (UnicodeEscape(unit) + rest)[1] == 'u'
  {
    var a, b, c, d := unit / 4096, unit / 256 % 16, unit / 16 % 16, unit % 16;
    HexDigitValue(a);
    HexDigitValue(b);
    HexDigitValue(c);
    HexDigitValue(d);
    HexDigitsSum(unit);
    var t := UnicodeEscape(unit) + rest;
    assert t[0] == '\\' && t[1] == 'u' && t[2] == HexDigit(a) && t[3] == HexDigit(b) && t[4] == HexDigit(c)
        && t[5] == HexDigit(d);
  }

  lemma ReadPair(hi: nat, lo: nat, rest: string)
    requires 0xD800 <= hi < 0xDC00 <= lo < 0xE000
    ensures ReadChar(UnicodeEscape(hi) + UnicodeEscape(lo) + rest)
         == Parsed((0x10000 + (hi - 0xD800) * 0x400 + (lo - 0xDC00)) as char, rest)
  {
    var t, tail := UnicodeEscape(hi) + UnicodeEscape(lo) + rest, UnicodeEscape(lo) + rest;
    assert t == UnicodeEscape(hi) + tail;
    ReadUnitEscape(hi, tail);
    ReadUnitEscape(lo, rest);
    assert t[12..] == t[6..][6..];
  }

  lemma SurrogatesMeet(n: nat)
    requires n < 0x100000
    ensures (HighSurrogate(n) - 0xD800) * 0x400 + (LowSurrogate(n) - 0xDC00) == n
  {
  }

  lemma ReadSurrogatePair(c: char, rest: string)
    requires c as int >= 0x10000
    ensures ReadChar(EscapeChar(c) + rest) == Parsed(c, rest)
  {
    hide ReadChar, UnicodeEscape, HighSurrogate, LowSurrogate;
    var n: nat := c as int - 0x10000;
    SurrogatesMeet(n);
    ReadPair(HighSurrogate(n), LowSurrogate(n), rest);
  }

  lemma ReadUnicodeEscape(c: char, rest: string)
    requires c as int < 0x10000
    ensures ReadChar(UnicodeEscape(c as int) + rest) == Parsed(c, rest)
  {
    ReadUnitEscape(c as int, rest);
    assert (UnicodeEscape(c as int) + rest)[1] == 'u';
  }

  /** Section 7 of RFC 8259 reads an escaped character back. */
  lemma ReadEscapedChar(c: char, rest: string)
    ensures ReadChar(EscapeChar(c) + rest) == Parsed(c, rest)
  {
    var n := c as int;
    if n >= 0x10000 {
      ReadSurrogatePair(c, rest);
    } else if EscapeChar(c) == UnicodeEscape(n) {
      ReadUnicodeEscape(c, rest);
    } else {
      var t := EscapeChar(c) + rest;
      assert t[|EscapeChar(c)|..] == rest;
    }
  }

  /** The escaped form of a string is a JSON string that denotes it, wherever it stands. */
  lemma {:induction false} ReadEscapedString(s: string, rest: string)
    ensures ReadString(StringThen(s, rest)) == Parsed(s, rest)
  {
    if s != [] {
      ReadEscapedChar(s[0], StringThen(s[1..], rest));
      ReadEscapedString(s[1..], rest);
      assert s == [s[0]] + s[1..];
      assert StringThen(s, rest)[0] != '"';
    }
  }

  // ---------------------------------------------------------------- values

  /** The compact text of `v`, with the members in the order given, and then `rest`. */
  function PrintThen(v: Json, rest: string): string
    decreases v, 1
  {
    match v
    case Null => "null" + rest
    case Bool(b) => (if b then "true" else "false") + rest
    case Number(lexeme) => lexeme + rest
    case Str(s) => "\"" + StringThen(s, rest)
    case Arr(items) => "[" + ItemsThen(items, "", rest)
    case Obj(members) => "{" + MembersThen(members, "", rest)
  }

  function ItemsThen(xs: seq<Json>, separator: string, rest: string): string
    decreases xs, 0
  {
    if xs == [] then "]" + rest
    else separator + PrintThen(xs[0], ItemsThen(xs[1..], ",", rest))
  }

  function MembersThen(ms: seq<Member>, separator: string, rest: string): string
    decreases ms, 0
  {
    if ms == [] then "}" + rest
    else separator + "\"" + StringThen(ms[0].key, ":" + PrintThen(ms[0].value, MembersThen(ms[1..], ",", rest)))
  }

  function CanonicalText(v: Json): string
    requires WellFormed(v)
  {
    StripWellFormed(v);
    PrintThen(Normalise(StripComments(v)), "")
  }

  // A value is followed by nothing, or by one of the characters that no number contains.
  predicate Delimited(rest: string) {
    rest == [] || rest[0] in ",]}"
  }

  /** The length of the longest run of number characters that `t` begins with. */
  function NumberRun(t: string): (n: nat)
    ensures n <= |t|
  {
    if t == [] || !NumberChar(t[0]) then 0 else 1 + NumberRun(t[1..])
  }

  lemma {:induction false} NumberRunLength(k: string, x: string)
    requires (forall i | 0 <= i < |k| :: NumberChar(k[i])) && Delimited(x)
    ensures NumberRun(k + x) == |k|
  {
    if k == [] {
      assert k + x == x;
    } else {
      assert (k + x)[1..] == k[1..] + x;
      NumberRunLength(k[1..], x);
    }
  }

  // ---------------------------------------------------------------- reading a value back

  /** A JSON value by sections 2 to 7 of RFC 8259, read from the head of a text that has no white space outside its
      strings; a number is the longest run of number characters. */
  function ReadValue(t: string): (r: Read<Json>)
    ensures r.Parsed? ==> |r.rest| < |t|
    decreases |t|, 3
  {
    if t == [] then NoParse
    else if t[0] == '"' then
      match ReadString(t[1..])
      case NoParse => NoParse
      case Parsed(s, rest) => Parsed(Str(s), rest)
    else if t[0] == '[' then
      var u := t[1..];
      if u != [] && u[0] == ']' then Parsed(Arr([]), u[1..])
      else
        match ReadItems(u)
        case NoParse => NoParse
        case Parsed(xs, rest) => Parsed(Arr(xs), rest)
    else if t[0] == '{' then
      var u := t[1..];
      if u != [] && u[0] == '}' then Parsed(Obj([]), u[1..])
      else
        match ReadMembers(u)
        case NoParse => NoParse
        case Parsed(ms, rest) => Parsed(Obj(ms), rest)
    else if "null" <= t then Parsed(Null, t[4..])
    else if "true" <= t then Parsed(Bool(true), t[4..])
    else if "false" <= t then Parsed(Bool(false), t[5..])
    else
      var n := NumberRun(t);
      if NumberLexeme(t[..n]) then Parsed(Number(t[..n]), t[n..]) else NoParse
  }

  // One value or more, separated by commas, and the closing bracket.
  function ReadItems(text: string): (r: Read<seq<Json>>)
    ensures r.Parsed? ==> |r.rest| < |text|
    decreases |text|, 4
  {
    match ReadValue(text)
    case NoParse => NoParse
    case Parsed(x, t) =>
      if t == [] then NoParse
      else if t[0] == ']' then Parsed([x], t[1..])
      else if t[0] != ',' then NoParse
      else
        match ReadItems(t[1..])
        case NoParse => NoParse
        case Parsed(xs, rest) => Parsed([x] + xs, rest)
  }

  // A key, a colon and a value.
  function ReadMember(t: string): (r: Read<Member>)
    ensures r.Parsed? ==> |r.rest| < |t|
    decreases |t|, 4
  {
    if t == [] || t[0] != '"' then NoParse
    else
      match ReadString(t[1..])
      case NoParse => NoParse
      case Parsed(key, u) =>
        if u == [] || u[0] != ':' then NoParse
        else
          match ReadValue(u[1..])
          case NoParse => NoParse
          case Parsed(value, rest) => Parsed(Member(key, value), rest)
  }

  // One member or more, separated by commas, and the closing brace.
  function ReadMembers(text: string): (r: Read<seq<Member>>)
    ensures r.Parsed? ==> |r.rest| < |text|
    decreases |text|, 5
  {
    match ReadMember(text)
    case NoParse => NoParse
    case Parsed(m, t) =>
      if t == [] then NoParse
      else if t[0] == '}' then Parsed([m], t[1..])
      else if t[0] != ',' then NoParse
      else
        match ReadMembers(t[1..])
        case NoParse => NoParse
        case Parsed(ms, rest) => Parsed([m] + ms, rest)
  }

  function FirstChar(v: Json): (c: char)
    requires WellFormed(v)
    ensures c !in ",]}"
  {
    match v
    case Null => 'n'
    case Bool(b) => if b then 't' else 'f'
    case Number(lexeme) => lexeme[0]
    case Str(_) => '"'
    case Arr(_) => '['
    case Obj(_) => '{'
  }

  lemma StartsWithFirstChar(v: Json, rest: string)
    requires WellFormed(v)
    ensures |PrintThen(v, rest)| > 0 && PrintThen(v, rest)[0] == FirstChar(v)
  {
  }

  lemma ReadLiteral(v: Json, rest: string)
    requires v.Null? || v.Bool?
    ensures ReadValue(PrintThen(v, rest)) == Parsed(v, rest)
  {
    var t := PrintThen(v, rest);
    var n := if v == Bool(false) then 5 else 4;
    assert t[n..] == rest;
  }

  lemma ReadNumber(lexeme: string, rest: string)
    requires NumberLexeme(lexeme) && Delimited(rest)
    ensures ReadValue(lexeme + rest) == Parsed(Number(lexeme), rest)
  {
    var t := lexeme + rest;
    NumberRunLength(lexeme, rest);
    assert t[0] == lexeme[0] && t[..|lexeme|] == lexeme && t[|lexeme|..] == rest;
  }

  lemma ReadText(s: string, rest: string)
    ensures ReadValue("\"" + StringThen(s, rest)) == Parsed(Str(s), rest)
  {
    hide StringThen, ReadString;
    assert ("\"" + StringThen(s, rest))[1..] == StringThen(s, rest);
    ReadEscapedString(s, rest);
  }

  lemma ReadArray(xs: seq<Json>, body: string, rest: string)
    requires if xs == [] then body == "]" + rest
             else body != "" && body[0] != ']' && ReadItems(body) == Parsed(xs, rest)
    ensures ReadValue("[" + body) == Parsed(Arr(xs), rest)
  {
    hide ReadItems;
    assert ("[" + body)[1..] == body;
    if xs == [] { assert body[1..] == rest; }
  }

  lemma ReadObject(ms: seq<Member>, body: string, rest: string)
    requires if ms == [] then body == "}" + rest
             else body != "" && body[0] == '"' && ReadMembers(body) == Parsed(ms, rest)
    ensures ReadValue("{" + body) == Parsed(Obj(ms), rest)
  {
    hide ReadMembers;
    assert ("{" + body)[1..] == body;
    if ms == [] { assert body[1..] == rest; }
  }

  /** Whatever value is printed, and whatever delimits it, a reader of JSON gets that value back and stops where
      it ends. */
  lemma {:induction false} ReadPrinted(v: Json, rest: string)
    requires WellFormed(v) && Delimited(rest)
    ensures ReadValue(PrintThen(v, rest)) == Parsed(v, rest)
    decreases v, 1
  {
    hide ReadValue, ReadItems, ReadMembers, StringThen;
    match v
    case Null => ReadLiteral(v, rest);
    case Bool(_) => ReadLiteral(v, rest);
    case Number(lexeme) => ReadNumber(lexeme, rest);
    case Str(s) => ReadText(s, rest);
    case Arr(xs) =>
      if xs != [] {
        StartsWithFirstChar(xs[0], ItemsThen(xs[1..], ",", rest));
        ReadPrintedItems(xs, rest);
      }
      ReadArray(xs, ItemsThen(xs, "", rest), rest);
    case Obj(ms) =>
      if ms != [] { ReadPrintedMembers(ms, rest); }
      ReadObject(ms, MembersThen(ms, "", rest), rest);
  }

  lemma LastItem(text: string, x: Json, rest: string)
    requires ReadValue(text) == Parsed(x, "]" + rest)
    ensures ReadItems(text) == Parsed([x], rest)
  {
    hide ReadValue;
    assert ("]" + rest)[1..] == rest;
  }

  lemma MoreItems(text: string, x: Json, after: string, xs: seq<Json>, rest: string)
    requires ReadValue(text) == Parsed(x, "," + after) && ReadItems(after) == Parsed(xs, rest)
    ensures ReadItems(text) == Parsed([x] + xs, rest)
  {
    hide ReadValue;
    assert ("," + after)[1..] == after;
  }

  lemma {:induction false} ReadPrintedItems(xs: seq<Json>, rest: string)
    requires xs != [] && forall x | x in xs :: WellFormed(x)
    ensures ReadItems(ItemsThen(xs, "", rest)) == Parsed(xs, rest)
    decreases xs, 0
  {
    hide ReadValue, ReadItems, PrintThen;
    var more := ItemsThen(xs[1..], ",", rest);
    var text := PrintThen(xs[0], more);
    assert ItemsThen(xs, "", rest) == text && xs == [xs[0]] + xs[1..];
    ReadPrinted(xs[0], more);
    if xs[1..] == [] {
      LastItem(text, xs[0], rest);
      assert xs == [xs[0]];
    } else {
      ReadPrintedItems(xs[1..], rest);
      MoreItems(text, xs[0], ItemsThen(xs[1..], "", rest), xs[1..], rest);
    }
  }

  lemma ReadPrintedMember(m: Member, rest: string)
    requires ReadValue(PrintThen(m.value, rest)) == Parsed(m.value, rest)
    ensures ReadMember("\"" + StringThen(m.key, ":" + PrintThen(m.value, rest))) == Parsed(m, rest)
  {
    hide ReadValue, PrintThen, StringThen, ReadString;
    var value := ":" + PrintThen(m.value, rest);
    var t := "\"" + StringThen(m.key, value);
    assert t[0] == '"' && t[1..] == StringThen(m.key, value) && value[1..] == PrintThen(m.value, rest);
    ReadEscapedString(m.key, value);
  }

  lemma LastMember(text: string, m: Member, rest: string)
    requires ReadMember(text) == Parsed(m, "}" + rest)
    ensures ReadMembers(text) == Parsed([m], rest)
  {
    hide ReadMember;
    assert ("}" + rest)[1..] == rest;
  }

  lemma MoreMembers(text: string, m: Member, after: string, ms: seq<Member>, rest: string)
    requires ReadMember(text) == Parsed(m, "," + after) && ReadMembers(after) == Parsed(ms, rest)
    ensures ReadMembers(text) == Parsed([m] + ms, rest)
  {
    hide ReadMember;
    assert ("," + after)[1..] == after;
  }

  lemma {:induction false} ReadPrintedMembers(ms: seq<Member>, rest: string)
    requires ms != [] && forall m | m in ms :: WellFormed(m.value)
    ensures ReadMembers(MembersThen(ms, "", rest)) == Parsed(ms, rest)
    decreases ms, 0
  {
    hide ReadMember, ReadMembers, ReadValue, PrintThen, StringThen;
    var more := MembersThen(ms[1..], ",", rest);
    var text := "\"" + StringThen(ms[0].key, ":" + PrintThen(ms[0].value, more));
    assert MembersThen(ms, "", rest) == text && ms == [ms[0]] + ms[1..];
    ReadPrinted(ms[0].value, more);
    ReadPrintedMember(ms[0], more);
    if ms[1..] == [] {
      LastMember(text, ms[0], rest);
      assert ms == [ms[0]];
    } else {
      ReadPrintedMembers(ms[1..], rest);
      MembersAfterComma(ms[1..], rest);
      MoreMembers(text, ms[0], MembersThen(ms[1..], "", rest), ms[1..], rest);
    }
  }

  lemma MembersAfterComma(ms: seq<Member>, rest: string)
    requires ms != []
    ensures MembersThen(ms, ",", rest) == "," + MembersThen(ms, "", rest)
  {
    hide PrintThen, StringThen;
  }

  /** No text is the beginning of the texts of two different values. */
  lemma PrintUnambiguous(a: Json, b: Json, x: string, y: string)
    requires WellFormed(a) && WellFormed(b) && Delimited(x) && Delimited(y)
    requires PrintThen(a, x) == PrintThen(b, y)
    ensures a == b && x == y
  {
    ReadPrinted(a, x);
    ReadPrinted(b, y);
  }

  lemma {:induction false} NormaliseWellFormed(v: Json)
    requires WellFormed(v)
    ensures WellFormed(Normalise(v))
  {
    match v
    case Arr(items) =>
      forall i | 0 <= i < |items| ensures WellFormed(Normalise(items[i])) { NormaliseWellFormed(items[i]); }
    case Obj(members) =>
      var ns := NormaliseMembers(members);
      forall m | m in SortMembers(ns) ensures WellFormed(m.value) {
        var i :| 0 <= i < |ns| && ns[i] == m;
        NormaliseWellFormed(members[i].value);
      }
      SortedHasUniqueKeys(SortMembers(ns));
    case _ =>
  }

  lemma SortedHasUniqueKeys(ms: seq<Member>)
    requires SortedByKey(ms)
    ensures UniqueKeys(ms)
  {
    forall i, j | 0 <= i < j < |ms| ensures ms[i].key != ms[j].key { KeyLessTotal(ms[i].key, ms[j].key); }
  }

  /** Canonical text, read as JSON, is the comment-free value up to the order of members; and the members of every
      object in it ascend by their keys. */
  lemma CanonicalReads(v: Json)
    requires WellFormed(v)
    ensures var r := ReadValue(CanonicalText(v));
            && r.Parsed? && r.rest == "" && WellFormed(r.value)
            && Same(r.value, StripComments(v)) && Ascending(r.value)
  {
    StripWellFormed(v);
    var w := StripComments(v);
    NormaliseWellFormed(w);
    NormaliseAscends(w);
    ReadPrinted(Normalise(w), "");
    NormaliseTwice(w);
    NormaliseSame(Normalise(w), w);
    hide ReadValue, Ascending, Same, Normalise, StripComments, WellFormed;
  }

  lemma {:induction false} NormaliseTwice(v: Json)
    requires WellFormed(v) && WellFormed(Normalise(v))
    ensures Normalise(Normalise(v)) == Normalise(v)
  {
    match v
    case Arr(items) =>
      var xs := NormaliseItems(items);
      assert forall i | 0 <= i < |xs| :: xs[i] in xs;
      forall i | 0 <= i < |items| ensures Normalise(xs[i]) == xs[i] { NormaliseTwice(items[i]); }
      assert NormaliseItems(xs) == xs;
    case Obj(members) =>
      var ns := NormaliseMembers(members);
      var ms := SortMembers(ns);
      forall i | 0 <= i < |ms| ensures Normalise(ms[i].value) == ms[i].value {
        assert ms[i] in ns;
        var k :| 0 <= k < |ns| && ns[k] == ms[i];
        NormaliseTwice(members[k].value);
      }
      assert NormaliseMembers(ms) == ms;
      SortedUnique(SortMembers(ms), ms);
    case _ =>
  }

  /** The canonical form is injective: two values print alike exactly when they are the same value
      after comments are dropped, up to the order of members. */
  lemma CanonicalInjective(a: Json, b: Json)
    requires WellFormed(a) && WellFormed(b)
    ensures CanonicalText(a) == CanonicalText(b) <==> Same(StripComments(a), StripComments(b))
  {
    StripWellFormed(a);
    StripWellFormed(b);
    var p, q := Normalise(StripComments(a)), Normalise(StripComments(b));
    NormaliseSame(StripComments(a), StripComments(b));
    NormaliseWellFormed(StripComments(a));
    NormaliseWellFormed(StripComments(b));
    if CanonicalText(a) == CanonicalText(b) { PrintUnambiguous(p, q, "", ""); }
  }

  // ---------------------------------------------------------------- the text is ASCII

  ghost predicate Printable(t: string) {
    forall i | 0 <= i < |t| :: 0x20 <= t[i] as int <= 0x7E
  }

  lemma UnicodeEscapePrintable(unit: nat)
    requires unit < 0x10000
    ensures Printable(UnicodeEscape(unit))
  {
    HexDigitPrintable(unit / 4096);
    HexDigitPrintable(unit / 256 % 16);
    HexDigitPrintable(unit / 16 % 16);
    HexDigitPrintable(unit % 16);
  }

  lemma HexDigitPrintable(d: nat)
    requires d < 16
    ensures 0x20 <= HexDigit(d) as int <= 0x7E
  {
  }

  lemma EscapePrintable(c: char)
    ensures Printable(EscapeChar(c))
  {
    var n := c as int;
    if n >= 0x10000 {
      UnicodeEscapePrintable(0xD800 + (n - 0x10000) / 0x400);
      UnicodeEscapePrintable(0xDC00 + (n - 0x10000) % 0x400);
    } else if EscapeChar(c) == UnicodeEscape(n) {
      UnicodeEscapePrintable(n);
    }
  }

  // An escape written with small hexadecimal digits.
  predicate SmallDigits(s: string) {
    |s| > 2 ==> forall i | 0 <= i < |s| :: s[i] !in "ABCDEF"
  }

  lemma UnitHasOneEscape(t: string, unit: nat)
    requires |t| == 6 && ReadUnit(t) == Some(unit) && forall i | 0 <= i < 6 :: t[i] !in "ABCDEF"
    ensures unit < 0x10000 && t == UnicodeEscape(unit)
  {
    var a, b, c, d := HexValue(t[2]).value, HexValue(t[3]).value, HexValue(t[4]).value, HexValue(t[5]).value;
    DigitIsHex(t[2], a);
    DigitIsHex(t[3], b);
    DigitIsHex(t[4], c);
    DigitIsHex(t[5], d);
    SplitsDigits(a, b, c, d);
    assert unit == 4096 * a + 256 * b + 16 * c + d;
    assert t == ['\\', 'u', t[2], t[3], t[4], t[5]];
  }

  lemma DigitIsHex(c: char, d: nat)
    requires HexValue(c) == Some(d) && c !in "ABCDEF"
    ensures d < 16 && c == HexDigit(d)
  {
  }

  lemma SplitsDigits(a: nat, b: nat, c: nat, d: nat)
    requires a < 16 && b < 16 && c < 16 && d < 16
    ensures var n := 4096 * a + 256 * b + 16 * c + d;
            n < 0x10000 && n / 4096 == a && n / 256 % 16 == b && n / 16 % 16 == c && n % 16 == d
  {
    var n := 4096 * a + 256 * b + 16 * c + d;
    LastDigit(256 * a + 16 * b + c, d);
    LastDigit(16 * a + b, c);
    LastDigit(a, b);
    NextDigit(n, 16);
    NextDigit(n, 256);
  }

  lemma LastDigit(n: nat, d: nat)
    requires d < 16
    ensures (16 * n + d) / 16 == n && (16 * n + d) % 16 == d
  {
  }

  /** Of the printable ASCII texts that a reader takes for a character, its escaped form is the shortest, and among
      the shortest the one with small hexadecimal digits. */
  lemma EscapeIsShortest(c: char, s: string)
    requires Printable(s) && ReadChar(s) == Parsed(c, "")
    ensures |EscapeChar(c)| <= |s|
    ensures |EscapeChar(c)| == |s| && SmallDigits(s) ==> s == EscapeChar(c)
  {
    if s[0] != '\\' {
      assert s == [s[0]] + s[1..];
    } else if s[1] != 'u' {
      assert s == ['\\', s[1]] + s[2..];
    } else {
      UnicodeIsShortest(c, s);
    }
  }

  lemma PairIs(hi: nat, lo: nat)
    requires 0xD800 <= hi < 0xDC00 <= lo < 0xE000
    ensures var c := (0x10000 + (hi - 0xD800) * 0x400 + (lo - 0xDC00)) as char;
            EscapeChar(c) == UnicodeEscape(hi) + UnicodeEscape(lo)
  {
    var n := (hi - 0xD800) * 0x400 + (lo - 0xDC00);
    assert HighSurrogate(n) == hi && LowSurrogate(n) == lo;
    hide UnicodeEscape, HighSurrogate, LowSurrogate;
  }

  lemma UnitIs(c: char)
    requires c as int < 0x10000
    ensures |EscapeChar(c)| < 6 || EscapeChar(c) == UnicodeEscape(c as int)
  {
    hide UnicodeEscape;
  }

  // What a text that begins with a `\u` escape has to be.
  lemma EscapedUnits(c: char, s: string)
    requires ReadChar(s) == Parsed(c, "") && s[0] == '\\' && s[1] == 'u'
    ensures |s| == 6 || |s| == 12
    ensures ReadUnit(s).Some? && (|s| == 6 ==> c as int == ReadUnit(s).value)
    ensures |s| == 12 ==>
              && ReadUnit(s[6..]).Some? && 0xD800 <= ReadUnit(s).value < 0xDC00 <= ReadUnit(s[6..]).value < 0xE000
              && c as int == 0x10000 + (ReadUnit(s).value - 0xD800) * 0x400 + (ReadUnit(s[6..]).value - 0xDC00)
  {
    hide ReadUnit;
  }

  lemma UnicodeIsShortest(c: char, s: string)
    requires Printable(s) && ReadChar(s) == Parsed(c, "") && s[0] == '\\' && s[1] == 'u'
    ensures |EscapeChar(c)| <= |s|
    ensures |EscapeChar(c)| == |s| && SmallDigits(s) ==> s == EscapeChar(c)
  {
    EscapedUnits(c, s);
    hide ReadChar, EscapeChar;
    if |s| == 6 {
      UnitIs(c);
      if SmallDigits(s) { UnitHasOneEscape(s, c as int); }
    } else {
      PairEscape(c, s, s[..6], s[6..]);
    }
  }

  lemma PairEscape(c: char, s: string, first: string, second: string)
    requires |first| == |second| == 6 && s == first + second && ReadUnit(s).Some? && ReadUnit(second).Some?
    requires 0xD800 <= ReadUnit(s).value < 0xDC00 <= ReadUnit(second).value < 0xE000
    requires c as int == 0x10000 + (ReadUnit(s).value - 0xD800) * 0x400 + (ReadUnit(second).value - 0xDC00)
    ensures |EscapeChar(c)| <= |s| && (SmallDigits(s) ==> s == EscapeChar(c))
  {
    var hi, lo := ReadUnit(s).value, ReadUnit(second).value;
    hide EscapeChar, ReadUnit, UnicodeEscape, SmallDigits;
    PairIs(hi, lo);
    UnitOfFirst(s, first, second);
    UnicodeEscapeLength(hi);
    UnicodeEscapeLength(lo);
    if SmallDigits(s) {
      SmallHalves(s, first, second);
      UnitHasOneEscape(first, hi);
      UnitHasOneEscape(second, lo);
    }
  }

  lemma UnicodeEscapeLength(unit: nat)
    requires unit < 0x10000
    ensures |UnicodeEscape(unit)| == 6
  {
  }

  lemma UnitOfFirst(s: string, first: string, second: string)
    requires |first| == |second| == 6 && s == first + second
    ensures ReadUnit(first) == ReadUnit(s)
  {
    hide HexValue;
  }

  lemma SmallHalves(s: string, first: string, second: string)
    requires |first| == |second| == 6 && s == first + second && SmallDigits(s)
    ensures forall i | 0 <= i < 6 :: first[i] !in "ABCDEF" && second[i] !in "ABCDEF"
  {
    forall i | 0 <= i < 6 ensures first[i] !in "ABCDEF" && second[i] !in "ABCDEF" {
      assert first[i] == s[i] && second[i] == s[i + 6];
    }
  }

  lemma {:induction false} StringThenPrintable(s: string, rest: string)
    requires Printable(rest)
    ensures Printable(StringThen(s, rest))
  {
    if s != [] {
      StringThenPrintable(s[1..], rest);
      EscapePrintable(s[0]);
    }
  }

  lemma {:induction false} PrintPrintable(v: Json, rest: string)
    requires WellFormed(v) && Printable(rest)
    ensures Printable(PrintThen(v, rest))
    decreases v, 1
  {
    match v
    case Number(lexeme) => assert forall i | 0 <= i < |lexeme| :: NumberChar(lexeme[i]);
    case Str(s) => StringThenPrintable(s, rest);
    case Arr(items) => ItemsPrintable(items, "", rest);
    case Obj(members) => MembersPrintable(members, "", rest);
    case _ =>
  }

  lemma {:induction false} ItemsPrintable(xs: seq<Json>, separator: string, rest: string)
    requires (forall x | x in xs :: WellFormed(x)) && Printable(separator) && Printable(rest)
    ensures Printable(ItemsThen(xs, separator, rest))
    decreases xs, 0
  {
    if xs != [] {
      ItemsPrintable(xs[1..], ",", rest);
      PrintPrintable(xs[0], ItemsThen(xs[1..], ",", rest));
    }
  }

  lemma {:induction false} MembersPrintable(ms: seq<Member>, separator: string, rest: string)
    requires (forall m | m in ms :: WellFormed(m.value)) && Printable(separator) && Printable(rest)
    ensures Printable(MembersThen(ms, separator, rest))
    decreases ms, 0
  {
    if ms != [] {
      MembersPrintable(ms[1..], ",", rest);
      PrintPrintable(ms[0].value, MembersThen(ms[1..], ",", rest));
      var value := PrintThen(ms[0].value, MembersThen(ms[1..], ",", rest));
      assert Printable(":" + value);
      StringThenPrintable(ms[0].key, ":" + value);
    }
  }

  /** Canonical text is printable ASCII without line breaks: its UTF-8 bytes are its characters, and
      a hash never depends on an encoding. */
  lemma CanonicalPrintable(v: Json)
    requires WellFormed(v)
    ensures Printable(CanonicalText(v))
  {
    StripWellFormed(v);
    NormaliseWellFormed(StripComments(v));
    PrintPrintable(Normalise(StripComments(v)), "");
  }
}
