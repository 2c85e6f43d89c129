/**
 * JSON text (RFC 8259) as Python's `json.dumps` writes it with `ensure_ascii` and `json.loads` reads it.
 * Python strings are sequences of code points and may hold lone surrogates, so text is a sequence of code points.
 */
module JsonText {
  import opened Collections
  import opened Ordering
  import opened Base64Url

  datatype Json =
    | Null
    | Bool(b: bool)
    | Int(n: int)
    | Float
    | Text(text: Str)
    | List(items: seq<Json>)
    | Dict(members: seq<Member>)

  datatype Member = Member(key: Str, value: Json)

  datatype Parsed<+T> = Parsed(value: T, rest: Str)

  // ----- writing -----

  function HexDigit(v: nat): CodePoint
    requires v < 16
  {
    if v < 10 then 48 + v else 87 + v
  }

  function Hex(c: nat): Str
    requires c < 0x10000
  {
    [HexDigit(c / 4096), HexDigit(c / 256 % 16), HexDigit(c / 16 % 16), HexDigit(c % 16)]
  }

  function UnicodeEscape(c: nat): Str
    requires c < 0x10000
  {
    [92, 117] + Hex(c)
  }

  function HighHalf(c: CodePoint): (h: nat)
    requires c >= 0x10000
    ensures 0xD800 <= h < 0xDC00
  {
    0xD800 + (c - 0x10000) / 1024
  }

  function LowHalf(c: CodePoint): (l: nat)
    requires c >= 0x10000
    ensures 0xDC00 <= l < 0xE000
  {
    0xDC00 + (c - 0x10000) % 1024
  }

  function Escape(c: CodePoint): Str {
    if c == 34 || c == 92 then [92, c]
    else if c == 10 then [92, 110]
    else if c == 13 then [92, 114]
    else if c == 9 then [92, 116]
    else if c == 12 then [92, 102]
    else if c == 8 then [92, 98]
    else if 32 <= c < 127 then [c]
    else if c < 0x10000 then UnicodeEscape(c)
    else UnicodeEscape(HighHalf(c)) + UnicodeEscape(LowHalf(c))
  }

  function EscapeAll(s: Str): Str {
    if s == [] then [] else Escape(s[0]) + EscapeAll(s[1..])
  }

  function Digits(n: nat): Str {
    if n < 10 then [48 + n] else Digits(n / 10) + [48 + n % 10]
  }

  datatype Scalar = Count(n: nat) | Label(s: Str)

  function WriteScalar(v: Scalar): Str {
    match v
    case Count(n) => Digits(n)
    case Label(s) => [34] + (EscapeAll(s) + [34])
  }

  datatype Entry = Entry(key: Str, value: Scalar)

  /** The key, a colon, the value. */
  function WriteEntry(e: Entry): Str {
    [34] + (EscapeAll(e.key) + ([34] + ([58] + WriteScalar(e.value))))
  }

  /** The entries, separated by commas. */
  function WriteEntries(entries: seq<Entry>): Str
    requires entries != []
  {
    if |entries| == 1 then WriteEntry(entries[0]) else WriteEntry(entries[0]) + ([44] + WriteEntries(entries[1..]))
  }

  function WriteDict(entries: seq<Entry>): Str
    requires entries != []
  {
    [123] + (WriteEntries(entries) + [125])
  }

  // ----- reading -----

  predicate IsHigh(c: nat) {
    0xD800 <= c < 0xDC00
  }

  predicate IsLow(c: nat) {
    0xDC00 <= c < 0xE000
  }

  function Join(h: nat, l: nat): CodePoint
    requires IsHigh(h) && IsLow(l)
  {
    0x10000 + (h - 0xD800) * 1024 + (l - 0xDC00)
  }

  function HexValue(c: CodePoint): Option<nat> {
    if 48 <= c <= 57 then Some(c - 48)
    else if 97 <= c <= 102 then Some(c - 87)
    else if 65 <= c <= 70 then Some(c - 55)
    else None
  }

  function ReadHex(s: Str): (r: Option<nat>)
    ensures r.Some? ==> r.value < 0x10000 && |s| >= 4
  {
    if |s| < 4 then None
    else
      match (HexValue(s[0]), HexValue(s[1]), HexValue(s[2]), HexValue(s[3]))
      case (Some(a), Some(b), Some(c), Some(d)) =>
        if a < 16 && b < 16 && c < 16 && d < 16 then Some(a * 4096 + b * 256 + c * 16 + d) else None
      case _ => None
  }

  function Unescape(c: CodePoint): Option<CodePoint> {
    if c == 34 || c == 92 || c == 47 then Some(c)
    else if c == 98 then Some(8)
    else if c == 102 then Some(12)
    else if c == 110 then Some(10)
    else if c == 114 then Some(13)
    else if c == 116 then Some(9)
    else None
  }

  /** The UTF-16 unit of an escape `\uXXXX` at the head of the text. */
  function ReadUnit(s: Str): (r: Option<nat>)
    ensures r.Some? ==> r.value < 0x10000 && |s| >= 6
  {
    if |s| >= 6 && s[0] == 92 && s[1] == 117 then ReadHex(s[2..]) else None
  }

  function Cons(c: CodePoint, r: Option<Parsed<Str>>): (q: Option<Parsed<Str>>)
    ensures q.Some? <==> r.Some?
    ensures q.Some? ==> q.value.rest == r.value.rest
  {
    if r.Some? then Some(Parsed([c] + r.value.value, r.value.rest)) else None
  }

  /** The rest of a string literal, after its opening quote; an escaped surrogate pair is joined. */
  function ReadString(s: Str): (r: Option<Parsed<Str>>)
    ensures r.Some? ==> |r.value.rest| < |s|
    decreases |s|
  {
    if s == [] then None
    else if s[0] == 34 then Some(Parsed([], s[1..]))
    else if s[0] == 92 then
      if |s| < 2 then None
      else if s[1] != 117 then
        match Unescape(s[1])
        case Some(c) => Cons(c, ReadString(s[2..]))
        case None => None
      else
        match ReadUnit(s)
        case None => None
        case Some(u) =>
          var next := ReadUnit(s[6..]);
          if IsHigh(u) && next.Some? && IsLow(next.value) then Cons(Join(u, next.value), ReadString(s[12..]))
          else Cons(u, ReadString(s[6..]))
    else if s[0] < 32 then None
    else Cons(s[0], ReadString(s[1..]))
  }

  predicate IsDigit(c: CodePoint) {
    48 <= c <= 57
  }

  function DigitRun(s: Str): (n: nat)
    ensures n <= |s| && forall i :: 0 <= i < n ==> IsDigit(s[i])
  {
    if s != [] && IsDigit(s[0]) then 1 + DigitRun(s[1..]) else 0
  }

  function Decimal(run: Str): nat
    requires forall i :: 0 <= i < |run| ==> IsDigit(run[i])
  {
    if run == [] then 0
    else
      var last := run[|run| - 1];
      assert IsDigit(last);
      Decimal(run[..|run| - 1]) * 10 + (last - 48)
  }

  /** How many characters an optional fraction and an optional exponent take. */
  function FractionLength(s: Str): (n: nat)
    ensures n <= |s|
  {
    if |s| >= 2 && s[0] == 46 && IsDigit(s[1]) then 1 + DigitRun(s[1..]) else 0
  }

  function ExponentLength(s: Str): (n: nat)
    ensures n <= |s|
  {
    if |s| >= 2 && (s[0] == 101 || s[0] == 69) then
      var sign := if s[1] == 43 || s[1] == 45 then 2 else 1;
      if DigitRun(s[sign..]) > 0 then sign + DigitRun(s[sign..]) else 0
    else 0
  }

  function ReadNumber(s: Str): (r: Option<Parsed<Json>>)
    ensures r.Some? ==> |r.value.rest| < |s|
  {
    var start := if s != [] && s[0] == 45 then 1 else 0;
    var length := if DigitRun(s[start..]) > 0 && s[start] == 48 then 1 else DigitRun(s[start..]);
    if length == 0 then None
    else
      var magnitude: int := Decimal(s[start..start + length]);
      var rest := s[start + length..];
      var fraction := FractionLength(rest);
      var exponent := ExponentLength(rest[fraction..]);
      if fraction + exponent > 0 then Some(Parsed(Float, rest[fraction + exponent..]))
      else Some(Parsed(Int(if start == 1 then -magnitude else magnitude), rest))
  }

  function SkipSpace(s: Str): (r: Str)
    ensures |r| <= |s|
  {
    if s != [] && (s[0] == 32 || s[0] == 9 || s[0] == 10 || s[0] == 13) then SkipSpace(s[1..]) else s
  }

  function Literal(s: Str, word: Str, v: Json): (r: Option<Parsed<Json>>)
    requires word != []
    ensures r.Some? ==> |r.value.rest| < |s|
  {
    if word <= s then Some(Parsed(v, s[|word|..])) else None
  }

  /** null, true, false, NaN, Infinity and -Infinity */
  function ReadWord(s: Str): (r: Option<Parsed<Json>>)
    ensures r.Some? ==> |r.value.rest| < |s|
  {
    if s == [] then None
    else if s[0] == 110 then Literal(s, [110, 117, 108, 108], Null)
    else if s[0] == 116 then Literal(s, [116, 114, 117, 101], Bool(true))
    else if s[0] == 102 then Literal(s, [102, 97, 108, 115, 101], Bool(false))
    else if s[0] == 78 then Literal(s, [78, 97, 78], Float)
    else if s[0] == 73 then Literal(s, [73, 110, 102, 105, 110, 105, 116, 121], Float)
    else Literal(s, [45, 73, 110, 102, 105, 110, 105, 116, 121], Float)
  }

  function ReadValue(s: Str): (r: Option<Parsed<Json>>)
    ensures r.Some? ==> |r.value.rest| < |s|
    decreases |s|, 0
  {
    if s == [] then None
    else if s[0] == 34 then
      match ReadString(s[1..])
      case Some(p) => Some(Parsed(Text(p.value), p.rest))
      case None => None
    else if s[0] == 123 then
      var t := SkipSpace(s[1..]);
      if t != [] && t[0] == 125 then Some(Parsed(Dict([]), t[1..]))
      else
        match ReadMembers(t)
        case Some(p) => Some(Parsed(Dict(p.value), p.rest))
        case None => None
    else if s[0] == 91 then
      var t := SkipSpace(s[1..]);
      if t != [] && t[0] == 93 then Some(Parsed(List([]), t[1..]))
      else
        match ReadItems(t)
        case Some(p) => Some(Parsed(List(p.value), p.rest))
        case None => None
    else if s[0] == 45 || IsDigit(s[0]) then
      var number := ReadNumber(s);
      if number.Some? then number else ReadWord(s)
    else ReadWord(s)
  }

  function ReadItems(s: Str): (r: Option<Parsed<seq<Json>>>)
    ensures r.Some? ==> |r.value.rest| < |s|
    decreases |s|, 1
  {
    match ReadValue(s)
    case None => None
    case Some(p) =>
      var t := SkipSpace(p.rest);
      if t == [] then None
      else if t[0] == 93 then Some(Parsed([p.value], t[1..]))
      else if t[0] != 44 then None
      else
        match ReadItems(SkipSpace(t[1..]))
        case Some(q) => Some(Parsed([p.value] + q.value, q.rest))
        case None => None
  }

  /** A member's key and the colon after it. */
  function ReadKey(s: Str): (r: Option<Parsed<Str>>)
    ensures r.Some? ==> |r.value.rest| < |s|
  {
    if s == [] || s[0] != 34 then None
    else
      match ReadString(s[1..])
      case None => None
      case Some(p) =>
        var t := SkipSpace(p.rest);
        if t == [] || t[0] != 58 then None else Some(Parsed(p.value, SkipSpace(t[1..])))
  }

  function ReadMembers(s: Str): (r: Option<Parsed<seq<Member>>>)
    ensures r.Some? ==> |r.value.rest| < |s|
    decreases |s|, 1
  {
    match ReadKey(s)
    case None => None
    case Some(k) =>
      match ReadValue(k.rest)
      case None => None
      case Some(p) =>
        var member := Member(k.value, p.value);
        var t := SkipSpace(p.rest);
        if t == [] then None
        else if t[0] == 125 then Some(Parsed([member], t[1..]))
        else if t[0] != 44 then None
        else
          match ReadMembers(SkipSpace(t[1..]))
          case Some(q) => Some(Parsed([member] + q.value, q.rest))
          case None => None
  }

  /** `json.loads`: one value and nothing but white space around it. */
  function Loads(s: Str): Option<Json> {
    match ReadValue(SkipSpace(s))
    case Some(p) => if SkipSpace(p.rest) == [] then Some(p.value) else None
    case None => None
  }

  // ----- what a round trip does to a string -----

  /** Adjacent high and low surrogates come back as the one character they encode. */
  function Joined(s: Str): (j: Str)
    ensures |j| <= |s|
  {
    if s == [] then []
    else if |s| >= 2 && IsHigh(s[0]) && IsLow(s[1]) then [Join(s[0], s[1])] + Joined(s[2..])
    else [s[0]] + Joined(s[1..])
  }

  predicate HasSplitPair(s: Str) {
    exists i :: 0 <= i < |s| - 1 && IsHigh(s[i]) && IsLow(s[i + 1])
  }

  lemma {:induction false} JoinedIff(s: Str)
    ensures Joined(s) == s <==> !HasSplitPair(s)
  {
    if s != [] {
      if |s| >= 2 && IsHigh(s[0]) && IsLow(s[1]) {
        assert |Joined(s)| < |s|;
      } else {
        JoinedIff(s[1..]);
        assert s == [s[0]] + s[1..];
        assert Joined(s) == s <==> Joined(s[1..]) == s[1..];
        if HasSplitPair(s[1..]) {
          var i :| 0 <= i < |s[1..]| - 1 && IsHigh(s[1..][i]) && IsLow(s[1..][i + 1]);
          assert IsHigh(s[i + 1]) && IsLow(s[i + 1 + 1]);
        }
        if HasSplitPair(s) {
          var i :| 0 <= i < |s| - 1 && IsHigh(s[i]) && IsLow(s[i + 1]);
          assert i > 0 && IsHigh(s[1..][i - 1]) && IsLow(s[1..][i - 1 + 1]);
        }
      }
    }
  }

  lemma HexGroups(c: nat)
    requires c < 0x10000
    ensures c / 4096 < 16 && c / 4096 * 4096 + c / 256 % 16 * 256 + c / 16 % 16 * 16 + c % 16 == c
  {
    HexGroup(c);
    HexGroup(c / 16);
    HexGroup(c / 256);
  }

  lemma HexGroup(c: nat)
    ensures c == c / 16 * 16 + c % 16 && c / 16 / 16 == c / 256 && c / 256 / 16 == c / 4096
  {
  }

  lemma ReadFour(a: nat, b: nat, c: nat, d: nat, s: Str)
    requires a < 16 && b < 16 && c < 16 && d < 16
    ensures ReadHex([HexDigit(a), HexDigit(b), HexDigit(c), HexDigit(d)] + s) == Some(a * 4096 + b * 256 + c * 16 + d)
  {
  }

  lemma HexRoundTrip(c: nat, s: Str)
    requires c < 0x10000
    ensures ReadUnit(UnicodeEscape(c) + s) == Some(c)
    ensures (UnicodeEscape(c) + s)[6..] == s
  {
    ReadFour(c / 4096, c / 256 % 16, c / 16 % 16, c % 16, s);
    HexGroups(c);
    assert (UnicodeEscape(c) + s)[2..] == Hex(c) + s;
  }

  lemma HalvesJoin(c: CodePoint)
    requires c >= 0x10000
    ensures Join(HighHalf(c), LowHalf(c)) == c
  {
  }

  lemma ReadAstral(c: CodePoint, s: Str)
    requires c >= 0x10000
    ensures ReadString(Escape(c) + s) == Cons(c, ReadString(s))
  {
    var low := UnicodeEscape(LowHalf(c)) + s;
    Associate(UnicodeEscape(HighHalf(c)), UnicodeEscape(LowHalf(c)), s);
    HexRoundTrip(HighHalf(c), low);
    HexRoundTrip(LowHalf(c), s);
    HalvesJoin(c);
    assert (Escape(c) + s)[12..] == s;
  }

  lemma ReadShort(c: CodePoint, s: Str)
    requires |Escape(c)| < 6
    ensures ReadString(Escape(c) + s) == Cons(c, ReadString(s))
  {
  }

  /** An escaped character that is not a high surrogate is read back alone. */
  lemma ReadEscaped(c: CodePoint, s: Str)
    requires !IsHigh(c)
    ensures ReadString(Escape(c) + s) == Cons(c, ReadString(s))
  {
    if c >= 0x10000 {
      ReadAstral(c, s);
    } else if |Escape(c)| == 6 {
      HexRoundTrip(c, s);
    } else {
      ReadShort(c, s);
    }
  }

  /** What follows an escaped high surrogate decides whether it is joined. */
  lemma ReadEscapedHigh(c: CodePoint, s: Str)
    requires IsHigh(c)
    ensures ReadString(Escape(c) + s) ==
      if ReadUnit(s).Some? && IsLow(ReadUnit(s).value) then Cons(Join(c, ReadUnit(s).value), ReadString(s[6..]))
      else Cons(c, ReadString(s))
  {
    HexRoundTrip(c, s);
    if |s| >= 6 {
      assert (Escape(c) + s)[12..] == s[6..];
    }
  }

  /** The first unit of an escaped character: itself, its high half, or none when it is not a `\u` escape. */
  lemma FirstUnit(c: CodePoint, tail: Str)
    ensures ReadUnit(Escape(c) + tail) ==
      if c >= 0x10000 then Some(HighHalf(c)) else if |Escape(c)| == 6 then Some(c) else None
    ensures IsLow(c) ==> |Escape(c)| == 6 && (Escape(c) + tail)[6..] == tail
  {
    var t := Escape(c) + tail;
    if c >= 0x10000 {
      var low := UnicodeEscape(LowHalf(c)) + tail;
      assert t == UnicodeEscape(HighHalf(c)) + low;
      HexRoundTrip(HighHalf(c), low);
    } else if |Escape(c)| == 6 {
      HexRoundTrip(c, tail);
    } else {
      assert t[0] == Escape(c)[0];
      if |Escape(c)| == 2 {
        assert t[1] == Escape(c)[1];
      }
    }
  }

  /** After a character, the next unit is a low surrogate exactly when the next character is one. */
  lemma NextUnit(s: Str, rest: Str)
    ensures var t := EscapeAll(s) + ([34] + rest);
      (ReadUnit(t).Some? && IsLow(ReadUnit(t).value)) <==> (s != [] && IsLow(s[0]))
    ensures s != [] && IsLow(s[0]) ==>
      ReadUnit(EscapeAll(s) + ([34] + rest)) == Some(s[0])
      && (EscapeAll(s) + ([34] + rest))[6..] == EscapeAll(s[1..]) + ([34] + rest)
  {
    if s == [] {
      assert (EscapeAll(s) + ([34] + rest))[0] == 34;
    } else {
      var tail := EscapeAll(s[1..]) + ([34] + rest);
      Associate(Escape(s[0]), EscapeAll(s[1..]), [34] + rest);
      FirstUnit(s[0], tail);
    }
  }

  /** Reading a written string literal gives the string with its surrogate pairs joined. */
  lemma {:induction false} StringRoundTrip(s: Str, rest: Str)
    ensures ReadString(EscapeAll(s) + ([34] + rest)) == Some(Parsed(Joined(s), rest))
    decreases |s|
  {
    var t := EscapeAll(s) + ([34] + rest);
    if s == [] {
      assert t == [34] + rest;
    } else {
      var tail := EscapeAll(s[1..]) + ([34] + rest);
      assert t == Escape(s[0]) + tail;
      StringRoundTrip(s[1..], rest);
      if IsHigh(s[0]) {
        NextUnit(s[1..], rest);
        ReadEscapedHigh(s[0], tail);
        if |s| >= 2 && IsLow(s[1]) {
          StringRoundTrip(s[2..], rest);
          assert s[1..][1..] == s[2..];
        }
      } else {
        ReadEscaped(s[0], tail);
      }
    }
  }

  // ----- numbers -----

  lemma {:induction false} DigitsAreDigits(n: nat)
    ensures Digits(n) != [] && forall i :: 0 <= i < |Digits(n)| ==> IsDigit(Digits(n)[i])
    ensures Digits(n)[0] == 48 ==> n == 0
    ensures n == 0 ==> |Digits(n)| == 1
    ensures Decimal(Digits(n)) == n
  {
    if n >= 10 {
      DigitsAreDigits(n / 10);
      var d := Digits(n);
      assert d[..|d| - 1] == Digits(n / 10);
    }
  }

  lemma {:induction false} RunOfDigits(run: Str, rest: Str)
    requires forall i :: 0 <= i < |run| ==> IsDigit(run[i])
    requires rest == [] || !IsDigit(rest[0])
    ensures DigitRun(run + rest) == |run|
  {
    if run == [] {
      assert run + rest == rest;
    } else {
      assert (run + rest)[1..] == run[1..] + rest;
      RunOfDigits(run[1..], rest);
    }
  }

  predicate EndsValue(rest: Str) {
    rest != [] && (rest[0] == 44 || rest[0] == 125)
  }

  lemma NoFraction(rest: Str)
    requires EndsValue(rest)
    ensures FractionLength(rest) == 0 && ExponentLength(rest[0..]) == 0 && rest[0..] == rest
  {
  }

  lemma ReadRun(run: Str, rest: Str)
    requires run != [] && EndsValue(rest) && forall i :: 0 <= i < |run| ==> IsDigit(run[i])
    requires run[0] == 48 ==> |run| == 1
    ensures ReadNumber(run + rest) == Some(Parsed(Int(Decimal(run)), rest))
  {
    RunOfDigits(run, rest);
    NoFraction(rest);
    var s := run + rest;
    assert s[0] == run[0];
    assert s[0..] == s;
    assert s[0..0 + |run|] == run;
    assert s[0 + |run|..] == rest;
  }

  lemma NumberRoundTrip(n: nat, rest: Str)
    requires EndsValue(rest)
    ensures ReadValue(Digits(n) + rest) == Some(Parsed(Int(n), rest))
  {
    DigitsAreDigits(n);
    ReadRun(Digits(n), rest);
    assert IsDigit((Digits(n) + rest)[0]);
  }

  // ----- dicts of scalars -----

  function Back(v: Scalar): Json {
    match v
    case Count(n) => Int(n)
    case Label(s) => Text(Joined(s))
  }

  function BackAll(entries: seq<Entry>): seq<Member> {
    if entries == [] then [] else [Member(Joined(entries[0].key), Back(entries[0].value))] + BackAll(entries[1..])
  }

  lemma ScalarRoundTrip(v: Scalar, rest: Str)
    requires EndsValue(rest)
    ensures ReadValue(WriteScalar(v) + rest) == Some(Parsed(Back(v), rest))
  {
    match v
    case Count(n) => NumberRoundTrip(n, rest);
    case Label(s) =>
      StringRoundTrip(s, rest);
      assert WriteScalar(v) + rest == [34] + (EscapeAll(s) + ([34] + rest));
      assert (WriteScalar(v) + rest)[1..] == EscapeAll(s) + ([34] + rest);
  }

  lemma KeyStep(t: Str, key: Str, rest: Str)
    requires ReadString(t) == Some(Parsed(key, [58] + rest)) && SkipSpace(rest) == rest
    ensures ReadKey([34] + t) == Some(Parsed(key, rest))
  {
  }

  lemma KeyRoundTrip(key: Str, rest: Str)
    requires SkipSpace(rest) == rest
    ensures ReadKey([34] + (EscapeAll(key) + ([34] + ([58] + rest)))) == Some(Parsed(Joined(key), rest))
  {
    StringRoundTrip(key, [58] + rest);
    KeyStep(EscapeAll(key) + ([34] + ([58] + rest)), Joined(key), rest);
  }

  lemma ScalarStart(v: Scalar, rest: Str)
    ensures SkipSpace(WriteScalar(v) + rest) == WriteScalar(v) + rest
  {
    if v.Count? {
      DigitsAreDigits(v.n);
      assert IsDigit((Digits(v.n) + rest)[0]);
    }
  }

  /** One member and what separates it from the next. */
  lemma MemberRoundTrip(e: Entry, end: Str)
    requires EndsValue(end)
    ensures var s := WriteEntry(e) + end;
      && ReadKey(s) == Some(Parsed(Joined(e.key), WriteScalar(e.value) + end))
      && ReadValue(WriteScalar(e.value) + end) == Some(Parsed(Back(e.value), end))
      && SkipSpace(end) == end
  {
    ScalarStart(e.value, end);
    KeyRoundTrip(e.key, WriteScalar(e.value) + end);
    ScalarRoundTrip(e.value, end);
    EntryShape(e, end);
  }

  lemma EntryShape(e: Entry, end: Str)
    ensures WriteEntry(e) + end == [34] + (EscapeAll(e.key) + ([34] + ([58] + (WriteScalar(e.value) + end))))
  {
  }

  /** Reading written members gives the same keys and values, in the same order. */
  lemma {:induction false} EntriesRoundTrip(entries: seq<Entry>, rest: Str)
    requires entries != []
    ensures ReadMembers(WriteEntries(entries) + ([125] + rest)) == Some(Parsed(BackAll(entries), rest))
    decreases |entries|
  {
    if |entries| == 1 {
      LastEntry(entries, rest);
    } else {
      EntriesRoundTrip(entries[1..], rest);
      FirstEntry(entries, rest);
    }
  }

  lemma LastMember(s: Str, key: Str, afterKey: Str, v: Json, rest: Str)
    requires ReadKey(s) == Some(Parsed(key, afterKey)) && ReadValue(afterKey) == Some(Parsed(v, [125] + rest))
    ensures ReadMembers(s) == Some(Parsed([Member(key, v)], rest))
  {
  }

  function Prepend(m: Member, r: Option<Parsed<seq<Member>>>): Option<Parsed<seq<Member>>> {
    if r.None? then None else Some(Parsed([m] + r.value.value, r.value.rest))
  }

  lemma FirstMember(s: Str, key: Str, afterKey: Str, v: Json, more: Str)
    requires ReadKey(s) == Some(Parsed(key, afterKey)) && ReadValue(afterKey) == Some(Parsed(v, [44] + more))
    requires SkipSpace(more) == more
    ensures ReadMembers(s) == Prepend(Member(key, v), ReadMembers(more))
  {
    assert SkipSpace([44] + more) == [44] + more && ([44] + more)[1..] == more;
  }

  lemma LastEntry(entries: seq<Entry>, rest: Str)
    requires |entries| == 1
    ensures ReadMembers(WriteEntries(entries) + ([125] + rest)) == Some(Parsed(BackAll(entries), rest))
  {
    var e, end := entries[0], [125] + rest;
    MemberRoundTrip(e, end);
    LastMember(WriteEntry(e) + end, Joined(e.key), WriteScalar(e.value) + end, Back(e.value), rest);
    BackOne(entries);
  }

  lemma BackOne(entries: seq<Entry>)
    requires |entries| == 1
    ensures BackAll(entries) == [Member(Joined(entries[0].key), Back(entries[0].value))]
  {
  }

  lemma FirstEntry(entries: seq<Entry>, rest: Str)
    requires |entries| > 1
    ensures ReadMembers(WriteEntries(entries) + ([125] + rest)) ==
            Prepend(Member(Joined(entries[0].key), Back(entries[0].value)),
                    ReadMembers(WriteEntries(entries[1..]) + ([125] + rest)))
  {
    var e := entries[0];
    var more := WriteEntries(entries[1..]) + ([125] + rest);
    MemberRoundTrip(e, [44] + more);
    EntriesStart(entries[1..], [125] + rest);
    FirstMember(WriteEntry(e) + ([44] + more), Joined(e.key), WriteScalar(e.value) + ([44] + more), Back(e.value),
                more);
    Associate(WriteEntry(e), [44] + WriteEntries(entries[1..]), [125] + rest);
    Associate([44], WriteEntries(entries[1..]), [125] + rest);
  }

  lemma EntriesStart(entries: seq<Entry>, rest: Str)
    requires entries != []
    ensures SkipSpace(WriteEntries(entries) + rest) == WriteEntries(entries) + rest
    ensures WriteEntries(entries) != [] && WriteEntries(entries)[0] == 34
  {
  }

  /** Reading a written dict of counts and strings gives its members back. */
  lemma DictRoundTrip(entries: seq<Entry>)
    requires entries != []
    ensures Loads(WriteDict(entries)) == Some(Dict(BackAll(entries)))
  {
    EntriesRoundTrip(entries, []);
    var s := WriteDict(entries);
    assert s[1..] == WriteEntries(entries) + ([125] + []);
    EntriesStart(entries, [125]);
    assert [125] + [] == [125];
  }
}
