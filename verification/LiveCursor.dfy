/** The opaque cursor of the Agent live view: compact JSON in unpadded URL-safe Base64. */
module LiveCursor {
  import opened Ordering
  import opened Base64Url
  import opened JsonText

  datatype Cursor = Cursor(turns: nat, events: nat, toolCalls: nat, responses: nat, status: Str)

  // events, responses, status, tool_calls, turns, v
  const EVENTS: Str := [101, 118, 101, 110, 116, 115]
  const RESPONSES: Str := [114, 101, 115, 112, 111, 110, 115, 101, 115]
  const STATUS: Str := [115, 116, 97, 116, 117, 115]
  const TOOL_CALLS: Str := [116, 111, 111, 108, 95, 99, 97, 108, 108, 115]
  const TURNS: Str := [116, 117, 114, 110, 115]
  const VERSION: Str := [118]

  /** The payload with its version, keys sorted. */
  function Payload(c: Cursor): seq<Entry> {
    [Entry(EVENTS, Count(c.events)), Entry(RESPONSES, Count(c.responses)), Entry(STATUS, Label(c.status)),
     Entry(TOOL_CALLS, Count(c.toolCalls)), Entry(TURNS, Count(c.turns)), Entry(VERSION, Count(1))]
  }

  lemma EscapeAscii(c: CodePoint)
    ensures Ascii(Escape(c))
  {
  }

  lemma {:induction false} EscapeAllAscii(s: Str)
    ensures Ascii(EscapeAll(s))
  {
    if s != [] {
      EscapeAscii(s[0]);
      EscapeAllAscii(s[1..]);
    }
  }

  lemma EntryAscii(e: Entry)
    ensures Ascii(WriteEntry(e))
  {
    EscapeAllAscii(e.key);
    match e.value
    case Count(n) =>
      DigitsAreDigits(n);
      assert forall i :: 0 <= i < |Digits(n)| ==> IsDigit(Digits(n)[i]);
      assert Ascii(WriteScalar(e.value));
    case Label(s) =>
      EscapeAllAscii(s);
      assert Ascii(WriteScalar(e.value));
  }

  lemma {:induction false} EntriesAscii(entries: seq<Entry>)
    requires entries != []
    ensures Ascii(WriteEntries(entries))
    decreases |entries|
  {
    EntryAscii(entries[0]);
    if |entries| > 1 {
      EntriesAscii(entries[1..]);
    }
  }

  /** ASCII text as UTF-8. */
  function AsciiBytes(s: Str): (bs: seq<Byte>)
    requires Ascii(s)
    ensures |bs| == |s| && forall i :: 0 <= i < |s| ==> bs[i] == s[i]
  {
    seq(|s|, i requires 0 <= i < |s| => s[i])
  }

  predicate Continues(b: Byte) {
    0x80 <= b < 0xC0
  }

  /** Strict UTF-8 decoding: no overlong forms, no surrogates, nothing above U+10FFFF. */
  function Utf8(bs: seq<Byte>): Option<Str> {
    if bs == [] then Some([])
    else if bs[0] < 0x80 then Then(bs[0], Utf8(bs[1..]))
    else if 0xC2 <= bs[0] < 0xE0 && |bs| >= 2 && Continues(bs[1]) then
      Then(SixBits(bs[0] - 0xC0, bs[1]), Utf8(bs[2..]))
    else if 0xE0 <= bs[0] < 0xF0 && |bs| >= 3 && Continues(bs[1]) && Continues(bs[2]) then
      var c := SixBits(SixBits(bs[0] - 0xE0, bs[1]), bs[2]);
      if c < 0x800 || 0xD800 <= c < 0xE000 then None else Then(c, Utf8(bs[3..]))
    else if 0xF0 <= bs[0] < 0xF5 && |bs| >= 4 && Continues(bs[1]) && Continues(bs[2]) && Continues(bs[3]) then
      var c := SixBits(SixBits(SixBits(bs[0] - 0xF0, bs[1]), bs[2]), bs[3]);
      if c < 0x10000 || c >= 0x110000 then None else Then(c, Utf8(bs[4..]))
    else None
  }

  function SixBits(high: nat, b: Byte): (c: nat)
    requires Continues(b)
    ensures high * 64 <= c < high * 64 + 64
  {
    high * 64 + (b - 0x80)
  }

  function Then(c: CodePoint, rest: Option<Str>): Option<Str> {
    if rest.Some? then Some([c] + rest.value) else None
  }

  lemma {:induction false} Utf8Ascii(s: Str)
    requires Ascii(s)
    ensures Utf8(AsciiBytes(s)) == Some(s)
  {
    if s != [] {
      assert AsciiBytes(s)[1..] == AsciiBytes(s[1..]);
      Utf8Ascii(s[1..]);
      assert s == [s[0]] + s[1..];
    } else {
      assert AsciiBytes(s) == [];
    }
  }

  function CursorText(c: Cursor): (s: Str)
    ensures Ascii(s)
  {
    EntriesAscii(Payload(c));
    WriteDict(Payload(c))
  }

  /** `_encode_agent_live_cursor` */
  function EncodeCursor(c: Cursor): Str {
    Strip(Encode(AsciiBytes(CursorText(c))))
  }

  /** A dict lookup: the last of several members with the same key. */
  function Get(members: seq<Member>, key: Str): Option<Json> {
    if members == [] then None
    else
      var last := members[|members| - 1];
      if last.key == key then Some(last.value) else Get(members[..|members| - 1], key)
  }

  /** A non-negative `int`; Python counts a bool as one. */
  function CountField(members: seq<Member>, key: Str): Option<nat> {
    match Get(members, key)
    case Some(Int(n)) => if n >= 0 then Some(n) else None
    case Some(Bool(b)) => Some(if b then 1 else 0)
    case _ => None
  }

  function TextField(members: seq<Member>, key: Str): Option<Str> {
    match Get(members, key)
    case Some(Text(s)) => Some(s)
    case _ => None
  }

  /** The checks on a decoded payload; None stands for the ValueError every failure becomes. */
  function CheckPayload(payload: Json): Option<Cursor> {
    if !payload.Dict? then None
    else
      var m := payload.members;
      if CountField(m, VERSION) != Some(1) then None
      else
        match (CountField(m, TURNS), CountField(m, EVENTS), CountField(m, TOOL_CALLS), CountField(m, RESPONSES),
          TextField(m, STATUS))
        case (Some(turns), Some(events), Some(tools), Some(responses), Some(status)) =>
          Some(Cursor(turns, events, tools, responses, status))
        case _ => None
  }

  /** `_decode_agent_live_cursor` */
  function DecodeCursor(cursor: Str): Option<Cursor> {
    match Decode(cursor + Padding(|cursor|))
    case None => None
    case Some(bytes) =>
      match Utf8(bytes)
      case None => None
      case Some(text) =>
        match Loads(text)
        case None => None
        case Some(payload) => CheckPayload(payload)
  }

  lemma PlainKey(key: Str)
    requires Ascii(key)
    ensures Joined(key) == key
  {
  }

  lemma {:induction false} GetAt(members: seq<Member>, i: nat)
    requires i < |members| && forall j :: i < j < |members| ==> members[j].key != members[i].key
    ensures Get(members, members[i].key) == Some(members[i].value)
    decreases |members|
  {
    if i < |members| - 1 {
      GetAt(members[..|members| - 1], i);
    }
  }

  lemma {:induction false} BackAt(entries: seq<Entry>, i: nat)
    requires i < |entries|
    ensures |BackAll(entries)| == |entries|
    ensures BackAll(entries)[i] == Member(Joined(entries[i].key), Back(entries[i].value))
  {
    if i > 0 {
      BackAt(entries[1..], i - 1);
    } else if |entries| > 1 {
      BackAt(entries[1..], 0);
    }
  }

  lemma SixBack(p: seq<Entry>)
    requires |p| == 6 && forall i :: 0 <= i < 6 ==> Ascii(p[i].key)
    ensures |BackAll(p)| == 6 && forall i :: 0 <= i < 6 ==> BackAll(p)[i] == Member(p[i].key, Back(p[i].value))
  {
    BackAt(p, 0);
    forall i | 0 <= i < 6 ensures BackAll(p)[i] == Member(p[i].key, Back(p[i].value)) {
      BackAt(p, i);
      PlainKey(p[i].key);
    }
  }

  lemma CheckMembers(m: seq<Member>, c: Cursor)
    requires |m| == 6 && m[0] == Member(EVENTS, Int(c.events)) && m[1] == Member(RESPONSES, Int(c.responses))
    requires m[2] == Member(STATUS, Text(Joined(c.status))) && m[3] == Member(TOOL_CALLS, Int(c.toolCalls))
    requires m[4] == Member(TURNS, Int(c.turns)) && m[5] == Member(VERSION, Int(1))
    ensures CheckPayload(Dict(m)) == Some(c.(status := Joined(c.status)))
  {
    GetAt(m, 0);
    GetAt(m, 1);
    GetAt(m, 2);
    GetAt(m, 3);
    GetAt(m, 4);
    GetAt(m, 5);
  }

  lemma CheckPayloadBack(c: Cursor, p: seq<Entry>)
    requires p == Payload(c)
    ensures CheckPayload(Dict(BackAll(p))) == Some(c.(status := Joined(c.status)))
  {
    SixBack(p);
    CheckMembers(BackAll(p), c);
  }

  /** The counts always come back; the status comes back with its surrogate pairs joined. */
  lemma CursorRoundTrip(c: Cursor)
    ensures DecodeCursor(EncodeCursor(c)) == Some(c.(status := Joined(c.status)))
  {
    var text := CursorText(c);
    var bytes := AsciiBytes(text);
    PaddingRestored(bytes);
    EncodeDecode(bytes);
    Utf8Ascii(text);
    DictRoundTrip(Payload(c));
    CheckPayloadBack(c, Payload(c));
  }

  /** So a cursor round-trips exactly when its status has no high surrogate followed by a low one. */
  lemma CursorRoundTripIff(c: Cursor)
    ensures DecodeCursor(EncodeCursor(c)) == Some(c) <==> !HasSplitPair(c.status)
  {
    CursorRoundTrip(c);
    JoinedIff(c.status);
  }

  /** A status that does not survive: the two halves of one emoji as separate code points. */
  lemma SplitPairDoesNotRoundTrip() returns (c: Cursor)
    ensures |c.status| == 2 && DecodeCursor(EncodeCursor(c)) != Some(c)
  {
    var status: Str := [0xD83D, 0xDE00];
    assert IsHigh(status[0]) && IsLow(status[0 + 1]);
    c := Cursor(0, 0, 0, 0, status);
    CursorRoundTripIff(c);
  }

  lemma CursorNotEmpty(c: Cursor)
    ensures EncodeCursor(c) != []
  {
    EncodedNotEmpty(AsciiBytes(CursorText(c)));
  }
}
