/**
 * Which texts `_decode_agent_live_cursor` accepts after Base64: strict UTF-8, and a payload whose members are right.
 */
module CursorLaws {
  import opened Ordering
  import opened Base64Url
  import opened JsonText
  import opened LiveCursor

  // ----- UTF-8 -----

  /** A code point that UTF-8 encodes: anything but a surrogate half. */
  predicate IsScalar(c: CodePoint) {
    c < 0xD800 || 0xE000 <= c
  }

  function Trail(c: nat): Byte {
    0x80 + c % 64
  }

  function Utf8Bytes(c: CodePoint): seq<Byte> {
    if c < 0x80 then [c]
    else if c < 0x800 then [0xC0 + c / 64, Trail(c)]
    else if c < 0x10000 then [0xE0 + c / 64 / 64, Trail(c / 64), Trail(c)]
    else [0xF0 + c / 64 / 64 / 64, Trail(c / 64 / 64), Trail(c / 64), Trail(c)]
  }

  function EncodeUtf8(s: Str): seq<Byte> {
    if s == [] then [] else Utf8Bytes(s[0]) + EncodeUtf8(s[1..])
  }

  ghost predicate AllScalar(s: Str) {
    forall i :: 0 <= i < |s| ==> IsScalar(s[i])
  }

  lemma SixBitsJoin(n: nat)
    ensures SixBits(n / 64, Trail(n)) == n
  {
  }

  lemma SixBitsSplit(high: nat, b: Byte)
    requires Continues(b)
    ensures SixBits(high, b) / 64 == high && Trail(SixBits(high, b)) == b
  {
  }

  lemma DecodeTwo(c: CodePoint, bs: seq<Byte>)
    requires 0x80 <= c < 0x800 && |bs| >= 2 && bs[..2] == Utf8Bytes(c)
    ensures Utf8(bs) == LiveCursor.Then(c, Utf8(bs[2..]))
  {
    SixBitsJoin(c);
    assert bs[0] == bs[..2][0] && bs[1] == bs[..2][1];
  }

  lemma DecodeThree(c: CodePoint, bs: seq<Byte>)
    requires 0x800 <= c < 0x10000 && IsScalar(c) && |bs| >= 3 && bs[..3] == Utf8Bytes(c)
    ensures Utf8(bs) == LiveCursor.Then(c, Utf8(bs[3..]))
  {
    SixBitsJoin(c);
    SixBitsJoin(c / 64);
    assert bs[0] == bs[..3][0] && bs[1] == bs[..3][1] && bs[2] == bs[..3][2];
  }

  lemma DecodeFour(c: CodePoint, bs: seq<Byte>)
    requires 0x10000 <= c && |bs| >= 4 && bs[..4] == Utf8Bytes(c)
    ensures Utf8(bs) == LiveCursor.Then(c, Utf8(bs[4..]))
  {
    SixBitsJoin(c);
    SixBitsJoin(c / 64);
    SixBitsJoin(c / 64 / 64);
    assert bs[0] == bs[..4][0] && bs[1] == bs[..4][1] && bs[2] == bs[..4][2] && bs[3] == bs[..4][3];
  }

  lemma DecodeOne(c: CodePoint, rest: seq<Byte>)
    requires IsScalar(c)
    ensures Utf8(Utf8Bytes(c) + rest) == LiveCursor.Then(c, Utf8(rest))
  {
    var first := Utf8Bytes(c);
    var bs := first + rest;
    assert bs[..|first|] == first && bs[|first|..] == rest;
    if c >= 0x10000 {
      DecodeFour(c, bs);
    } else if c >= 0x800 {
      DecodeThree(c, bs);
    } else if c >= 0x80 {
      DecodeTwo(c, bs);
    }
  }

  lemma {:induction false} DecodeEncoded(s: Str)
    requires AllScalar(s)
    ensures Utf8(EncodeUtf8(s)) == Some(s)
  {
    if s != [] {
      assert AllScalar(s[1..]);
      DecodeEncoded(s[1..]);
      DecodeOne(s[0], EncodeUtf8(s[1..]));
      assert s == [s[0]] + s[1..];
    }
  }

  /** The first code point of an accepted text, and the bytes it took. */
  lemma FirstDecoded(bs: seq<Byte>) returns (c: CodePoint, k: nat)
    requires bs != [] && Utf8(bs).Some?
    ensures IsScalar(c) && 0 < k <= |bs| && Utf8Bytes(c) == bs[..k] && Utf8(bs) == LiveCursor.Then(c, Utf8(bs[k..]))
  {
    if bs[0] < 0x80 {
      c, k := bs[0], 1;
    } else if bs[0] < 0xE0 {
      c, k := SixBits(bs[0] - 0xC0, bs[1]), 2;
      SixBitsSplit(bs[0] - 0xC0, bs[1]);
    } else if bs[0] < 0xF0 {
      c, k := FirstOfThree(bs);
    } else {
      c, k := FirstOfFour(bs);
    }
  }

  lemma ThreeBytes(high: nat, a: Byte, b: Byte)
    requires high < 16 && Continues(a) && Continues(b)
    ensures var c := SixBits(SixBits(high, a), b);
      c < 0x10000 && [0xE0 + c / 64 / 64, Trail(c / 64), Trail(c)] == [0xE0 + high, a, b]
  {
    SixBitsSplit(high, a);
    SixBitsSplit(SixBits(high, a), b);
  }

  lemma FourBytes(high: nat, a: Byte, b: Byte, d: Byte)
    requires high < 5 && Continues(a) && Continues(b) && Continues(d)
    ensures var c := SixBits(SixBits(SixBits(high, a), b), d);
      [0xF0 + c / 64 / 64 / 64, Trail(c / 64 / 64), Trail(c / 64), Trail(c)] == [0xF0 + high, a, b, d]
  {
    ThreeBytes(high, a, b);
    SixBitsSplit(SixBits(SixBits(high, a), b), d);
  }

  lemma ThreeAccepted(bs: seq<Byte>)
    requires bs != [] && 0xE0 <= bs[0] < 0xF0 && Utf8(bs).Some?
    ensures |bs| >= 3 && Continues(bs[1]) && Continues(bs[2])
    ensures var c := SixBits(SixBits(bs[0] - 0xE0, bs[1]), bs[2]);
      c >= 0x800 && IsScalar(c) && Utf8(bs) == LiveCursor.Then(c, Utf8(bs[3..]))
  {
  }

  lemma FirstOfThree(bs: seq<Byte>) returns (c: CodePoint, k: nat)
    requires bs != [] && 0xE0 <= bs[0] < 0xF0 && Utf8(bs).Some?
    ensures IsScalar(c) && k == 3 <= |bs| && Utf8Bytes(c) == bs[..3] && Utf8(bs) == LiveCursor.Then(c, Utf8(bs[3..]))
  {
    ThreeAccepted(bs);
    ThreeBytes(bs[0] - 0xE0, bs[1], bs[2]);
    c, k := SixBits(SixBits(bs[0] - 0xE0, bs[1]), bs[2]), 3;
    assert bs[..3] == [bs[0], bs[1], bs[2]];
  }

  lemma FirstOfFour(bs: seq<Byte>) returns (c: CodePoint, k: nat)
    requires bs != [] && 0xF0 <= bs[0] && Utf8(bs).Some?
    ensures IsScalar(c) && k == 4 <= |bs| && Utf8Bytes(c) == bs[..4] && Utf8(bs) == LiveCursor.Then(c, Utf8(bs[4..]))
  {
    FourBytes(bs[0] - 0xF0, bs[1], bs[2], bs[3]);
    c, k := SixBits(SixBits(SixBits(bs[0] - 0xF0, bs[1]), bs[2]), bs[3]), 4;
    assert bs[..4] == [bs[0], bs[1], bs[2], bs[3]];
  }

  lemma {:induction false} EncodeDecoded(bs: seq<Byte>)
    requires Utf8(bs).Some?
    ensures AllScalar(Utf8(bs).value) && EncodeUtf8(Utf8(bs).value) == bs
  {
    if bs != [] {
      var c, k := FirstDecoded(bs);
      EncodeDecoded(bs[k..]);
      var s := Utf8(bs).value;
      assert s[0] == c && s[1..] == Utf8(bs[k..]).value;
      assert bs == bs[..k] + bs[k..];
    }
  }

  /** Strict decoding accepts exactly the encodings of texts without surrogate halves, and gives those texts. */
  lemma Utf8Iff(bs: seq<Byte>, s: Str)
    ensures Utf8(bs) == Some(s) <==> AllScalar(s) && bs == EncodeUtf8(s)
  {
    if AllScalar(s) {
      DecodeEncoded(s);
    }
    if Utf8(bs).Some? {
      EncodeDecoded(bs);
    }
  }

  // ----- the payload -----

  /** The last member with the key has the value. */
  ghost predicate Holds(members: seq<Member>, key: Str, value: Json) {
    exists i :: LastMember(members, key, i) && members[i].value == value
  }

  ghost predicate LastMember(members: seq<Member>, key: Str, i: int) {
    && 0 <= i < |members| && members[i].key == key
    && forall j :: i < j < |members| ==> members[j].key != key
  }

  /** A count, or a bool that stands for one. */
  ghost predicate HoldsCount(members: seq<Member>, key: Str, n: nat) {
    || Holds(members, key, Int(n))
    || (n == 0 && Holds(members, key, Bool(false)))
    || (n == 1 && Holds(members, key, Bool(true)))
  }

  lemma {:induction false} GetIff(members: seq<Member>, key: Str, value: Json)
    ensures Get(members, key) == Some(value) <==> Holds(members, key, value)
    decreases |members|
  {
    if members != [] {
      var n := |members| - 1;
      if members[n].key == key {
        assert LastMember(members, key, n);
      } else {
        GetIff(members[..n], key, value);
        assert forall i :: LastMember(members, key, i) <==> LastMember(members[..n], key, i);
      }
    }
  }

  lemma CountIff(members: seq<Member>, key: Str, n: nat)
    ensures CountField(members, key) == Some(n) <==> HoldsCount(members, key, n)
  {
    GetIff(members, key, Int(n));
    GetIff(members, key, Bool(false));
    GetIff(members, key, Bool(true));
  }

  /** A payload is accepted exactly if it is a dict of version 1 with four counts and a status, and gives them. */
  lemma PayloadIff(payload: Json, c: Cursor)
    ensures CheckPayload(payload) == Some(c) <==>
            && payload.Dict?
            && HoldsCount(payload.members, VERSION, 1)
            && HoldsCount(payload.members, TURNS, c.turns) && HoldsCount(payload.members, EVENTS, c.events)
            && HoldsCount(payload.members, TOOL_CALLS, c.toolCalls)
            && HoldsCount(payload.members, RESPONSES, c.responses)
            && Holds(payload.members, STATUS, Text(c.status))
  {
    if payload.Dict? {
      var m := payload.members;
      CountIff(m, VERSION, 1);
      CountIff(m, TURNS, c.turns);
      CountIff(m, EVENTS, c.events);
      CountIff(m, TOOL_CALLS, c.toolCalls);
      CountIff(m, RESPONSES, c.responses);
      GetIff(m, STATUS, Text(c.status));
    }
  }

  /** A cursor decodes exactly if it is the Base64 of the UTF-8 of the JSON of such a payload. */
  lemma DecodesIff(text: Str, c: Cursor)
    ensures DecodeCursor(text) == Some(c) <==>
            exists bytes, json, payload ::
              && Decode(text + Padding(|text|)) == Some(bytes)
              && bytes == EncodeUtf8(json) && AllScalar(json)
              && Loads(json) == Some(payload) && CheckPayload(payload) == Some(c)
  {
    forall bytes, json ensures Utf8(bytes) == Some(json) <==> AllScalar(json) && bytes == EncodeUtf8(json) {
      Utf8Iff(bytes, json);
    }
  }
}
