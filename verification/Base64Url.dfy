/** URL-safe Base64 (section 5 of RFC 4648) as Python's `base64` encodes and leniently decodes it. */
module Base64Url {
  import opened Ordering

  type Byte = n: nat | n < 256
  type CodePoint = n: nat | n < 0x110000
  type Str = seq<CodePoint>

  const PAD: CodePoint := 61

  function Digit(v: nat): (c: CodePoint)
    requires v < 64
    ensures c != PAD
  {
    if v < 26 then 65 + v else if v < 52 then 71 + v else if v < 62 then v - 4 else if v == 62 then 45 else 95
  }

  /** Both alphabets: `-` and `_` are first translated to `+` and `/`. */
  function DigitValue(c: CodePoint): Option<nat> {
    if 65 <= c <= 90 then Some(c - 65)
    else if 97 <= c <= 122 then Some(c - 71)
    else if 48 <= c <= 57 then Some(c + 4)
    else if c == 43 || c == 45 then Some(62)
    else if c == 47 || c == 95 then Some(63)
    else None
  }

  /** The four six-bit groups of three bytes. */
  function First(a: Byte): (v: nat)
    ensures v < 64
  {
    a / 4
  }

  function Second(a: Byte, b: Byte): (v: nat)
    ensures v < 64
  {
    a % 4 * 16 + b / 16
  }

  function Third(b: Byte, c: Byte): (v: nat)
    ensures v < 64
  {
    b % 16 * 4 + c / 64
  }

  function Fourth(c: Byte): (v: nat)
    ensures v < 64
  {
    c % 64
  }

  function Quad(a: Byte, b: Byte, c: Byte): (quad: Str)
    ensures |quad| == 4 && PAD !in quad
  {
    [Digit(First(a)), Digit(Second(a, b)), Digit(Third(b, c)), Digit(Fourth(c))]
  }

  /** The end of the input: nothing, one byte or two, without padding. */
  function Tail(bs: seq<Byte>): (tail: Str)
    requires |bs| < 3
    ensures |tail| == [0, 2, 3][|bs|] && PAD !in tail
  {
    if bs == [] then []
    else if |bs| == 1 then Two(First(bs[0]), Second(bs[0], 0))
    else Three(First(bs[0]), Second(bs[0], bs[1]), Third(bs[1], 0))
  }

  function Two(v0: nat, v1: nat): Str
    requires v0 < 64 && v1 < 64
  {
    [Digit(v0), Digit(v1)]
  }

  function Three(v0: nat, v1: nat, v2: nat): Str
    requires v0 < 64 && v1 < 64 && v2 < 64
  {
    [Digit(v0), Digit(v1), Digit(v2)]
  }

  /** `urlsafe_b64encode` */
  function Encode(bs: seq<Byte>): Str {
    if bs == [] then []
    else if |bs| == 1 then Tail(bs) + [PAD, PAD]
    else if |bs| == 2 then Tail(bs) + [PAD]
    else Quad(bs[0], bs[1], bs[2]) + Encode(bs[3..])
  }

  /** The text without the padding signs at its end. */
  function Strip(s: Str): Str {
    if s != [] && s[|s| - 1] == PAD then Strip(s[..|s| - 1]) else s
  }

  /** As many padding signs as a text of this length lacks to a multiple of four. */
  function Padding(length: nat): Str {
    seq((4 - length % 4) % 4, _ => PAD)
  }

  function Emit(b: Byte, rest: Option<seq<Byte>>): Option<seq<Byte>> {
    if rest.Some? then Some([b] + rest.value) else None
  }

  /**
   * The decoder's scan: characters outside the alphabet are skipped, a completed padding ends the input, and bits
   * left over without padding are an error. `left` holds the bits of the group that are not emitted yet.
   */
  function Scan(s: Str, group: nat, left: nat, pads: nat): Option<seq<Byte>>
    requires group < 4 && left < [1, 64, 16, 4][group]
  {
    if s == [] then if group == 0 then Some([]) else None
    else if s[0] == PAD then
      if group < 2 then Scan(s[1..], group, left, pads)
      else if group + pads + 1 >= 4 then Some([])
      else Scan(s[1..], group, left, pads + 1)
    else
      match DigitValue(s[0])
      case None => Scan(s[1..], group, left, pads)
      case Some(v) =>
        if group == 0 then Scan(s[1..], 1, v, 0)
        else if group == 1 then Emit(left * 4 + v / 16, Scan(s[1..], 2, v % 16, 0))
        else if group == 2 then Emit(left * 16 + v / 4, Scan(s[1..], 3, v % 4, 0))
        else Emit(left * 64 + v, Scan(s[1..], 0, 0, 0))
  }

  function Scanned(s: Str): Option<seq<Byte>> {
    Scan(s, 0, 0, 0)
  }

  predicate Ascii(s: Str) {
    forall i :: 0 <= i < |s| ==> s[i] < 128
  }

  /** `urlsafe_b64decode` of a `str`, which must be ASCII. */
  function Decode(s: Str): Option<seq<Byte>> {
    if Ascii(s) then Scanned(s) else None
  }

  lemma ScanDigit(s: Str, v: nat, group: nat, left: nat, pads: nat)
    requires v < 64 && group < 4 && left < [1, 64, 16, 4][group]
    ensures Scan([Digit(v)] + s, group, left, pads) ==
      if group == 0 then Scan(s, 1, v, 0)
      else if group == 1 then Emit(left * 4 + v / 16, Scan(s, 2, v % 16, 0))
      else if group == 2 then Emit(left * 16 + v / 4, Scan(s, 3, v % 4, 0))
      else Emit(left * 64 + v, Scan(s, 0, 0, 0))
  {
  }

  lemma Regroup(a: Byte, b: Byte, c: Byte)
    ensures First(a) * 4 + Second(a, b) / 16 == a
    ensures Second(a, b) % 16 * 16 + Third(b, c) / 4 == b
    ensures Third(b, c) % 4 * 64 + Fourth(c) == c
  {
  }

  lemma ScanFour(v0: nat, v1: nat, v2: nat, v3: nat, s: Str)
    requires v0 < 64 && v1 < 64 && v2 < 64 && v3 < 64
    ensures Scanned([Digit(v0)] + ([Digit(v1)] + ([Digit(v2)] + ([Digit(v3)] + s))))
            == Emit(v0 * 4 + v1 / 16, Emit(v1 % 16 * 16 + v2 / 4, Emit(v2 % 4 * 64 + v3, Scanned(s))))
  {
    var s3 := [Digit(v3)] + s;
    var s2 := [Digit(v2)] + s3;
    ScanDigit([Digit(v1)] + s2, v0, 0, 0, 0);
    ScanDigit(s2, v1, 1, v0, 0);
    ScanDigit(s3, v2, 2, v1 % 16, 0);
    ScanDigit(s, v3, 3, v2 % 4, 0);
  }

  lemma ScanQuad(a: Byte, b: Byte, c: Byte, s: Str)
    ensures Scanned(Quad(a, b, c) + s) == Emit(a, Emit(b, Emit(c, Scanned(s))))
  {
    var v0, v1, v2, v3 := First(a), Second(a, b), Third(b, c), Fourth(c);
    ScanFour(v0, v1, v2, v3, s);
    Regroup(a, b, c);
    Nested(Digit(v0), Digit(v1), Digit(v2), Digit(v3), s);
  }

  lemma Nested<T>(a: T, b: T, c: T, d: T, s: seq<T>)
    ensures [a] + ([b] + ([c] + ([d] + s))) == [a, b, c, d] + s
  {
  }

  lemma ScanTwo(v0: nat, v1: nat)
    requires v0 < 64 && v1 < 64
    ensures Scanned(Two(v0, v1) + [PAD, PAD]) == Some([v0 * 4 + v1 / 16])
  {
    ScanDigit([Digit(v1)] + [PAD, PAD], v0, 0, 0, 0);
    ScanDigit([PAD, PAD], v1, 1, v0, 0);
    assert [PAD, PAD][1..] == [PAD];
    assert Scan([PAD], 2, v1 % 16, 1) == Some([]);
    var last: Byte := v0 * 4 + v1 / 16;
    assert [last] + [] == [last];
    assert Two(v0, v1) + [PAD, PAD] == [Digit(v0)] + ([Digit(v1)] + [PAD, PAD]);
  }

  lemma ScanThree(v0: nat, v1: nat, v2: nat)
    requires v0 < 64 && v1 < 64 && v2 < 64
    ensures Scanned(Three(v0, v1, v2) + [PAD]) == Some([v0 * 4 + v1 / 16, v1 % 16 * 16 + v2 / 4])
  {
    ScanDigit([Digit(v1)] + ([Digit(v2)] + [PAD]), v0, 0, 0, 0);
    ScanDigit([Digit(v2)] + [PAD], v1, 1, v0, 0);
    ScanDigit([PAD], v2, 2, v1 % 16, 0);
    assert Scan([PAD], 3, v2 % 4, 0) == Some([]);
    var first: Byte, last: Byte := v0 * 4 + v1 / 16, v1 % 16 * 16 + v2 / 4;
    assert [last] + [] == [last] && [first] + [last] == [first, last];
    assert Three(v0, v1, v2) + [PAD] == [Digit(v0)] + ([Digit(v1)] + ([Digit(v2)] + [PAD]));
  }

  lemma OneByte(a: Byte)
    ensures Scanned(Two(First(a), Second(a, 0)) + [PAD, PAD]) == Some([a])
  {
    ScanTwo(First(a), Second(a, 0));
    Regroup(a, 0, 0);
  }

  lemma TwoBytes(a: Byte, b: Byte)
    ensures Scanned(Three(First(a), Second(a, b), Third(b, 0)) + [PAD]) == Some([a, b])
  {
    ScanThree(First(a), Second(a, b), Third(b, 0));
    Regroup(a, b, 0);
  }

  lemma {:induction false} EncodeScanned(bs: seq<Byte>)
    ensures Scanned(Encode(bs)) == Some(bs) && Ascii(Encode(bs))
  {
    if |bs| == 1 {
      OneByte(bs[0]);
      assert bs == [bs[0]];
    } else if |bs| == 2 {
      TwoBytes(bs[0], bs[1]);
      assert bs == [bs[0], bs[1]];
    } else if |bs| >= 3 {
      EncodeScanned(bs[3..]);
      ScanQuad(bs[0], bs[1], bs[2], Encode(bs[3..]));
      Rejoin(bs);
    }
  }

  /** Decoding what was encoded gives back every byte string. */
  lemma EncodeDecode(bs: seq<Byte>)
    ensures Decode(Encode(bs)) == Some(bs)
  {
    EncodeScanned(bs);
  }

  lemma Rejoin<T>(bs: seq<T>)
    requires |bs| >= 3
    ensures [bs[0]] + ([bs[1]] + ([bs[2]] + bs[3..])) == bs
  {
  }

  /** Encoded text without its padding. */
  function Body(bs: seq<Byte>): Str {
    if |bs| < 3 then Tail(bs) else Quad(bs[0], bs[1], bs[2]) + Body(bs[3..])
  }

  /** What encoding adds in padding is what the length of the rest says. */
  lemma {:induction false} EncodeIsBodyPlusPadding(bs: seq<Byte>)
    ensures PAD !in Body(bs) && Encode(bs) == Body(bs) + Padding(|Body(bs)|)
  {
    if |bs| >= 3 {
      EncodeIsBodyPlusPadding(bs[3..]);
      JoinPadding(Quad(bs[0], bs[1], bs[2]), Body(bs[3..]));
    }
  }

  lemma JoinPadding(quad: Str, rest: Str)
    requires |quad| == 4
    ensures quad + (rest + Padding(|rest|)) == (quad + rest) + Padding(|quad + rest|)
  {
  }

  lemma {:induction false} StripPadding(body: Str, pads: Str)
    requires PAD !in body && forall i :: 0 <= i < |pads| ==> pads[i] == PAD
    ensures Strip(body + pads) == body
    decreases |pads|
  {
    if pads == [] {
      assert body + pads == body;
      assert body != [] ==> body[|body| - 1] in body;
    } else {
      var n := |pads| - 1;
      assert (body + pads)[..|body + pads| - 1] == body + pads[..n];
      StripPadding(body, pads[..n]);
    }
  }

  /** Stripping the padding loses nothing: `-len % 4` restores it exactly. */
  lemma PaddingRestored(bs: seq<Byte>)
    ensures var stripped := Strip(Encode(bs));
      PAD !in stripped && stripped + Padding(|stripped|) == Encode(bs)
  {
    EncodeIsBodyPlusPadding(bs);
    StripPadding(Body(bs), Padding(|Body(bs)|));
  }

  lemma EncodedNotEmpty(bs: seq<Byte>)
    requires bs != []
    ensures Strip(Encode(bs)) != []
  {
    EncodeIsBodyPlusPadding(bs);
    StripPadding(Body(bs), Padding(|Body(bs)|));
  }
}
