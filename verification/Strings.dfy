/** `str.strip`. */
module Strings {

  /** What `str.strip` removes. */
  predicate IsSpace(c: char) {
    var n := c as int;
    9 <= n <= 13 || 28 <= n <= 32 || n == 0x85 || n == 0xA0 || n == 0x1680 || 0x2000 <= n <= 0x200A
    || n == 0x2028 || n == 0x2029 || n == 0x202F || n == 0x205F || n == 0x3000
  }

  predicate IsStripped(s: string) {
    s != "" ==> !IsSpace(s[0]) && !IsSpace(s[|s| - 1])
  }

  function Strip(s: string): (r: string)
    ensures IsStripped(r)
    ensures IsStripped(s) ==> r == s
    decreases |s|
  {
    if s == "" then ""
    else if IsSpace(s[0]) then Strip(s[1..])
    else if IsSpace(s[|s| - 1]) then Strip(s[..|s| - 1])
    else s
  }

  /** Everything before i and from j on is white space. */
  predicate SpaceAround(s: string, i: nat, j: nat) {
    && i <= j <= |s|
    && forall k :: 0 <= k < |s| && (k < i || j <= k) ==> IsSpace(s[k])
  }

  lemma AroundTail(s: string, i: nat, j: nat)
    requires s != "" && IsSpace(s[0]) && SpaceAround(s[1..], i, j)
    ensures SpaceAround(s, i + 1, j + 1) && s[i + 1..j + 1] == s[1..][i..j]
  {
    forall k | 0 <= k < |s| && (k < i + 1 || j + 1 <= k) ensures IsSpace(s[k]) {
      assert k > 0 ==> s[k] == s[1..][k - 1];
    }
  }

  lemma AroundInit(s: string, i: nat, j: nat)
    requires s != "" && IsSpace(s[|s| - 1]) && SpaceAround(s[..|s| - 1], i, j)
    ensures SpaceAround(s, i, j) && s[i..j] == s[..|s| - 1][i..j]
  {
    forall k | 0 <= k < |s| && (k < i || j <= k) ensures IsSpace(s[k]) {
      assert k < |s| - 1 ==> s[k] == s[..|s| - 1][k];
    }
  }

  /** Stripping takes white space off both ends and nothing else. */
  lemma {:induction false} StripTakesEnds(s: string) returns (i: nat, j: nat)
    ensures SpaceAround(s, i, j) && Strip(s) == s[i..j]
    decreases |s|
  {
    if s == "" {
      i, j := 0, 0;
    } else if IsSpace(s[0]) {
      var a, b := StripTakesEnds(s[1..]);
      AroundTail(s, a, b);
      i, j := a + 1, b + 1;
    } else if IsSpace(s[|s| - 1]) {
      i, j := StripTakesEnds(s[..|s| - 1]);
      AroundInit(s, i, j);
    } else {
      i, j := 0, |s|;
    }
  }
}
