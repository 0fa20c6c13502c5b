/**
 * The JavaScript string operations the selector derivation relies on
 * (`substr`, `lastIndexOf`, `indexOf`, `substring`), with the clamping of
 * out-of-range positions that ECMA-262 prescribes. Strings are sequences of
 * UTF-16 code units there and sequences of `char` here; every search in the
 * provider looks for a one-character string, so the needle is a `char`.
 */
module JsString {

  /** `x` moved into the closed interval [lo, hi]. */
  function Clamp(x: int, lo: int, hi: int): (r: int)
    requires lo <= hi
    ensures lo <= r <= hi
    ensures lo <= x <= hi ==> r == x
    ensures x < lo ==> r == lo
    ensures hi < x ==> r == hi
  {
    if x < lo then lo else if hi < x then hi else x
  }

  /**
   * `s.lastIndexOf(c)`: the position of the last occurrence of `c` in `s`,
   * or -1 when `c` does not occur at all.
   */
  function LastIndexOf(s: string, c: char): (r: int)
    ensures -1 <= r < |s|
    ensures r == -1 <==> c !in s
    ensures 0 <= r ==> s[r] == c && c !in s[r + 1..]
  {
    if |s| == 0 then -1
    else if s[|s| - 1] == c then |s| - 1
    else
      assert s == s[..|s| - 1] + [s[|s| - 1]];
      LastIndexOf(s[..|s| - 1], c)
  }

  /**
   * `s.indexOf(c, position)`: the first occurrence of `c` at or after
   * `position`, or -1. The start position is clamped into [0, |s|] first,
   * so a negative one searches the whole string and one past the end
   * finds nothing.
   */
  function IndexOf(s: string, c: char, position: int): (r: int)
    ensures var from := Clamp(position, 0, |s|);
      && (r == -1 <==> c !in s[from..])
      && (r != -1 ==> from <= r < |s| && s[r] == c && c !in s[from..r])
  {
    IndexOfFrom(s, c, Clamp(position, 0, |s|))
  }

  /** The search of `IndexOf` once its start position is in range. */
  function IndexOfFrom(s: string, c: char, from: nat): (r: int)
    requires from <= |s|
    ensures r == -1 <==> c !in s[from..]
    ensures r != -1 ==> from <= r < |s| && s[r] == c && c !in s[from..r]
    decreases |s| - from
  {
    if from == |s| then -1
    else if s[from] == c then from
    else
      assert s[from..] == [s[from]] + s[from + 1..];
      IndexOfFrom(s, c, from + 1)
  }

  /**
   * `s.substr(0, length)` (Annex B of ECMA-262), the only form the provider
   * uses: the prefix of `s` whose length is `length` clamped into [0, |s|].
   */
  function SubstrFromZero(s: string, length: int): (r: string)
    ensures r <= s
    ensures |r| == Clamp(length, 0, |s|)
  {
    s[..Clamp(length, 0, |s|)]
  }

  /**
   * `s.substring(start, end)`: the slice between the two bounds in
   * whichever order they come; a bound below 0 counts as 0 and one past
   * the end as |s|.
   */
  function Substring(s: string, start: int, end: int): (r: string)
    ensures 0 <= start <= end <= |s| ==> r == s[start..end]
    ensures 0 <= end <= start <= |s| ==> r == s[end..start]
    ensures start <= 0 <= end <= |s| ==> r == s[..end]
    ensures 0 <= start <= |s| <= end ==> r == s[start..]
    ensures |r| <= |s|
  {
    var a := Clamp(start, 0, |s|);
    var b := Clamp(end, 0, |s|);
    if a <= b then s[a..b] else s[b..a]
  }
}
