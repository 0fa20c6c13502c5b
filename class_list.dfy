/**
 * The reading of a `class` attribute as a list of class names separated by
 * single spaces, the way `value.split(" ")` reads it in JavaScript: two
 * adjacent spaces, or a space at either end, give an empty name.
 * The provider never builds this list; it is the reference the extracted
 * class name is checked against.
 */
module ClassList {

  /** `v.split(" ")`: the pieces of `v` between its spaces, in order. */
  function SplitOnSpace(v: string): (parts: seq<string>)
    ensures |parts| >= 1
    ensures forall k :: 0 <= k < |parts| ==> ' ' !in parts[k]
  {
    if v == [] then [""]
    else
      var rest := SplitOnSpace(v[1..]);
      if v[0] == ' ' then [""] + rest
      else [[v[0]] + rest[0]] + rest[1..]
  }

  /** `parts.join(" ")`: the pieces written out with one space between each two. */
  function JoinWithSpace(parts: seq<string>): (v: string)
    requires |parts| >= 1
  {
    if |parts| == 1 then parts[0]
    else parts[0] + " " + JoinWithSpace(parts[1..])
  }

  /** Joining the pieces back together restores the attribute value exactly. */
  lemma {:induction false} JoinSplit(v: string)
    ensures JoinWithSpace(SplitOnSpace(v)) == v
  {
    if v != [] {
      var rest := SplitOnSpace(v[1..]);
      JoinSplit(v[1..]);
      if v[0] == ' ' {
        assert SplitOnSpace(v) == [""] + rest;
        assert ([""] + rest)[1..] == rest;
      } else {
        JoinHead(v[0], rest);
        assert SplitOnSpace(v) == [[v[0]] + rest[0]] + rest[1..];
      }
    }
  }

  /** Putting a character in front of the first piece puts it in front of the joined text. */
  lemma {:induction false} JoinHead(c: char, parts: seq<string>)
    requires |parts| >= 1
    ensures JoinWithSpace([[c] + parts[0]] + parts[1..]) == [c] + JoinWithSpace(parts)
  {
    var ps := [[c] + parts[0]] + parts[1..];
    if |parts| > 1 {
      assert ps[1..] == parts[1..];
    }
  }

  /**
   * A run of `v` that starts at the beginning or just after a space, ends
   * at the end or on a space, and holds no space: one class name.
   */
  predicate IsSpaceDelimited(v: string, start: int, end: int)
  {
    && 0 <= start <= end <= |v|
    && (start == 0 || v[start - 1] == ' ')
    && (end == |v| || v[end] == ' ')
    && ' ' !in v[start..end]
  }

  /**
   * Every space-delimited run is one of the pieces of `SplitOnSpace`:
   * the first one when it starts at the beginning, a later one otherwise.
   */
  lemma {:induction false} SpaceDelimitedIsPiece(v: string, start: int, end: int)
    requires IsSpaceDelimited(v, start, end)
    ensures start == 0 ==> SplitOnSpace(v)[0] == v[..end]
    ensures start > 0 ==> v[start..end] in SplitOnSpace(v)[1..]
  {
    if v != [] {
      var rest := SplitOnSpace(v[1..]);
      var w := v[1..];
      if v[0] == ' ' {
        if start == 0 {
          assert end == 0;
        } else {
          assert w[start - 1..end - 1] == v[start..end];
          SpaceDelimitedIsPiece(w, start - 1, end - 1);
          assert SplitOnSpace(v)[1..] == rest;
          if start == 1 {
            assert rest[0] == w[..end - 1];
          }
        }
      } else {
        if start == 0 {
          assert end > 0;
          assert w[0..end - 1] == v[1..end];
          SpaceDelimitedIsPiece(w, 0, end - 1);
          assert v[..end] == [v[0]] + w[..end - 1];
        } else {
          assert start > 1;
          assert w[start - 1..end - 1] == v[start..end];
          SpaceDelimitedIsPiece(w, start - 1, end - 1);
          assert SplitOnSpace(v)[1..] == rest[1..];
        }
      }
    }
  }

  /**
   * Conversely, every piece of `SplitOnSpace` is a space-delimited run of
   * `v`, and only the first one starts at the beginning.
   */
  lemma {:induction false} PieceIsSpaceDelimited(v: string, k: nat) returns (start: int, end: int)
    requires k < |SplitOnSpace(v)|
    ensures IsSpaceDelimited(v, start, end)
    ensures v[start..end] == SplitOnSpace(v)[k]
    ensures start == 0 <==> k == 0
  {
    if v == [] {
      start, end := 0, 0;
    } else {
      var w := v[1..];
      var rest := SplitOnSpace(w);
      if v[0] == ' ' {
        if k == 0 {
          start, end := 0, 0;
        } else {
          var s, e := PieceIsSpaceDelimited(w, k - 1);
          start, end := s + 1, e + 1;
          TailSlice(v, s, e);
        }
      } else {
        var s, e := PieceIsSpaceDelimited(w, k);
        start, end := s + 1, e + 1;
        if k == 0 {
          start := 0;
          assert v[start..end] == [v[0]] + w[s..e];
        } else {
          TailSlice(v, s, e);
        }
      }
    }
  }

  /** A slice of the tail of `v` is the slice of `v` one position further on. */
  lemma TailSlice(v: string, start: int, end: int)
    requires 0 <= start <= end <= |v| - 1
    ensures v[1..][start..end] == v[start + 1..end + 1]
  {
  }
}
