/**
 * The two pieces of Python string handling the line reconstructor relies on:
 * `str.strip()` with no argument and `' '.join(parts)`.
 */
module Text {

  /**
   * Python's `str.isspace()` for one character, which is also the set that
   * `str.strip()` removes: U+0009..U+000D, U+001C..U+001F, the space, U+0085,
   * U+00A0, U+1680, U+2000..U+200A, U+2028, U+2029, U+202F, U+205F, U+3000.
   */
  predicate IsSpace(c: char) {
    || ('\t' <= c <= '\r')
    || ('\U{1C}' <= c <= '\U{1F}')
    || c == ' '
    || c == '\U{85}'
    || c == '\U{A0}'
    || c == '\U{1680}'
    || ('\U{2000}' <= c <= '\U{200A}')
    || c == '\U{2028}'
    || c == '\U{2029}'
    || c == '\U{202F}'
    || c == '\U{205F}'
    || c == '\U{3000}'
  }

  /** The length of the whitespace run at the front of `s`. */
  function LeadingSpaces(s: string): (n: nat)
    ensures n <= |s|
  {
    if s == [] || !IsSpace(s[0]) then 0 else 1 + LeadingSpaces(s[1..])
  }

  /** The run counted by `LeadingSpaces` is whitespace and is as long as it can be. */
  lemma {:induction false} LeadingSpacesSpec(s: string)
    ensures forall k :: 0 <= k < LeadingSpaces(s) ==> IsSpace(s[k])
    ensures LeadingSpaces(s) < |s| ==> !IsSpace(s[LeadingSpaces(s)])
  {
    if s != [] && IsSpace(s[0]) {
      LeadingSpacesSpec(s[1..]);
    }
  }

  /**
   * Python's `s.strip()`: whitespace is taken off either end of `s` until
   * neither end is whitespace.
   */
  function Strip(s: string): (r: string)
    ensures |r| <= |s|
    decreases |s|
  {
    if s != [] && IsSpace(s[0]) then Strip(s[1..])
    else if s != [] && IsSpace(s[|s| - 1]) then Strip(s[..|s| - 1])
    else s
  }

  /**
   * What `Strip` keeps: the slice of `s` that starts after its leading
   * whitespace, with only whitespace cut off behind it, neither starting nor
   * ending with whitespace; it is empty exactly when `s` is all whitespace.
   */
  lemma StripSpec(s: string)
    ensures LeadingSpaces(s) + |Strip(s)| <= |s|
    ensures Strip(s) == s[LeadingSpaces(s)..LeadingSpaces(s) + |Strip(s)|]
    ensures forall k :: LeadingSpaces(s) + |Strip(s)| <= k < |s| ==> IsSpace(s[k])
    ensures Strip(s) != [] ==> !IsSpace(Strip(s)[0]) && !IsSpace(Strip(s)[|Strip(s)| - 1])
    ensures Strip(s) == [] <==> forall k :: 0 <= k < |s| ==> IsSpace(s[k])
  {
    StripSlice(s);
    StripEnds(s);
  }

  /** `Strip` keeps the slice after the leading whitespace, cutting only whitespace behind it. */
  lemma {:induction false} StripSlice(s: string)
    ensures LeadingSpaces(s) + |Strip(s)| <= |s|
    ensures Strip(s) == s[LeadingSpaces(s)..LeadingSpaces(s) + |Strip(s)|]
    ensures forall k :: LeadingSpaces(s) + |Strip(s)| <= k < |s| ==> IsSpace(s[k])
    decreases |s|
  {
    if s != [] && IsSpace(s[0]) {
      var s' := s[1..];
      StripSlice(s');
      assert LeadingSpaces(s) == 1 + LeadingSpaces(s') && Strip(s) == Strip(s');
      var n := |Strip(s)|;
      assert s'[LeadingSpaces(s')..LeadingSpaces(s') + n] == s[LeadingSpaces(s)..LeadingSpaces(s) + n];
      forall k | LeadingSpaces(s) + n <= k < |s| ensures IsSpace(s[k]) {
        assert s[k] == s'[k - 1];
      }
    } else if s != [] && IsSpace(s[|s| - 1]) {
      var s' := s[..|s| - 1];
      assert s'[0] == s[0];
      StripSlice(s');
      assert LeadingSpaces(s) == 0 == LeadingSpaces(s') && Strip(s) == Strip(s');
      var n := |Strip(s)|;
      assert s'[..n] == s[..n];
      forall k | n <= k < |s| ensures IsSpace(s[k]) {
        if k < |s| - 1 { assert s[k] == s'[k]; }
      }
    }
  }

  /** What `Strip` returns neither starts nor ends with whitespace, and is empty exactly when `s` is all whitespace. */
  lemma {:induction false} StripEnds(s: string)
    ensures Strip(s) != [] ==> !IsSpace(Strip(s)[0]) && !IsSpace(Strip(s)[|Strip(s)| - 1])
    ensures Strip(s) == [] <==> forall k :: 0 <= k < |s| ==> IsSpace(s[k])
    decreases |s|
  {
    if s != [] && IsSpace(s[0]) {
      var s' := s[1..];
      StripEnds(s');
      if forall k :: 0 <= k < |s'| ==> IsSpace(s'[k]) {
        forall k | 0 <= k < |s| ensures IsSpace(s[k]) {
          if k > 0 { assert s[k] == s'[k - 1]; }
        }
      } else {
        var k :| 0 <= k < |s'| && !IsSpace(s'[k]);
        assert s[k + 1] == s'[k];
      }
    } else if s != [] && IsSpace(s[|s| - 1]) {
      var s' := s[..|s| - 1];
      assert s'[0] == s[0];
      StripEnds(s');
    }
  }

  /** The number of characters in all of `parts` together. */
  function TotalLength(parts: seq<string>): nat {
    if parts == [] then 0 else |parts[0]| + TotalLength(parts[1..])
  }

  /** Python's `' '.join(parts)`: one space between consecutive parts. */
  function JoinWithSpace(parts: seq<string>): (r: string)
    ensures parts != [] ==> |r| == TotalLength(parts) + |parts| - 1
  {
    if parts == [] then []
    else if |parts| == 1 then parts[0]
    else parts[0] + " " + JoinWithSpace(parts[1..])
  }

  /** Joining two non-empty runs of parts puts one space between their joins. */
  lemma {:induction false} JoinWithSpaceAppend(a: seq<string>, b: seq<string>)
    requires a != [] && b != []
    ensures JoinWithSpace(a + b) == JoinWithSpace(a) + " " + JoinWithSpace(b)
  {
    if |a| == 1 {
      assert (a + b)[1..] == b;
    } else {
      JoinWithSpaceAppend(a[1..], b);
      assert (a + b)[1..] == a[1..] + b;
    }
  }
}
