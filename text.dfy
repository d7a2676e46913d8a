/** Python's `str.strip()` with no argument: removing leading and trailing
    whitespace, where whitespace is what `str.isspace` accepts.

    The stripping functions and their lemmas are stated for any whitespace
    predicate `ws`; `Strip` and `IsBlank` fix it to `IsSpace`. */
module Text {

  /** The characters `str.isspace` accepts (and `str.strip()` removes): the ASCII
      controls U+0009..U+000D and U+001C..U+001F, the space, and the Unicode
      spaces and line or paragraph separators. */
  predicate IsSpace(c: char) {
    var n := c as int;
    || 0x09 <= n <= 0x0D || 0x1C <= n <= 0x20
    || n == 0x85 || n == 0xA0 || n == 0x1680
    || 0x2000 <= n <= 0x200A
    || n == 0x2028 || n == 0x2029 || n == 0x202F || n == 0x205F || n == 0x3000
  }

  /** Empty, or made of whitespace only. */
  predicate IsBlank(s: string) {
    forall i :: 0 <= i < |s| ==> IsSpace(s[i])
  }

  /** `str.strip()`. */
  function Strip(s: string): string {
    StripWith(s, IsSpace)
  }

  /** The length of the whitespace run at the start of `s`. */
  function LeadingRun(s: string, ws: char -> bool): (n: nat)
    ensures n <= |s|
    ensures forall k :: 0 <= k < n ==> ws(s[k])
    ensures n < |s| ==> !ws(s[n])
  {
    if s != [] && ws(s[0]) then
      var n := 1 + LeadingRun(s[1..], ws);
      assert forall k :: 1 <= k < n ==> s[k] == s[1..][k - 1];
      n
    else 0
  }

  /** Where the whitespace run at the end of `s` begins. */
  function TrailingRunStart(s: string, ws: char -> bool): (n: nat)
    ensures n <= |s|
    ensures forall k :: n <= k < |s| ==> ws(s[k])
    ensures 0 < n ==> !ws(s[n - 1])
  {
    if s != [] && ws(s[|s| - 1]) then
      var n := TrailingRunStart(s[..|s| - 1], ws);
      assert forall k :: n <= k < |s| - 1 ==> s[k] == s[..|s| - 1][k];
      n
    else |s|
  }

  /** `lstrip()`: drop the whitespace run at the start. */
  function StripLeading(s: string, ws: char -> bool): string {
    s[LeadingRun(s, ws)..]
  }

  /** `rstrip()`: drop the whitespace run at the end. */
  function StripTrailing(s: string, ws: char -> bool): string {
    s[..TrailingRunStart(s, ws)]
  }

  function StripWith(s: string, ws: char -> bool): string {
    StripTrailing(StripLeading(s, ws), ws)
  }

  /** `s[i..j]` is what is left of `s` once the whitespace at both ends is removed:
      everything outside it is whitespace and, unless it is empty, it starts and
      ends with a non-whitespace character. */
  ghost predicate TrimmedAt(s: string, ws: char -> bool, i: nat, j: nat) {
    && i <= j <= |s|
    && (forall k :: 0 <= k < i ==> ws(s[k]))
    && (forall k :: j <= k < |s| ==> ws(s[k]))
    && (i < j ==> !ws(s[i]) && !ws(s[j - 1]))
  }

  /** Stripping returns such a slice ... */
  lemma StripIsTrimmed(s: string, ws: char -> bool)
    ensures var i := |s| - |StripLeading(s, ws)|;
      TrimmedAt(s, ws, i, i + |StripWith(s, ws)|) && StripWith(s, ws) == s[i..i + |StripWith(s, ws)|]
  {
    var i := LeadingRun(s, ws);
    var t := s[i..];
    var m := TrailingRunStart(t, ws);
    var j := i + m;
    assert StripWith(s, ws) == t[..m] == s[i..j];
    forall k | j <= k < |s| ensures ws(s[k]) {
      assert s[k] == t[k - i];
    }
    if i < j {
      assert s[i] == t[0] && s[j - 1] == t[m - 1];
    }
  }

  /** ... and every such slice is the one stripping returns: the characterisation
      pins the result down whatever the recursion does. */
  lemma StripUnique(s: string, ws: char -> bool, i: nat, j: nat)
    requires TrimmedAt(s, ws, i, j)
    ensures StripWith(s, ws) == s[i..j]
  {
    StripIsTrimmed(s, ws);
    var i' := |s| - |StripLeading(s, ws)|;
    var j' := i' + |StripWith(s, ws)|;
    if i < j && i' < j' {
      // both slices start at the first non-whitespace character and end after the last one
      assert i == i' && j == j';
    } else if i < j || i' < j' {
      // one slice is empty, so all of s is whitespace, yet the other holds a non-whitespace character
      assert false;
    }
  }

  /** Stripping yields nothing exactly when the text is blank. */
  lemma StripEmptyIffBlank(s: string)
    ensures Strip(s) == [] <==> IsBlank(s)
  {
    StripIsTrimmed(s, IsSpace);
    if IsBlank(s) {
      StripUnique(s, IsSpace, 0, 0);
    }
  }

  /** Stripping twice is stripping once. */
  lemma StripIdempotent(s: string)
    ensures Strip(Strip(s)) == Strip(s)
  {
    var r := Strip(s);
    StripIsTrimmed(s, IsSpace);
    StripUnique(r, IsSpace, 0, |r|);
    assert r[0..|r|] == r;
  }
}
