/**
 JavaScript semantics the profile visualizer relies on: `null`-able values,
 truthiness of strings, `String.prototype.trim`, `String.prototype.startsWith`
 and the end index computed by `Array.prototype.slice`.
 */
module Js {

  /** A JSON field that may be `null`. */
  datatype Option<+T> = None | Some(value: T)

  /** A nullable string is truthy when it is present and not the empty string. */
  predicate Truthy(s: Option<string>) {
    s.Some? && s.value != ""
  }

  /**
   The code points `String.prototype.trim` strips (ECMA-262 WhiteSpace and
   LineTerminator): TAB, LF, VT, FF, CR, SPACE, NBSP, OGHAM SPACE MARK,
   U+2000..U+200A, LINE SEPARATOR, PARAGRAPH SEPARATOR, NARROW NBSP,
   MEDIUM MATHEMATICAL SPACE, IDEOGRAPHIC SPACE and the byte-order mark.
   */
  predicate IsWhitespace(c: char) {
    var n := c as int;
    || (0x09 <= n <= 0x0D)
    || n == 0x20
    || n == 0xA0
    || n == 0x1680
    || (0x2000 <= n <= 0x200A)
    || n == 0x2028
    || n == 0x2029
    || n == 0x202F
    || n == 0x205F
    || n == 0x3000
    || n == 0xFEFF
  }

  /** Every character of `s` at an index in `lo..hi` is whitespace. */
  predicate WhitespaceBetween(s: string, lo: int, hi: int) {
    forall i :: lo <= i < hi && 0 <= i < |s| ==> IsWhitespace(s[i])
  }

  /** True when every character of `s` is whitespace (the empty string included). */
  predicate AllWhitespace(s: string) {
    WhitespaceBetween(s, 0, |s|)
  }

  /** Leading whitespace removed. */
  function TrimStart(s: string): (r: string)
    ensures |r| <= |s|
    ensures r == s[|s| - |r|..]
    ensures WhitespaceBetween(s, 0, |s| - |r|)
    ensures r == [] || !IsWhitespace(r[0])
  {
    if s != [] && IsWhitespace(s[0]) then
      var r := TrimStart(s[1..]);
      assert WhitespaceBetween(s, 0, |s| - |r|) by {
        forall i | 0 < i < |s| - |r|
          ensures IsWhitespace(s[i])
        {
          assert s[i] == s[1..][i - 1];
        }
      }
      r
    else
      s
  }

  /** Trailing whitespace removed. */
  function TrimEnd(s: string): (r: string)
    ensures |r| <= |s|
    ensures r == s[..|r|]
    ensures WhitespaceBetween(s, |r|, |s|)
    ensures r == [] || !IsWhitespace(r[|r| - 1])
  {
    if s != [] && IsWhitespace(s[|s| - 1]) then
      var r := TrimEnd(s[..|s| - 1]);
      assert WhitespaceBetween(s, |r|, |s|) by {
        forall i | |r| <= i < |s| - 1
          ensures IsWhitespace(s[i])
        {
          assert s[i] == s[..|s| - 1][i];
        }
      }
      r
    else
      s
  }

  /** `r` is the stretch `s[a..a + |r|]`, with only whitespace before and after it. */
  predicate IsStretchBetweenWhitespace(s: string, r: string, a: nat) {
    && a + |r| <= |s|
    && r == s[a..a + |r|]
    && WhitespaceBetween(s, 0, a)
    && WhitespaceBetween(s, a + |r|, |s|)
  }

  /** `r` neither begins nor ends with whitespace. */
  predicate NoEdgeWhitespace(r: string) {
    r == [] || (!IsWhitespace(r[0]) && !IsWhitespace(r[|r| - 1]))
  }

  /**
   `String.prototype.trim`: the result is the stretch of `s` between its
   leading and its trailing whitespace, and it neither begins nor ends with
   whitespace.
   */
  function Trim(s: string): (r: string)
    ensures exists a: nat :: IsStretchBetweenWhitespace(s, r, a)
    ensures NoEdgeWhitespace(r)
  {
    var t := TrimStart(s);
    var r := TrimEnd(t);
    TrimStretch(s, t, r);
    r
  }

  /**
   A prefix `r` of a suffix `t` of `s`, each cut off at whitespace, is the
   stretch between two runs of whitespace of `s`.
   */
  lemma TrimStretch(s: string, t: string, r: string)
    requires |t| <= |s| && t == s[|s| - |t|..] && WhitespaceBetween(s, 0, |s| - |t|)
    requires t == [] || !IsWhitespace(t[0])
    requires |r| <= |t| && r == t[..|r|] && WhitespaceBetween(t, |r|, |t|)
    requires r == [] || !IsWhitespace(r[|r| - 1])
    ensures IsStretchBetweenWhitespace(s, r, |s| - |t|)
    ensures NoEdgeWhitespace(r)
  {
    var a := |s| - |t|;
    assert r == s[a..a + |r|] by {
      forall i | 0 <= i < |r|
        ensures r[i] == s[a + i]
      {
        assert r[i] == t[i];
      }
    }
    assert WhitespaceBetween(s, a + |r|, |s|) by {
      forall i | a + |r| <= i < |s|
        ensures IsWhitespace(s[i])
      {
        assert s[i] == t[i - a];
      }
    }
    if r != [] {
      assert r[0] == t[0];
    }
  }

  /** `!s.trim()` holds exactly when `s` consists of whitespace only. */
  lemma TrimEmptyIffAllWhitespace(s: string)
    ensures Trim(s) == [] <==> AllWhitespace(s)
  {
    var r := Trim(s);
    var a: nat :| IsStretchBetweenWhitespace(s, r, a);
    if r != [] {
      assert s[a] == r[0];
    }
  }

  /** `s.startsWith(prefix)`. */
  predicate StartsWith(s: string, prefix: string) {
    |prefix| <= |s| && s[..|prefix|] == prefix
  }

  /**
   The end index `a.slice(0, end)` stops at for an array of length `len`:
   a negative `end` counts back from the end of the array, and the index is
   clamped to `0..len` (ECMA-262, Array.prototype.slice).
   */
  function SliceEnd(len: nat, end: int): (k: nat)
    ensures k <= len
    ensures 0 <= end <= len ==> k == end
    ensures end > len ==> k == len
    ensures end < 0 ==> k == (if -end < len then len + end else 0)
  {
    if end < 0 then
      (if len + end > 0 then len + end else 0)
    else if end < len then end
    else len
  }
}
