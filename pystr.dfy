/**
 * The few Python `str` built-ins the service relies on, on `string`
 * (a sequence of Unicode code points, as a Python `str` is).
 */
module PyStr {
  import opened Wrappers

  /** `s.rfind(c)`: the index of the last occurrence of `c` in `s`, or -1. */
  function RFind(s: string, c: char): (r: int)
    ensures -1 <= r < |s|
    ensures r >= 0 ==> s[r] == c
  {
    if |s| == 0 then -1
    else if s[|s| - 1] == c then |s| - 1
    else RFind(s[..|s| - 1], c)
  }

  /** No occurrence of `c` follows the one `RFind` reports; -1 means `c` does not occur. */
  lemma {:induction false} RFindIsLast(s: string, c: char)
    ensures forall k :: RFind(s, c) < k < |s| ==> s[k] != c
  {
    if |s| > 0 && s[|s| - 1] != c {
      RFindIsLast(s[..|s| - 1], c);
      assert forall k :: 0 <= k < |s| - 1 ==> s[..|s| - 1][k] == s[k];
    }
  }

  /** Strings that hold `c` at the same places have the same `rfind(c)`. */
  lemma RFindSamePlaces(a: string, b: string, c: char)
    requires |a| == |b|
    requires forall k :: 0 <= k < |a| ==> (a[k] == c <==> b[k] == c)
    ensures RFind(a, c) == RFind(b, c)
  {
    RFindIsLast(a, c);
    RFindIsLast(b, c);
  }

  /**
   * `s.rfind(c, lo, hi)`: the last index in `[lo, hi)` that holds `c`, or -1.
   * Unlike `RFind` on the slice `s[lo:hi]`, the index is one of `s`.
   */
  function RFindIn(s: string, c: char, lo: nat, hi: nat): (r: int)
    requires lo <= hi <= |s|
    ensures r == -1 || lo <= r < hi
    ensures r >= 0 ==> s[r] == c
    decreases hi - lo
  {
    if hi == lo then -1
    else if s[hi - 1] == c then hi - 1
    else RFindIn(s, c, lo, hi - 1)
  }

  /** No occurrence of `c` in `[lo, hi)` follows the one `RFindIn` reports. */
  lemma {:induction false} RFindInIsLast(s: string, c: char, lo: nat, hi: nat)
    requires lo <= hi <= |s|
    ensures forall k :: lo <= k < hi && RFindIn(s, c, lo, hi) < k ==> s[k] != c
    decreases hi - lo
  {
    if hi > lo && s[hi - 1] != c {
      RFindInIsLast(s, c, lo, hi - 1);
    }
  }

  /** `s[lo:hi].rfind(c)` is `s.rfind(c, lo, hi)` shifted to the slice's own indices. */
  lemma {:induction false} RFindSlice(s: string, c: char, lo: nat, hi: nat)
    requires lo <= hi <= |s|
    ensures RFind(s[lo..hi], c) == if RFindIn(s, c, lo, hi) == -1 then -1 else RFindIn(s, c, lo, hi) - lo
    decreases hi - lo
  {
    if hi > lo {
      assert s[lo..hi][..hi - 1 - lo] == s[lo..hi - 1];
      RFindSlice(s, c, lo, hi - 1);
    }
  }

  /**
   * The characters `str.strip()` removes: those for which `str.isspace()`
   * holds, i.e. Unicode White_Space plus the separators U+001C..U+001F.
   */
  predicate IsSpace(c: char) {
    ('\U{9}' <= c <= '\U{D}') || ('\U{1C}' <= c <= '\U{20}') || c == '\U{85}' || c == '\U{A0}'
    || c == '\U{1680}' || ('\U{2000}' <= c <= '\U{200A}') || c == '\U{2028}' || c == '\U{2029}'
    || c == '\U{202F}' || c == '\U{205F}' || c == '\U{3000}'
  }

  /** The number of whitespace characters that open `s`. */
  function LeadingSpaces(s: string): (n: nat)
    ensures n <= |s|
    ensures forall k :: 0 <= k < n ==> IsSpace(s[k])
    ensures n < |s| ==> !IsSpace(s[n])
  {
    if |s| > 0 && IsSpace(s[0]) then 1 + LeadingSpaces(s[1..]) else 0
  }

  /** The number of whitespace characters that close `s`. */
  function TrailingSpaces(s: string): (n: nat)
    ensures n <= |s|
    ensures forall k :: |s| - n <= k < |s| ==> IsSpace(s[k])
    ensures n < |s| ==> !IsSpace(s[|s| - n - 1])
  {
    if |s| > 0 && IsSpace(s[|s| - 1]) then 1 + TrailingSpaces(s[..|s| - 1]) else 0
  }

  /** `s.strip()`: `s` without its leading and trailing whitespace. */
  function Strip(s: string): (r: string)
    ensures |r| <= |s|
  {
    var rest := s[LeadingSpaces(s)..];
    rest[..|rest| - TrailingSpaces(rest)]
  }

  /**
   * What `strip` keeps: the one slice of `s` that neither starts nor ends
   * with whitespace and outside of which there is only whitespace; nothing
   * at all exactly when `s` is all whitespace.
   */
  lemma StripTrims(s: string)
    ensures var r := Strip(s);
      && LeadingSpaces(s) + |r| <= |s| && r == s[LeadingSpaces(s)..LeadingSpaces(s) + |r|]
      && (forall k :: 0 <= k < LeadingSpaces(s) ==> IsSpace(s[k]))
      && (forall k :: LeadingSpaces(s) + |r| <= k < |s| ==> IsSpace(s[k]))
      && (r != [] ==> !IsSpace(r[0]) && !IsSpace(r[|r| - 1]))
      && (r == [] <==> forall k :: 0 <= k < |s| ==> IsSpace(s[k]))
  {
  }

  /** `s[:n]` for a non-negative `n`: Python clamps the slice at the end of `s`. */
  function Take(s: string, n: nat): (r: string)
    ensures |r| <= n && |r| <= |s|
    ensures |s| <= n ==> r == s
    ensures |s| > n ==> |r| == n
    ensures r == s[..|r|]
  {
    if |s| <= n then s else s[..n]
  }

  /**
   * `c.lower()` for the ASCII letters; every other character is kept.
   */
  function LowerChar(c: char): (r: char)
  {
    if 'A' <= c <= 'Z' then (c as int - 'A' as int + 'a' as int) as char else c
  }

  /** `s.lower()`, character by character as `LowerChar`. */
  function Lower(s: string): (r: string)
    ensures |r| == |s|
    ensures forall k :: 0 <= k < |s| ==> r[k] == LowerChar(s[k])
  {
    seq(|s|, k requires 0 <= k < |s| => LowerChar(s[k]))
  }

  /** Lower-casing twice is lower-casing once: `Lower` leaves no upper-case ASCII letter. */
  lemma LowerTwice(s: string)
    ensures Lower(Lower(s)) == Lower(s)
  {
  }

  /** A character that is not an ASCII letter keeps its identity under `Lower`: `s` holds it where `Lower(s)` does. */
  lemma LowerKeepsOthers(s: string, c: char)
    requires !('A' <= c <= 'Z') && !('a' <= c <= 'z')
    ensures forall k :: 0 <= k < |s| ==> (s[k] == c <==> Lower(s)[k] == c)
  {
  }

  /** Strings that lower-case alike have suffixes that lower-case alike. */
  lemma LowerSuffix(a: string, b: string, n: nat)
    requires Lower(a) == Lower(b) && n <= |a|
    ensures Lower(a[n..]) == Lower(b[n..])
  {
    forall k | 0 <= k < |a| - n
      ensures Lower(a[n..])[k] == Lower(b[n..])[k]
    {
      assert Lower(a)[n + k] == Lower(b)[n + k];
    }
  }

  /** `not value` for an `Optional[str]`: `None` and the empty string are falsy. */
  predicate Falsy(value: Option<string>) {
    value.None? || value.value == []
  }

  /**
   * Python's `value or fallback` for an `Optional[str]`: both `None` and
   * the empty string are falsy, so both select the fallback.
   */
  function Or(value: Option<string>, fallback: string): (r: string)
    ensures !Falsy(value) ==> r == value.value
    ensures Falsy(value) ==> r == fallback
  {
    if Falsy(value) then fallback else value.value
  }
}
