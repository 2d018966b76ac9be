/** The three Python `str` operations the query filter relies on — `strip()`,
    `upper()` and the substring test `k in s` — restricted to ASCII text. */
module PyText {

  /** Python's `str.isspace` on ASCII: tab, LF, VT, FF, CR (9-13), the
      separators FS, GS, RS, US (28-31) and the space (32). */
  predicate IsSpace(c: char): (r: bool)
    ensures r <==> c in {'\t', '\n', '\U{000B}', '\U{000C}', '\r',
                         '\U{001C}', '\U{001D}', '\U{001E}', '\U{001F}', ' '}
  {
    9 <= c as int <= 13 || 28 <= c as int <= 32
  }

  predicate AllSpace(s: string) {
    forall i :: 0 <= i < |s| ==> IsSpace(s[i])
  }

  /** Positions `lo` to `hi` (exclusive) of `s` hold whitespace. */
  predicate SpaceBetween(s: string, lo: int, hi: int) {
    0 <= lo <= hi <= |s| && forall i :: lo <= i < hi ==> IsSpace(s[i])
  }

  predicate IsLower(c: char) {
    'a' <= c <= 'z'
  }

  /** `c.upper()` for an ASCII character. */
  function UpperChar(c: char): (r: char)
    ensures !IsLower(r)
    ensures IsLower(c) ==> 'A' <= r <= 'Z' && r as int + 32 == c as int
    ensures !IsLower(c) ==> r == c
  {
    if IsLower(c) then (c as int - 32) as char else c
  }

  /** `s.upper()`: every lower-case ASCII letter mapped to its capital,
      everything else kept, position by position. */
  function Upper(s: string): (r: string)
    ensures |r| == |s|
    ensures forall i :: 0 <= i < |s| ==> !IsLower(r[i])
    ensures forall i :: 0 <= i < |s| && IsLower(s[i]) ==> r[i] as int + 32 == s[i] as int
    ensures forall i :: 0 <= i < |s| && !IsLower(s[i]) ==> r[i] == s[i]
  {
    seq(|s|, i requires 0 <= i < |s| => UpperChar(s[i]))
  }

  /** `upper()` is idempotent and leaves no lower-case letter behind. */
  lemma UpperIdempotent(s: string)
    ensures Upper(Upper(s)) == Upper(s)
    ensures forall i :: 0 <= i < |s| ==> !IsLower(Upper(s)[i])
  {
  }

  /** `upper()` works character by character, so it distributes over concatenation. */
  lemma UpperConcat(a: string, b: string)
    ensures Upper(a + b) == Upper(a) + Upper(b)
  {
  }

  lemma UpperSlice(s: string, i: nat, j: nat)
    requires i <= j <= |s|
    ensures Upper(s[i..j]) == Upper(s)[i..j]
    ensures j == |s| ==> Upper(s[i..]) == Upper(s)[i..]
  {
    assert forall k :: 0 <= k < j - i ==> Upper(s[i..j])[k] == UpperChar(s[i + k]);
    assert j == |s| ==> s[i..] == s[i..j];
  }

  /** Text without lower-case letters is its own upper case. */
  lemma CapitalsKeepCase(s: string)
    requires forall i :: 0 <= i < |s| ==> !IsLower(s[i])
    ensures Upper(s) == s
  {
  }

  /** The number of whitespace characters `s` starts with. */
  function LeadingSpace(s: string): (n: nat)
    ensures SpaceBetween(s, 0, n)
    ensures n == |s| || !IsSpace(s[n])
  {
    if s != [] && IsSpace(s[0]) then 1 + LeadingSpace(s[1..]) else 0
  }

  /** The length of `s` without its trailing whitespace. */
  function TextEnd(s: string): (n: nat)
    ensures SpaceBetween(s, n, |s|)
    ensures n == 0 || !IsSpace(s[n - 1])
  {
    if s != [] && IsSpace(s[|s| - 1]) then TextEnd(s[..|s| - 1]) else |s|
  }

  /** `s.lstrip()`: no longer than `s`, and it does not start with
      whitespace (`TrimStartSpec` adds what it drops). */
  function TrimStart(s: string): (r: string)
    ensures |r| <= |s|
    ensures r == [] || !IsSpace(r[0])
  {
    s[LeadingSpace(s)..]
  }

  /** `s.rstrip()`: no longer than `s`, and it does not end with
      whitespace (`TrimEndSpec` adds what it drops). */
  function TrimEnd(s: string): (r: string)
    ensures |r| <= |s|
    ensures r == [] || !IsSpace(r[|r| - 1])
  {
    s[..TextEnd(s)]
  }

  /** `lstrip()` keeps a suffix of `s` and drops only whitespace before it. */
  lemma TrimStartSpec(s: string)
    ensures var r := TrimStart(s);
      r == s[|s| - |r|..] && SpaceBetween(s, 0, |s| - |r|)
  {
  }

  /** `rstrip()` keeps a prefix of `s` and drops only whitespace after it. */
  lemma TrimEndSpec(s: string)
    ensures var r := TrimEnd(s);
      r <= s && SpaceBetween(s, |r|, |s|)
  {
  }

  /** `s.strip()`: a block of `s` that neither starts nor ends with
      whitespace (the full characterisation is `StripSpec`). */
  function Strip(s: string): (r: string)
    ensures |r| <= |s|
    ensures r == [] || (!IsSpace(r[0]) && !IsSpace(r[|r| - 1]))
  {
    TrimEnd(TrimStart(s))
  }

  /** `k` occurs in `s` starting at index `i`. */
  predicate OccursAt(s: string, k: string, i: int) {
    0 <= i <= |s| - |k| && s[i..i + |k|] == k
  }

  /** `k in s` for strings: `k` occurs as a contiguous block of `s`
      (the empty string occurs in every string). */
  function Contains(s: string, k: string): (r: bool)
    ensures r <==> exists i :: OccursAt(s, k, i)
  {
    if |s| < |k| then false
    else if k <= s then
      assert OccursAt(s, k, 0);
      true
    else
      OccursInTail(s, k);
      Contains(s[1..], k)
  }

  /** When `k` does not start `s`, it occurs in `s` exactly when it occurs
      in `s` without its first character. */
  lemma OccursInTail(s: string, k: string)
    requires s != [] && !(k <= s)
    ensures (exists i :: OccursAt(s, k, i)) <==> exists j :: OccursAt(s[1..], k, j)
  {
    if exists j :: OccursAt(s[1..], k, j) {
      var j :| OccursAt(s[1..], k, j);
      assert s[1..][j..j + |k|] == s[j + 1..j + 1 + |k|];
      assert OccursAt(s, k, j + 1);
    }
    if exists i :: OccursAt(s, k, i) {
      var i :| OccursAt(s, k, i);
      assert i != 0;
      assert s[1..][i - 1..i - 1 + |k|] == s[i..i + |k|];
      assert OccursAt(s[1..], k, i - 1);
    }
  }

  /** Strip removes exactly a whitespace margin on each side: the result is
      the block of `s` after its leading whitespace, only whitespace lies
      before and after it, neither of its ends is whitespace, and it is empty
      exactly when the whole input is whitespace. */
  lemma StripSpec(s: string)
    ensures var r, lead := Strip(s), LeadingSpace(s);
      && lead + |r| <= |s|
      && r == s[lead..lead + |r|]
      && SpaceBetween(s, 0, lead) && SpaceBetween(s, lead + |r|, |s|)
      && (r == [] || (!IsSpace(r[0]) && !IsSpace(r[|r| - 1])))
      && (r == [] <==> AllSpace(s))
  {
    StripBlock(s);
    var r, lead := Strip(s), LeadingSpace(s);
    if r != [] {
      assert r[0] == s[lead];
    }
  }

  /** The block `strip()` keeps, and the whitespace after it. */
  lemma StripBlock(s: string)
    ensures var r, lead := Strip(s), LeadingSpace(s);
      && lead + |r| <= |s|
      && r == s[lead..lead + |r|]
      && SpaceBetween(s, lead + |r|, |s|)
  {
    var lead := LeadingSpace(s);
    var t := TrimStart(s);
    var r := TrimEnd(t);
    assert t == s[lead..];
    assert |r| == TextEnd(t);
    SpaceAfterDrop(s, lead, |r|);
    assert r == t[..|r|] == s[lead..lead + |r|];
  }

  /** Whitespace in a suffix of `s` is whitespace of `s`, shifted. */
  lemma SpaceAfterDrop(s: string, lead: nat, e: nat)
    requires lead <= |s| && SpaceBetween(s[lead..], e, |s| - lead)
    ensures SpaceBetween(s, lead + e, |s|)
  {
    forall i | lead + e <= i < |s|
      ensures IsSpace(s[i])
    {
      assert s[i] == s[lead..][i - lead];
    }
  }

  /** Text without whitespace at either end is left alone by `strip()`. */
  lemma StripUnpadded(s: string)
    requires s == [] || (!IsSpace(s[0]) && !IsSpace(s[|s| - 1]))
    ensures Strip(s) == s
  {
  }

  /** Text that starts and ends with non-whitespace survives `strip()`
      whole, whatever follows it. */
  lemma StripKeepsHead(a: string, rest: string)
    requires a != [] && !IsSpace(a[0]) && !IsSpace(a[|a| - 1])
    ensures |a| <= |Strip(a + rest)|
    ensures Strip(a + rest) == a + rest[..|Strip(a + rest)| - |a|]
  {
    var s := a + rest;
    StripSpec(s);
    var r := Strip(s);
    assert s[0] == a[0] && s[|a| - 1] == a[|a| - 1];
    assert r == s[..|r|];
    assert s[..|r|] == a + rest[..|r| - |a|];
  }

  /** `strip()` is idempotent. */
  lemma StripIdempotent(s: string)
    ensures Strip(Strip(s)) == Strip(s)
  {
    StripSpec(s);
    StripUnpadded(Strip(s));
  }

  /** Two characters equal after `upper()` are both whitespace or both not. */
  lemma SpaceIgnoresCase(a: char, b: char)
    requires UpperChar(a) == UpperChar(b)
    ensures IsSpace(a) <==> IsSpace(b)
  {
  }

  lemma {:induction false} LeadingSpaceIgnoresCase(a: string, b: string)
    requires Upper(a) == Upper(b)
    ensures LeadingSpace(a) == LeadingSpace(b)
    decreases |a|
  {
    if a != [] {
      assert UpperChar(a[0]) == Upper(a)[0] == Upper(b)[0] == UpperChar(b[0]);
      SpaceIgnoresCase(a[0], b[0]);
      if IsSpace(a[0]) {
        UpperSlice(a, 1, |a|);
        UpperSlice(b, 1, |b|);
        LeadingSpaceIgnoresCase(a[1..], b[1..]);
      }
    }
  }

  lemma {:induction false} TextEndIgnoresCase(a: string, b: string)
    requires Upper(a) == Upper(b)
    ensures TextEnd(a) == TextEnd(b)
    decreases |a|
  {
    if a != [] {
      var n := |a| - 1;
      assert UpperChar(a[n]) == Upper(a)[n] == Upper(b)[n] == UpperChar(b[n]);
      SpaceIgnoresCase(a[n], b[n]);
      if IsSpace(a[n]) {
        UpperSlice(a, 0, n);
        UpperSlice(b, 0, n);
        TextEndIgnoresCase(a[..n], b[..n]);
      }
    }
  }

  /** Changing the case of ASCII letters commutes with `strip()`:
      `s.strip().upper()` sees only `s.upper()`. */
  lemma StripIgnoresCase(a: string, b: string)
    requires Upper(a) == Upper(b)
    ensures Upper(Strip(a)) == Upper(Strip(b))
  {
    LeadingSpaceIgnoresCase(a, b);
    var n := LeadingSpace(a);
    UpperSlice(a, n, |a|);
    UpperSlice(b, n, |b|);
    var ta, tb := a[n..], b[n..];
    TextEndIgnoresCase(ta, tb);
    UpperSlice(ta, 0, TextEnd(ta));
    UpperSlice(tb, 0, TextEnd(tb));
  }

  lemma {:induction false} LeadingSpacePadded(w: string, s: string)
    requires AllSpace(w)
    ensures LeadingSpace(w + s) == |w| + LeadingSpace(s)
    decreases |w|
  {
    if w != [] {
      assert (w + s)[1..] == w[1..] + s;
      LeadingSpacePadded(w[1..], s);
    } else {
      assert w + s == s;
    }
  }

  lemma {:induction false} TextEndPadded(s: string, w: string)
    requires AllSpace(w)
    ensures TextEnd(s + w) == TextEnd(s)
    decreases |w|
  {
    if w != [] {
      assert (s + w)[..|s + w| - 1] == s + w[..|w| - 1];
      TextEndPadded(s, w[..|w| - 1]);
    } else {
      assert s + w == s;
    }
  }

  /** Text that is not all whitespace keeps its leading whitespace count
      whatever is appended. */
  lemma {:induction false} LeadingSpaceExtend(s: string, w: string)
    requires LeadingSpace(s) < |s|
    ensures LeadingSpace(s + w) == LeadingSpace(s)
    decreases |s|
  {
    assert (s + w)[0] == s[0];
    if IsSpace(s[0]) {
      assert (s + w)[1..] == s[1..] + w;
      LeadingSpaceExtend(s[1..], w);
    }
  }

  /** `lstrip()` of text followed by whitespace: the whitespace stays after
      the stripped text, unless the text was all whitespace. */
  lemma TrimStartPadded(s: string, w: string)
    requires AllSpace(w)
    ensures TrimStart(s + w) == if LeadingSpace(s) == |s| then [] else TrimStart(s) + w
  {
    var n := LeadingSpace(s);
    if n == |s| {
      assert AllSpace(s);
      LeadingSpacePadded(s, w);
      assert LeadingSpace(w) == |w|;
      assert LeadingSpace(s + w) == |s + w|;
    } else {
      LeadingSpaceExtend(s, w);
      DropConcat(s, w, n);
    }
  }

  lemma DropConcat(s: string, w: string, n: nat)
    requires n <= |s|
    ensures (s + w)[n..] == s[n..] + w
  {
  }

  /** Trailing whitespace survives `lstrip()` only to be removed by `rstrip()`. */
  lemma StripTrailingPadded(s: string, w: string)
    requires AllSpace(w)
    ensures Strip(s + w) == Strip(s)
  {
    TrimStartPadded(s, w);
    var t := TrimStart(s);
    if LeadingSpace(s) != |s| {
      TextEndPadded(t, w);
      assert (t + w)[..TextEnd(t)] == t[..TextEnd(t)];
    }
  }

  /** Whitespace added around a string is removed again by `strip()`. */
  lemma StripPadded(w1: string, s: string, w2: string)
    requires AllSpace(w1) && AllSpace(w2)
    ensures Strip(w1 + s + w2) == Strip(s)
  {
    var x := s + w2;
    assert w1 + s + w2 == w1 + x;
    LeadingSpacePadded(w1, x);
    assert (w1 + x)[|w1| + LeadingSpace(x)..] == x[LeadingSpace(x)..];
    assert TrimStart(w1 + x) == TrimStart(x);
    StripTrailingPadded(s, w2);
  }
}
