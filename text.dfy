/**
 * The string primitives the listing page relies on: `toLowerCase`,
 * `includes`, `replace` with a string pattern, and `Array.prototype.join`.
 * Strings are sequences of characters; lower-casing covers ASCII only.
 */
module Text {
  import opened Wrappers

  predicate IsUpper(ch: char) {
    'A' <= ch <= 'Z'
  }

  /** ASCII lower-casing of one character. */
  function LowerChar(ch: char): (r: char)
    ensures !IsUpper(r)
    ensures !IsUpper(ch) ==> r == ch
  {
    if IsUpper(ch) then (ch as int + 32) as char else ch
  }

  /** `s.toLowerCase()`, restricted to ASCII letters. */
  function ToLower(s: string): (r: string)
    ensures |r| == |s|
    ensures forall i :: 0 <= i < |s| ==> r[i] == LowerChar(s[i])
  {
    seq(|s|, i requires 0 <= i < |s| => LowerChar(s[i]))
  }

  /** Lower-casing twice is lower-casing once. */
  lemma ToLowerIdempotent(s: string)
    ensures ToLower(ToLower(s)) == ToLower(s)
  {
  }

  /** Lower-casing commutes with taking a slice. */
  lemma ToLowerSlice(s: string, lo: nat, hi: nat)
    requires lo <= hi <= |s|
    ensures ToLower(s[lo..hi]) == ToLower(s)[lo..hi]
  {
  }

  /** `pat` occurs in `s` starting at index `i`. */
  predicate OccursAt(pat: string, s: string, i: int) {
    0 <= i && i + |pat| <= |s| && s[i..i + |pat|] == pat
  }

  /** The first index at or after `k` where `pat` occurs in `s`. */
  function FindFrom(pat: string, s: string, k: nat): (r: Option<nat>)
    requires k <= |s|
    ensures r.Some? ==> k <= r.value && OccursAt(pat, s, r.value)
    ensures r.Some? ==> forall i :: k <= i < r.value ==> !OccursAt(pat, s, i)
    ensures r.None? ==> forall i :: k <= i ==> !OccursAt(pat, s, i)
    decreases |s| - k
  {
    if k + |pat| > |s| then None
    else if s[k..k + |pat|] == pat then Some(k)
    else FindFrom(pat, s, k + 1)
  }

  /** `s.indexOf(pat)`, with `None` for JavaScript's -1. */
  function FindFirst(pat: string, s: string): (r: Option<nat>)
    ensures r.Some? ==> OccursAt(pat, s, r.value)
    ensures r.Some? ==> forall i :: 0 <= i < r.value ==> !OccursAt(pat, s, i)
    ensures r.None? <==> forall i :: !OccursAt(pat, s, i)
  {
    FindFrom(pat, s, 0)
  }

  /** An occurrence with none before it is the one FindFirst reports. */
  lemma FindFirstIs(pat: string, s: string, j: nat)
    requires OccursAt(pat, s, j)
    requires forall i :: 0 <= i < j ==> !OccursAt(pat, s, i)
    ensures FindFirst(pat, s) == Some(j)
  {
  }

  /** `s.includes(pat)`. */
  predicate Contains(pat: string, s: string) {
    FindFirst(pat, s).Some?
  }

  /** Every string includes the empty string. */
  lemma ContainsEmpty(s: string)
    ensures Contains("", s)
  {
    assert OccursAt("", s, 0);
  }

  /** An occurrence stays an occurrence after both sides are lower-cased. */
  lemma {:induction false} ContainsToLower(pat: string, s: string)
    requires Contains(pat, s)
    ensures Contains(ToLower(pat), ToLower(s))
  {
    var i := FindFirst(pat, s).value;
    ToLowerSlice(s, i, i + |pat|);
    assert OccursAt(ToLower(pat), ToLower(s), i);
    assert FindFirst(ToLower(pat), ToLower(s)).Some?;
  }

  /**
   * `s.replace(pat, rep)` with a string pattern and a replacement holding no
   * `$` pattern: only the first occurrence is replaced, and `s` is returned
   * unchanged when there is none.
   */
  function ReplaceFirst(s: string, pat: string, rep: string): (r: string)
    ensures (forall i :: !OccursAt(pat, s, i)) ==> r == s
    ensures forall i {:trigger OccursAt(pat, s, i)} ::
              OccursAt(pat, s, i) && (forall j :: 0 <= j < i ==> !OccursAt(pat, s, j)) ==>
                r == s[..i] + rep + s[i + |pat|..]
  {
    match FindFirst(pat, s)
    case None => s
    case Some(i) => s[..i] + rep + s[i + |pat|..]
  }

  /** The number of characters in all of `xs` together. */
  function TotalLength(xs: seq<string>): nat
    decreases |xs|
  {
    if xs == [] then 0 else |xs[0]| + TotalLength(xs[1..])
  }

  /** `xs.join(sep)`: the elements with one separator between each two neighbours. */
  function Join(xs: seq<string>, sep: string): (r: string)
    ensures |r| == TotalLength(xs) + (if xs == [] then 0 else (|xs| - 1) * |sep|)
    ensures |xs| > 0 ==> |xs[0]| <= |r| && r[..|xs[0]|] == xs[0]
    decreases |xs|
  {
    if |xs| == 0 then ""
    else if |xs| == 1 then xs[0]
    else xs[0] + sep + Join(xs[1..], sep)
  }

  /** Cuts `s` at every occurrence of `sep`, left to right: the inverse of Join. */
  function Split(s: string, sep: string): (r: seq<string>)
    requires |sep| > 0
    ensures |r| > 0
    decreases |s|
  {
    match FindFirst(sep, s)
    case None => [s]
    case Some(i) => [s[..i]] + Split(s[i + |sep|..], sep)
  }

  /**
   * Writing `sep` after `t` creates no occurrence of `sep` that starts
   * inside `t`: the first separator after `t` is the one just written.
   */
  predicate SeparatesCleanly(t: string, sep: string) {
    forall i :: 0 <= i < |t| ==> !OccursAt(sep, t + sep, i)
  }

  /** The first separator in `t + sep + rest` is the one right after `t`. */
  lemma FirstSeparatorAfter(t: string, sep: string, rest: string)
    requires SeparatesCleanly(t, sep)
    ensures FindFirst(sep, t + sep + rest) == Some(|t|)
  {
    var s := t + sep + rest;
    assert s[|t|..|t| + |sep|] == sep;
    forall i | 0 <= i < |t| ensures !OccursAt(sep, s, i) {
      assert !OccursAt(sep, t + sep, i);
      if i + |sep| <= |t| + |sep| {
        assert s[i..i + |sep|] == (t + sep)[i..i + |sep|];
      }
    }
    FindFirstIs(sep, s, |t|);
  }

  /**
   * Join can be read back with Split: a non-empty list whose elements each
   * separate cleanly from `sep` is what cutting its join at `sep` gives.
   */
  lemma {:induction false} SplitJoin(xs: seq<string>, sep: string)
    requires |sep| > 0 && |xs| > 0
    requires forall i :: 0 <= i < |xs| ==> SeparatesCleanly(xs[i], sep)
    ensures Split(Join(xs, sep), sep) == xs
    decreases |xs|
  {
    var t := xs[0];
    if |xs| == 1 {
      assert Join(xs, sep) == t;
      assert SeparatesCleanly(t, sep);
      forall i ensures !OccursAt(sep, t, i) {
        if 0 <= i && i + |sep| <= |t| {
          assert (t + sep)[i..i + |sep|] == t[i..i + |sep|];
          assert !OccursAt(sep, t + sep, i);
        }
      }
    } else {
      var rest := Join(xs[1..], sep);
      var s := t + sep + rest;
      assert Join(xs, sep) == s;
      FirstSeparatorAfter(t, sep, rest);
      assert s[..|t|] == t;
      assert s[|t| + |sep|..] == rest;
      SplitJoin(xs[1..], sep);
      assert xs == [t] + xs[1..];
    }
  }
}
