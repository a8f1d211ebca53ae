/**
 * URL slugs: an ASCII model of Django's `slugify`, the decimal rendering of the
 * numeric suffix, the candidate sequence `base`, `base-1`, `base-2`, ... and the
 * loop that picks the first candidate no other row holds.
 */
module Slugs {

  /** Characters a slug is made of: `[a-z0-9_-]`. */
  predicate IsSlugChar(c: char)
  {
    'a' <= c <= 'z' || '0' <= c <= '9' || c == '_' || c == '-'
  }

  predicate IsSlugText(s: string)
  {
    forall i :: 0 <= i < |s| ==> IsSlugChar(s[i])
  }

  /** ASCII whitespace as Python's `str.isspace` (and so the regex class `\s`) sees it. */
  predicate IsSpace(c: char)
  {
    c == ' ' || (9 <= c as int <= 13) || (28 <= c as int <= 31)
  }

  /** The separators that `slugify` collapses into one hyphen: `[-\s]`. */
  predicate IsSeparator(c: char)
  {
    c == '-' || IsSpace(c)
  }

  /** Word characters after lower-casing: `\w` restricted to ASCII. */
  predicate IsWordChar(c: char)
  {
    'a' <= c <= 'z' || '0' <= c <= '9' || c == '_'
  }

  function Lower(c: char): (r: char)
    ensures 'A' <= c <= 'Z' ==> 'a' <= r <= 'z'
    ensures !('A' <= c <= 'Z') ==> r == c
  {
    if 'A' <= c <= 'Z' then (c as int + 32) as char else c
  }

  /** A character survives the ASCII encoding and the removal of `[^\w\s-]`. */
  predicate Survives(c: char)
  {
    c as int < 128 && (IsWordChar(Lower(c)) || IsSeparator(c))
  }

  /** Text made of word characters and separators only. */
  predicate IsCleanText(s: string)
  {
    forall i :: 0 <= i < |s| ==> IsWordChar(s[i]) || IsSeparator(s[i])
  }

  /** Drop non-ASCII characters, lower-case, and drop everything but word characters and separators. */
  function Clean(s: string): (r: string)
    ensures IsCleanText(r)
  {
    if s == [] then []
    else (if Survives(s[0]) then [Lower(s[0])] else []) + Clean(s[1..])
  }

  /** Drop a leading run of separators; the result is a suffix of `s`. */
  function DropSeparators(s: string): (r: string)
    ensures |r| <= |s| && r == s[|s| - |r|..]
    ensures r == [] || !IsSeparator(r[0])
    ensures IsCleanText(s) ==> IsCleanText(r)
  {
    if s != [] && IsSeparator(s[0]) then DropSeparators(s[1..]) else s
  }

  lemma SlugTextConcat(a: string, b: string)
    requires IsSlugText(a) && IsSlugText(b)
    ensures IsSlugText(a + b)
  {
    assert forall i :: 0 <= i < |b| ==> (a + b)[|a| + i] == b[i];
  }

  /** Replace every run of separators with a single hyphen (`re.sub(r"[-\s]+", "-", ...)`). */
  function Collapse(s: string): (r: string)
    requires IsCleanText(s)
    ensures IsSlugText(r)
    decreases |s|
  {
    if s == [] then []
    else if IsSeparator(s[0]) then
      var rest := DropSeparators(s[1..]);
      var r := Collapse(rest);
      SlugTextConcat("-", r);
      "-" + r
    else
      var r := Collapse(s[1..]);
      SlugTextConcat([s[0]], r);
      [s[0]] + r
  }

  predicate IsTrimmed(c: char)
  {
    c == '-' || c == '_'
  }

  /** `str.lstrip("-_")`. */
  function StripLeft(s: string): (r: string)
    ensures |r| <= |s| && r == s[|s| - |r|..]
    ensures r == [] || !IsTrimmed(r[0])
    ensures IsSlugText(s) ==> IsSlugText(r)
  {
    if s != [] && IsTrimmed(s[0]) then StripLeft(s[1..]) else s
  }

  /** `str.rstrip("-_")`. */
  function StripRight(s: string): (r: string)
    ensures |r| <= |s| && r == s[..|r|]
    ensures r == [] || !IsTrimmed(r[|r| - 1])
    ensures IsSlugText(s) ==> IsSlugText(r)
    ensures r != [] ==> r[0] == s[0]
  {
    if s != [] && IsTrimmed(s[|s| - 1]) then StripRight(s[..|s| - 1]) else s
  }

  /**
   * Django's `slugify` without `allow_unicode`, on ASCII: the result is made of
   * `[a-z0-9_-]` and neither starts nor ends with `-` or `_`.
   */
  function Slugify(name: string): (r: string)
    ensures IsSlugText(r)
    ensures r != [] ==> !IsTrimmed(r[0]) && !IsTrimmed(r[|r| - 1])
  {
    StripRight(StripLeft(Collapse(Clean(name))))
  }

  function Digit(d: nat): (c: char)
    requires d < 10
    ensures '0' <= c <= '9'
  {
    (48 + d) as char
  }

  /** The decimal rendering of `n` used by an f-string: digits only, never empty. */
  function NatToString(n: nat): (r: string)
    ensures |r| >= 1
    ensures forall i :: 0 <= i < |r| ==> '0' <= r[i] <= '9'
  {
    if n < 10 then [Digit(n)] else NatToString(n / 10) + [Digit(n % 10)]
  }

  /** Distinct numbers have distinct renderings. */
  lemma {:induction false} NatToStringInjective(a: nat, b: nat)
    requires NatToString(a) == NatToString(b)
    ensures a == b
  {
    if a >= 10 && b >= 10 {
      var sa, sb := NatToString(a), NatToString(b);
      assert sa[|sa| - 1] == Digit(a % 10) && sb[|sb| - 1] == Digit(b % 10);
      assert NatToString(a / 10) == sa[..|sa| - 1] == sb[..|sb| - 1] == NatToString(b / 10);
      NatToStringInjective(a / 10, b / 10);
    }
  }

  /** The k-th candidate of the uniqueness loop: `base` itself, then `base-1`, `base-2`, ... */
  function Candidate(base: string, k: nat): (r: string)
    ensures k == 0 ==> r == base
    ensures k > 0 ==> |r| > |base| + 1 && r[..|base|] == base && r[|base|] == '-'
  {
    if k == 0 then base else base + "-" + NatToString(k)
  }

  /** Different suffix numbers give different candidates. */
  lemma CandidateInjective(base: string, i: nat, j: nat)
    requires Candidate(base, i) == Candidate(base, j)
    ensures i == j
  {
    if i > 0 && j > 0 {
      var n := |base| + 1;
      assert NatToString(i) == Candidate(base, i)[n..] == Candidate(base, j)[n..] == NatToString(j);
      NatToStringInjective(i, j);
    }
  }

  /** The first k candidates, all distinct. */
  function CandidatesBelow(base: string, k: nat): (r: set<string>)
    ensures |r| == k
    ensures forall j :: 0 <= j < k ==> Candidate(base, j) in r
    ensures forall s :: s in r ==> exists j :: 0 <= j < k && s == Candidate(base, j)
  {
    if k == 0 then {}
    else
      var below := CandidatesBelow(base, k - 1);
      assert Candidate(base, k - 1) !in below by {
        if Candidate(base, k - 1) in below {
          var j :| 0 <= j < k - 1 && Candidate(base, k - 1) == Candidate(base, j);
          CandidateInjective(base, k - 1, j);
        }
      }
      below + {Candidate(base, k - 1)}
  }

  /** If the first k candidates are all taken, at least k slugs are taken. */
  lemma TakenBound(base: string, taken: set<string>, k: nat)
    requires forall j :: 0 <= j < k ==> Candidate(base, j) in taken
    ensures k <= |taken|
  {
    var below := CandidatesBelow(base, k);
    assert below <= taken;
    assert taken == below + (taken - below);
    assert |taken| == |below| + |taken - below|;
  }

  /** The first suffix from k on whose candidate is not taken, when every candidate below k is. */
  function FreeFrom(base: string, taken: set<string>, k: nat): (m: nat)
    requires forall j :: 0 <= j < k ==> Candidate(base, j) in taken
    ensures k <= m <= |taken|
    ensures Candidate(base, m) !in taken
    ensures forall j :: 0 <= j < m ==> Candidate(base, j) in taken
    decreases |taken| - k
  {
    TakenBound(base, taken, k);
    if Candidate(base, k) !in taken then k
    else
      TakenBound(base, taken, k + 1);
      FreeFrom(base, taken, k + 1)
  }

  /**
   * The suffix the uniqueness loop settles on, as a definition: the least k whose
   * candidate is not taken.
   */
  function FirstFreeSuffix(base: string, taken: set<string>): (k: nat)
    ensures Candidate(base, k) !in taken
    ensures forall j :: 0 <= j < k ==> Candidate(base, j) in taken
    ensures k <= |taken|
  {
    FreeFrom(base, taken, 0)
  }

  /** A free candidate with every earlier one taken is the first free one: the suffix is determined. */
  lemma FirstFreeUnique(base: string, taken: set<string>, k: nat)
    requires Candidate(base, k) !in taken
    requires forall j :: 0 <= j < k ==> Candidate(base, j) in taken
    ensures k == FirstFreeSuffix(base, taken)
  {
    var m := FirstFreeSuffix(base, taken);
    assert !(k < m) && !(m < k);
  }

  /**
   * The uniqueness loop of `Product.save` and of the `fix_empty_slugs` command: try
   * `base`, then `base-1`, `base-2`, ... until a candidate is not in `taken` (the slugs
   * of the other rows). The result is the FIRST free candidate, and the loop ends after
   * at most |taken| suffixes, because every candidate it rejects is a distinct taken slug.
   */
  method FirstFreeSlug(base: string, taken: set<string>) returns (slug: string, k: nat)
    ensures slug == Candidate(base, k)
    ensures slug !in taken
    ensures forall j :: 0 <= j < k ==> Candidate(base, j) in taken
    ensures k <= |taken|
    ensures k == FirstFreeSuffix(base, taken)
  {
    slug := base;
    var counter := 1;
    while slug in taken
      invariant 1 <= counter <= |taken| + 1
      invariant slug == Candidate(base, counter - 1)
      invariant forall j :: 0 <= j < counter - 1 ==> Candidate(base, j) in taken
      decreases |taken| - counter
    {
      TakenBound(base, taken, counter);
      slug := base + "-" + NatToString(counter);
      counter := counter + 1;
    }
    k := counter - 1;
    FirstFreeUnique(base, taken, k);
  }
}
