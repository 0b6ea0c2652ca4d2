/** The unique-slug loop of `add_product` (distibutor/views.py): starting from the
    slugified "brand-model", append "-1", "-2", ... until no product uses the slug.
    `slugify` itself is not modelled; its result is the `base` parameter. */
module Slugs {

  predicate IsDigit(c: char) { '0' <= c <= '9' }

  predicate AllDigits(s: string) { forall i :: 0 <= i < |s| ==> IsDigit(s[i]) }

  function DigitChar(d: nat): (c: char)
    requires d < 10
    ensures IsDigit(c) && (c as int) - ('0' as int) == d
  {
    (('0' as int) + d) as char
  }

  /** Python's `str(n)` for a non-negative int: decimal digits, no leading zero. */
  function DecimalString(n: nat): (s: string)
    ensures |s| >= 1 && AllDigits(s)
    ensures |s| > 1 ==> s[0] != '0'
    decreases n
  {
    if n < 10 then [DigitChar(n)] else DecimalString(n / 10) + [DigitChar(n % 10)]
  }

  /** The number a string of decimal digits denotes. */
  function DecimalValue(s: string): nat
    requires AllDigits(s)
  {
    if |s| == 0 then 0 else DecimalValue(s[..|s| - 1]) * 10 + ((s[|s| - 1] as int) - ('0' as int))
  }

  /** Reading back what `DecimalString` wrote gives the number again. */
  lemma {:induction false} DecimalRoundTrip(n: nat)
    ensures DecimalValue(DecimalString(n)) == n
    decreases n
  {
    var s := DecimalString(n);
    if n < 10 {
      assert s[..|s| - 1] == [];
    } else {
      DecimalRoundTrip(n / 10);
      assert s[..|s| - 1] == DecimalString(n / 10);
    }
  }

  lemma DecimalStringInjective(m: nat, n: nat)
    requires DecimalString(m) == DecimalString(n)
    ensures m == n
  {
    DecimalRoundTrip(m);
    DecimalRoundTrip(n);
  }

  /** The k-th slug the loop tries: the base itself, then "base-k". */
  function Candidate(base: string, k: nat): string
  {
    if k == 0 then base else base + "-" + DecimalString(k)
  }

  /** The loop never tries the same slug twice. */
  lemma CandidatesDiffer(base: string, j: nat, k: nat)
    requires j != k
    ensures Candidate(base, j) != Candidate(base, k)
  {
    if j > 0 && k > 0 && Candidate(base, j) == Candidate(base, k) {
      var n := |base| + 1;
      assert Candidate(base, j)[n..] == DecimalString(j);
      assert Candidate(base, k)[n..] == DecimalString(k);
      DecimalStringInjective(j, k);
    }
  }

  /** The slugs tried before the n-th one. */
  function Tried(base: string, n: nat): (t: set<string>)
  {
    if n == 0 then {} else Tried(base, n - 1) + {Candidate(base, n - 1)}
  }

  lemma {:induction false} TriedHolds(base: string, n: nat, j: nat)
    ensures Candidate(base, j) in Tried(base, n) <==> j < n
  {
    if n > 0 {
      TriedHolds(base, n - 1, j);
      if j != n - 1 {
        CandidatesDiffer(base, j, n - 1);
      }
    }
  }

  lemma {:induction false} TriedSize(base: string, n: nat)
    ensures |Tried(base, n)| == n
  {
    if n > 0 {
      TriedSize(base, n - 1);
      TriedHolds(base, n - 1, n - 1);
    }
  }

  lemma SubsetSize<T>(a: set<T>, b: set<T>)
    requires a <= b
    ensures |a| <= |b|
  {
    assert b == a + (b - a);
  }

  /** The counter loop of `add_product`. The result is free, and it is the first
      free slug in the order base, base-1, base-2, ...; the loop ends because
      every slug it passes over is one of the finitely many taken ones. */
  method UniqueSlug(taken: set<string>, base: string) returns (slug: string)
    ensures slug !in taken
    ensures base !in taken ==> slug == base
    ensures exists k: nat :: slug == Candidate(base, k) && forall j: nat :: j < k ==> Candidate(base, j) in taken
  {
    slug := base;
    var counter: nat := 1;
    while slug in taken
      invariant slug == Candidate(base, counter - 1)
      invariant Tried(base, counter - 1) <= taken
      decreases |taken| - (counter - 1)
    {
      TriedHolds(base, counter - 1, counter - 1);
      TriedSize(base, counter);
      SubsetSize(Tried(base, counter), taken);
      slug := base + "-" + DecimalString(counter);
      counter := counter + 1;
    }
    forall j: nat | j < counter - 1
      ensures Candidate(base, j) in taken
    {
      TriedHolds(base, counter - 1, j);
    }
  }
}
