/** Node ids the group compiler generates, and why they never clash. */
module Ids {

  const DIGITS: string := "0123456789"

  /** Python's decimal rendering of a non-negative integer. */
  function Decimal(n: nat): (s: string)
    ensures s != [] && forall c <- s :: c in DIGITS
  {
    if n < 10 then [DIGITS[n]] else Decimal(n / 10) + [DIGITS[n % 10]]
  }

  function DecimalValue(s: string): nat
    requires forall c <- s :: c in DIGITS
  {
    if s == [] then 0
    else 10 * DecimalValue(s[..|s| - 1]) + DigitValue(s[|s| - 1])
  }

  function DigitValue(c: char): (d: nat)
    requires c in DIGITS
    ensures d < 10 && DIGITS[d] == c
  {
    c as int - '0' as int
  }

  lemma {:induction false} DecimalRoundTrip(n: nat)
    ensures DecimalValue(Decimal(n)) == n
  {
    if n >= 10 {
      DecimalRoundTrip(n / 10);
      assert Decimal(n)[..|Decimal(n)| - 1] == Decimal(n / 10);
    }
  }

  lemma DecimalInjective(m: nat, n: nat)
    requires Decimal(m) == Decimal(n)
    ensures m == n
  {
    DecimalRoundTrip(m);
    DecimalRoundTrip(n);
  }

  ghost predicate HasPrefix(s: string, prefix: string) {
    |prefix| <= |s| && s[..|prefix|] == prefix
  }

  /** The names `preferred`, `preferred_2`, `preferred_3`, ... that are tried in turn. */
  function Candidate(preferred: string, suffix: nat): (s: string)
    ensures HasPrefix(s, preferred)
  {
    if suffix < 2 then preferred else preferred + "_" + Decimal(suffix)
  }

  ghost predicate IsCandidate(id: string, preferred: string) {
    exists suffix: nat :: id == Candidate(preferred, suffix)
  }

  lemma CandidateInjective(preferred: string, m: nat, n: nat)
    requires 2 <= m && 2 <= n && Candidate(preferred, m) == Candidate(preferred, n)
    ensures m == n
  {
    var k := |preferred + "_"|;
    assert Candidate(preferred, m)[k..] == Decimal(m);
    assert Candidate(preferred, n)[k..] == Decimal(n);
    DecimalInjective(m, n);
  }

  /**
   * The first candidate name not in use. The search ends because the candidates
   * it has skipped are pairwise distinct members of `used`.
   */
  method UniqueId(used: set<string>, preferred: string) returns (id: string)
    ensures id !in used && IsCandidate(id, preferred)
    ensures preferred !in used ==> id == preferred
    ensures preferred in used ==>
              exists suffix :: 2 <= suffix && id == Candidate(preferred, suffix)
                               && forall k :: 2 <= k < suffix ==> Candidate(preferred, k) in used
  {
    if preferred !in used {
      assert preferred == Candidate(preferred, 0);
      return preferred;
    }
    var suffix := 2;
    SkippedFitIn(used, preferred, suffix);
    while Candidate(preferred, suffix) in used
      invariant 2 <= suffix <= |used| + 2
      invariant forall k :: 2 <= k < suffix ==> Candidate(preferred, k) in used
      decreases |used| + 2 - suffix
    {
      suffix := suffix + 1;
      SkippedFitIn(used, preferred, suffix);
    }
    id := Candidate(preferred, suffix);
  }

  /** Pigeonhole: no more candidates can be in use than there are used names. */
  lemma SkippedFitIn(used: set<string>, preferred: string, suffix: nat)
    requires 2 <= suffix
    requires forall k :: 2 <= k < suffix ==> Candidate(preferred, k) in used
    ensures suffix <= |used| + 2
  {
    forall i: nat, j: nat | 2 <= i < j < suffix
      ensures Candidate(preferred, i) != Candidate(preferred, j)
    {
      if Candidate(preferred, i) == Candidate(preferred, j) { CandidateInjective(preferred, i, j); }
    }
    InjectionFits((k: nat) => Candidate(preferred, k), 2, suffix, used);
  }

  lemma {:induction false} InjectionFits<T>(f: nat -> T, lo: nat, hi: nat, into: set<T>)
    requires lo <= hi
    requires forall k: nat :: lo <= k < hi ==> f(k) in into
    requires forall i: nat, j: nat :: lo <= i < j < hi ==> f(i) != f(j)
    ensures hi - lo <= |into|
  {
    if lo < hi { InjectionFits(f, lo, hi - 1, into - {f(hi - 1)}); }
  }

  // ---- the names generated for one group ----

  function WrapperName(group: nat): string { "cutlery_remote_group_" + Decimal(group + 1) }
  function OutputName(group: nat): string { "cutlery_remote_output_" + Decimal(group + 1) }
  function BoundaryName(group: nat, port: nat): string {
    "cutlery_remote_input_" + Decimal(group + 1) + "_" + Decimal(port + 1)
  }
  function EmptyBoundaryName(group: nat): string { "cutlery_remote_input_" + Decimal(group + 1) }
  function EncodeName(group: nat, port: nat): string {
    "cutlery_remote_encode_" + Decimal(group + 1) + "_" + Decimal(port + 1)
  }
  function DecodeName(group: nat, port: nat): string {
    "cutlery_remote_decode_" + Decimal(group + 1) + "_" + Decimal(port + 1)
  }
  function PrepareName(group: nat): string { "cutlery_remote_prepare_" + Decimal(group + 1) }
  function PreloadName(group: nat): string { "cutlery_remote_preload_" + Decimal(group + 1) }

  /** Groups and ports count from one. */
  lemma FirstNames()
    ensures WrapperName(0) == "cutlery_remote_group_1" && WrapperName(9) == "cutlery_remote_group_10"
    ensures OutputName(0) == "cutlery_remote_output_1" && EmptyBoundaryName(0) == "cutlery_remote_input_1"
    ensures PrepareName(0) == "cutlery_remote_prepare_1" && PreloadName(0) == "cutlery_remote_preload_1"
    ensures BoundaryName(1, 0) == "cutlery_remote_input_2_1"
    ensures EncodeName(1, 0) == "cutlery_remote_encode_2_1" && DecodeName(1, 0) == "cutlery_remote_decode_2_1"
    ensures Candidate("a", 1) == "a" && Candidate("a", 2) == "a_2"
  {
    assert Decimal(1) == "1" && Decimal(2) == "2";
    assert Decimal(10) == Decimal(1) + "0" == "10";
  }

  /**
   * Two names made from different port numbers stay different whatever suffixes
   * are appended, because a decimal numeral holds no underscore: neither name can
   * be mistaken for a suffixed form of the other.
   */
  lemma NumberedCandidatesDiffer(base: string, i: nat, j: nat, x: string, y: string)
    requires i != j
    requires IsCandidate(x, base + Decimal(i)) && IsCandidate(y, base + Decimal(j))
    ensures x != y
  {
    if x == y {
      var a: nat :| x == Candidate(base + Decimal(i), a);
      var b: nat :| y == Candidate(base + Decimal(j), b);
      var p, q := Decimal(i), Decimal(j);
      NumeralThenTail(base, p, a, x);
      NumeralThenTail(base, q, b, y);
      // both numerals are the maximal underscore-free prefix of s
      assert '_' !in DIGITS;
      assert forall k :: 0 <= k < |p| ==> p[k] == x[|base| + k];
      assert forall k :: 0 <= k < |q| ==> q[k] == x[|base| + k];
      assert p == q;
      DecimalInjective(i, j);
    }
  }

  lemma NumeralThenTail(base: string, numeral: string, suffix: nat, x: string)
    requires x == Candidate(base + numeral, suffix)
    ensures |base| + |numeral| <= |x|
    ensures x[|base|..|base| + |numeral|] == numeral
    ensures |x| > |base| + |numeral| ==> x[|base| + |numeral|] == '_'
  {
    assert x[..|base + numeral|] == base + numeral;
    assert x[|base|..|base| + |numeral|] == (base + numeral)[|base|..];
  }

  /** The letters that tell the kinds of generated names apart. */
  lemma KindLetter(id: string, preferred: string)
    requires IsCandidate(id, preferred) && |preferred| > 16
    ensures |id| > 16 && id[15] == preferred[15] && id[16] == preferred[16]
  {
    assert id[..|preferred|] == preferred;
    assert id[15] == preferred[15] && id[16] == preferred[16];
  }
}
