/**
 * `analyze_data`: totals over the merged records, the fail rate, the failing
 * domains and the policy recommendation.
 */
module Analysis {
  import opened Wrappers
  import opened Seqs
  import opened Report

  const NoDataMessage := "No data available for analysis."
  const RejectAdvice := "Recommend 'reject' policy."
  const QuarantineAdvice := "Recommend 'quarantine' policy."
  const NoneAdvice := "Stay at 'none' policy and investigate further."

  /** SPF and DKIM both evaluated to "pass"; a partial pass is not a pass. */
  predicate IsAuthenticated(r: Record) {
    r.spf == Some("pass") && r.dkim == Some("pass")
  }

  /** The complement of `IsAuthenticated`: the records `failed_count` counts. */
  predicate IsNotAuthenticated(r: Record) {
    !IsAuthenticated(r)
  }

  /** `r['Alignment'] != 'pass'`; a missing text (`None`) is not "pass" either. */
  predicate IsUnauthorized(r: Record) {
    r.alignment != Some("pass")
  }

  /** The complement of `IsUnauthorized`: alignment "pass". */
  predicate IsAuthorized(r: Record) {
    !IsUnauthorized(r)
  }

  /** `sum(r['Count'] for r in rs)` */
  function SumCounts(rs: seq<Record>): int {
    if rs == [] then 0 else rs[0].count + SumCounts(rs[1..])
  }

  function PassedCount(rs: seq<Record>): int {
    SumCounts(Filter(rs, IsAuthenticated))
  }

  /** Computed by the source but not part of its result. */
  function FailedCount(rs: seq<Record>): int {
    SumCounts(rs) - PassedCount(rs)
  }

  function UnauthorizedCount(rs: seq<Record>): int {
    SumCounts(Filter(rs, IsUnauthorized))
  }

  /** `set(r['Domain'] for r in unauthorized_sources)` */
  function FailureDomains(rs: seq<Record>): set<Option<string>> {
    set r | r in Filter(rs, IsUnauthorized) :: r.domain
  }

  /** `fail_rate = 100 - (passed / total) * 100`, in exact arithmetic. */
  function FailRate(passed: int, total: int): real
    requires total != 0
  {
    100.0 - (passed as real / total as real) * 100.0
  }

  /** The if/elif/else chain: the `reject` test comes first. */
  function Recommendation(failRate: real, unauthorized: int): (advice: string)
    ensures advice == RejectAdvice <==> failRate < 5.0 && unauthorized < 2
    ensures advice == QuarantineAdvice <==> !(failRate < 5.0 && unauthorized < 2) && failRate < 15.0
    ensures advice == NoneAdvice <==> !(failRate < 5.0 && unauthorized < 2) && !(failRate < 15.0)
  {
    if failRate < 5.0 && unauthorized < 2 then RejectAdvice
    else if failRate < 15.0 then QuarantineAdvice
    else NoneAdvice
  }

  /** The six-key dictionary `analyze_data` returns. */
  datatype Summary = Summary(
    totalEmails: int,
    passCount: int,
    unauthorizedCount: int,
    failRate: real,
    domainsWithFailures: set<Option<string>>,
    recommendation: string)

  /** Either the no-data string (`NoDataMessage`) or the summary. */
  datatype Analysis = NoData | Detailed(summary: Summary)

  function AnalyzeData(rs: seq<Record>): (a: Analysis)
    ensures a.NoData? <==> SumCounts(rs) == 0
  {
    var total := SumCounts(rs);
    if total == 0 then NoData
    else
      var passed := PassedCount(rs);
      var unauthorized := UnauthorizedCount(rs);
      var failRate := FailRate(passed, total);
      Detailed(Summary(total, passed, unauthorized, failRate, FailureDomains(rs),
                       Recommendation(failRate, unauthorized)))
  }

  // ---------------------------------------------------------------------------
  // Sums

  lemma {:induction false} SumCountsAppend(a: seq<Record>, b: seq<Record>)
    ensures SumCounts(a + b) == SumCounts(a) + SumCounts(b)
  {
    if a == [] {
      assert a + b == b;
    } else {
      SumCountsAppend(a[1..], b);
      assert (a + b)[1..] == a[1..] + b;
    }
  }

  lemma SumCountsSingle(r: Record)
    ensures SumCounts([r]) == r.count
  {
    assert [r][1..] == [];
  }

  /** The total does not depend on the order of the records. */
  lemma {:induction false} SumCountsPermutation(a: seq<Record>, b: seq<Record>)
    requires multiset(a) == multiset(b)
    ensures SumCounts(a) == SumCounts(b)
    decreases |a|
  {
    if a != [] {
      var x := a[0];
      assert x in multiset(b);
      var j :| 0 <= j < |b| && b[j] == x;
      var rest := b[..j] + b[j + 1..];
      assert b == b[..j] + [x] + b[j + 1..];
      assert a == [x] + a[1..];
      assert multiset(b) == multiset(b[..j]) + multiset([x]) + multiset(b[j + 1..]);
      assert multiset(rest) == multiset(b[..j]) + multiset(b[j + 1..]);
      assert multiset(rest) == multiset(b) - multiset([x]);
      assert multiset(a[1..]) == multiset(a) - multiset([x]);
      SumCountsPermutation(a[1..], rest);
      SumCountsAppend(b[..j] + [x], b[j + 1..]);
      SumCountsAppend(b[..j], [x]);
      SumCountsAppend(b[..j], b[j + 1..]);
    }
  }

  /** Every record counts once, on the passing side or on the other. */
  lemma {:induction false} SumCountsPartition(rs: seq<Record>, p: Record -> bool, q: Record -> bool)
    requires forall r :: q(r) == !p(r)
    ensures SumCounts(rs) == SumCounts(Filter(rs, p)) + SumCounts(Filter(rs, q))
  {
    if rs != [] {
      SumCountsPartition(rs[1..], p, q);
      var r := rs[0];
      SumCountsSingle(r);
      SumCountsAppend([r], Filter(rs[1..], p));
      SumCountsAppend([r], Filter(rs[1..], q));
      if p(r) {
        assert Filter(rs, p) == [r] + Filter(rs[1..], p);
        assert Filter(rs, q) == Filter(rs[1..], q);
      } else {
        assert Filter(rs, p) == Filter(rs[1..], p);
        assert Filter(rs, q) == [r] + Filter(rs[1..], q);
      }
    }
  }

  // ---------------------------------------------------------------------------
  // Properties of the summary

  /** `passed_count + failed_count == total_emails`, where the failed records are those not both SPF and DKIM pass. */
  lemma Conservation(rs: seq<Record>)
    ensures FailedCount(rs) == SumCounts(Filter(rs, IsNotAuthenticated))
    ensures PassedCount(rs) + FailedCount(rs) == SumCounts(rs)
  {
    SumCountsPartition(rs, IsAuthenticated, IsNotAuthenticated);
  }

  /**
   * What one more record adds: its count to the total, to the passed count
   * only when SPF and DKIM both pass, to the unauthorized count and its domain
   * to the failing domains exactly when its alignment is not "pass".
   */
  lemma RecordContribution(rs: seq<Record>, r: Record)
    ensures SumCounts(rs + [r]) == SumCounts(rs) + r.count
    ensures PassedCount(rs + [r]) == PassedCount(rs) + (if IsAuthenticated(r) then r.count else 0)
    ensures UnauthorizedCount(rs + [r]) == UnauthorizedCount(rs) + (if IsUnauthorized(r) then r.count else 0)
    ensures FailureDomains(rs + [r]) == FailureDomains(rs) + (if IsUnauthorized(r) then {r.domain} else {})
  {
    CountsAdditive(rs, [r]);
    SumCountsSingle(r);
    assert Filter([r], IsAuthenticated) == if IsAuthenticated(r) then [r] else [];
    assert Filter([r], IsUnauthorized) == if IsUnauthorized(r) then [r] else [];
    if IsUnauthorized(r) {
      assert r in Filter([r], IsUnauthorized);
    }
  }

  /** The statistics of a concatenation combine those of its parts. */
  lemma CountsAdditive(a: seq<Record>, b: seq<Record>)
    ensures SumCounts(a + b) == SumCounts(a) + SumCounts(b)
    ensures PassedCount(a + b) == PassedCount(a) + PassedCount(b)
    ensures UnauthorizedCount(a + b) == UnauthorizedCount(a) + UnauthorizedCount(b)
    ensures FailureDomains(a + b) == FailureDomains(a) + FailureDomains(b)
  {
    SumCountsAppend(a, b);
    FilterAppend(a, b, IsAuthenticated);
    SumCountsAppend(Filter(a, IsAuthenticated), Filter(b, IsAuthenticated));
    FilterAppend(a, b, IsUnauthorized);
    SumCountsAppend(Filter(a, IsUnauthorized), Filter(b, IsUnauthorized));
    FailureDomainsAppend(a, b);
  }

  lemma FailureDomainsAppend(a: seq<Record>, b: seq<Record>)
    ensures FailureDomains(a + b) == FailureDomains(a) + FailureDomains(b)
  {
    var fa, fb := Filter(a, IsUnauthorized), Filter(b, IsUnauthorized);
    FilterAppend(a, b, IsUnauthorized);
    assert Filter(a + b, IsUnauthorized) == fa + fb;
    forall d ensures d in FailureDomains(a + b) <==> d in FailureDomains(a) + FailureDomains(b) {
      if d in FailureDomains(a + b) {
        var r: Record :| r in fa + fb && r.domain == d;
        assert r in fa || r in fb;
      }
      if d in FailureDomains(a) {
        var r: Record :| r in fa && r.domain == d;
        assert r in fa + fb;
      }
      if d in FailureDomains(b) {
        var r: Record :| r in fb && r.domain == d;
        assert r in fa + fb;
      }
    }
  }

  /**
   * A domain is reported as failing exactly when some record with that domain
   * has an alignment other than "pass", whatever that record's count (zero included).
   */
  lemma FailureDomainsMembers(rs: seq<Record>, d: Option<string>)
    ensures d in FailureDomains(rs) <==> exists i :: 0 <= i < |rs| && IsUnauthorized(rs[i]) && rs[i].domain == d
  {
    if d in FailureDomains(rs) {
      var r :| r in Filter(rs, IsUnauthorized) && r.domain == d;
      FilterMembership(rs, IsUnauthorized, r);
      var i :| 0 <= i < |rs| && rs[i] == r;
    }
    if exists i :: 0 <= i < |rs| && IsUnauthorized(rs[i]) && rs[i].domain == d {
      var i :| 0 <= i < |rs| && IsUnauthorized(rs[i]) && rs[i].domain == d;
      FilterMembership(rs, IsUnauthorized, rs[i]);
    }
  }

  /** The fail rate is the failed share of the total, in percent. */
  lemma FailRateIsFailedShare(rs: seq<Record>)
    requires SumCounts(rs) != 0
    ensures FailRate(PassedCount(rs), SumCounts(rs)) == (FailedCount(rs) as real / SumCounts(rs) as real) * 100.0
  {
    RateIsShare(PassedCount(rs), SumCounts(rs));
  }

  lemma RateIsShare(passed: int, total: int)
    requires total != 0
    ensures FailRate(passed, total) == ((total - passed) as real / total as real) * 100.0
  {
    var t := total as real;
    var p := passed as real;
    assert (total - passed) as real == t - p;
    assert (t - p) / t == t / t - p / t;
    assert t / t == 1.0;
  }

  /**
   * With the usual non-negative counts: the passed and unauthorized counts lie
   * between 0 and the total, and the fail rate between 0 and 100 percent.
   */
  lemma CountBounds(rs: seq<Record>)
    requires forall i :: 0 <= i < |rs| ==> rs[i].count >= 0
    ensures 0 <= PassedCount(rs) <= SumCounts(rs)
    ensures 0 <= UnauthorizedCount(rs) <= SumCounts(rs)
    ensures SumCounts(rs) != 0 ==> 0.0 <= FailRate(PassedCount(rs), SumCounts(rs)) <= 100.0
  {
    SumCountsPartition(rs, IsAuthenticated, IsNotAuthenticated);
    SumCountsPartition(rs, IsUnauthorized, IsAuthorized);
    NonNegativeSum(rs);
    FilteredNonNegativeSum(rs, IsAuthenticated);
    FilteredNonNegativeSum(rs, IsNotAuthenticated);
    FilteredNonNegativeSum(rs, IsUnauthorized);
    FilteredNonNegativeSum(rs, IsAuthorized);
    if SumCounts(rs) != 0 {
      RateInRange(PassedCount(rs), SumCounts(rs));
    }
  }

  /** A pass count between 0 and a positive total gives a fail rate between 0 and 100. */
  lemma RateInRange(passed: int, total: int)
    requires 0 <= passed <= total && total > 0
    ensures 0.0 <= FailRate(passed, total) <= 100.0
  {
    var t := total as real;
    var p := passed as real;
    assert 0.0 <= p / t;
    assert p / t <= t / t == 1.0;
  }

  lemma {:induction false} NonNegativeSum(rs: seq<Record>)
    requires forall i :: 0 <= i < |rs| ==> rs[i].count >= 0
    ensures SumCounts(rs) >= 0
  {
    if rs != [] {
      assert forall i :: 0 <= i < |rs[1..]| ==> rs[1..][i] == rs[i + 1];
      NonNegativeSum(rs[1..]);
    }
  }

  lemma FilteredNonNegativeSum(rs: seq<Record>, p: Record -> bool)
    requires forall i :: 0 <= i < |rs| ==> rs[i].count >= 0
    ensures SumCounts(Filter(rs, p)) >= 0
  {
    var f := Filter(rs, p);
    forall i | 0 <= i < |f| ensures f[i].count >= 0 {
      FilterMembership(rs, p, f[i]);
    }
    NonNegativeSum(f);
  }

  /** For a positive total, the two rate thresholds in whole numbers: 5% is one in twenty, 15% three in twenty. */
  lemma RateThresholds(passed: int, total: int)
    requires total > 0
    ensures FailRate(passed, total) < 5.0 <==> 20 * (total - passed) < total
    ensures FailRate(passed, total) < 15.0 <==> 20 * (total - passed) < 3 * total
  {
    RateBelow(passed, total, 5);
    RateBelow(passed, total, 15);
  }

  /** For a positive total, the fail rate is below `k` percent exactly when `100 * failed < k * total`. */
  lemma RateBelow(passed: int, total: int, k: int)
    requires total > 0
    ensures FailRate(passed, total) < k as real <==> 100 * (total - passed) < k * total
  {
    var t := total as real;
    var rate := FailRate(passed, total);
    assert (passed as real / t) * t == passed as real;
    assert rate * t == 100.0 * t - 100.0 * passed as real;
    assert rate * t == (100 * (total - passed)) as real;
    ScaleByPositive(k as real, rate, t);
    assert (k * total) as real == k as real * t;
  }

  lemma ScaleByPositive(x: real, y: real, t: real)
    requires t > 0.0
    ensures x > y <==> x * t > y * t
  {
    if x > y {
      assert (x - y) * t > 0.0;
    } else {
      assert (y - x) * t >= 0.0;
    }
  }

  /**
   * The recommendation in whole numbers, for a positive total: `reject`
   * exactly when fewer than one email in twenty fails and fewer than two are
   * unauthorized, `quarantine` when otherwise fewer than three in twenty fail.
   */
  lemma RecommendationInCounts(rs: seq<Record>)
    requires SumCounts(rs) > 0
    ensures AnalyzeData(rs).Detailed?
    ensures var advice := AnalyzeData(rs).summary.recommendation;
      && (advice == RejectAdvice <==> 20 * FailedCount(rs) < SumCounts(rs) && UnauthorizedCount(rs) < 2)
      && (advice == QuarantineAdvice <==>
            !(20 * FailedCount(rs) < SumCounts(rs) && UnauthorizedCount(rs) < 2)
            && 20 * FailedCount(rs) < 3 * SumCounts(rs))
  {
    RateThresholds(PassedCount(rs), SumCounts(rs));
  }

  /** How strict a recommended policy is: `none` 0, `quarantine` 1, `reject` 2. */
  function Strictness(advice: string): nat {
    if advice == RejectAdvice then 2 else if advice == QuarantineAdvice then 1 else 0
  }

  /** More failures or more unauthorized email never lead to a stricter policy. */
  lemma RecommendationMonotone(rate1: real, unauthorized1: int, rate2: real, unauthorized2: int)
    requires rate1 <= rate2 && unauthorized1 <= unauthorized2
    ensures Strictness(Recommendation(rate2, unauthorized2)) <= Strictness(Recommendation(rate1, unauthorized1))
  {
  }

  /** The four threshold cases worked through: 4.9 with 1, 4.9 with 2, 14.9 and 20 percent. */
  lemma ThresholdExamples(unauthorized: int)
    ensures Recommendation(4.9, 1) == RejectAdvice
    ensures Recommendation(4.9, 2) == QuarantineAdvice
    ensures Recommendation(14.9, unauthorized) == QuarantineAdvice
    ensures Recommendation(20.0, unauthorized) == NoneAdvice
  {
  }

  /** For any reordering of the records, the analysis is the same. */
  lemma OrderIndependent(a: seq<Record>, b: seq<Record>)
    requires multiset(a) == multiset(b)
    ensures AnalyzeData(a) == AnalyzeData(b)
  {
    SumCountsPermutation(a, b);
    FilterPermutation(a, b, IsAuthenticated);
    SumCountsPermutation(Filter(a, IsAuthenticated), Filter(b, IsAuthenticated));
    FilterPermutation(a, b, IsUnauthorized);
    SumCountsPermutation(Filter(a, IsUnauthorized), Filter(b, IsUnauthorized));
    forall r ensures r in Filter(a, IsUnauthorized) <==> r in Filter(b, IsUnauthorized) {
      FilterMembership(a, IsUnauthorized, r);
      FilterMembership(b, IsUnauthorized, r);
      assert r in a <==> r in multiset(a);
      assert r in b <==> r in multiset(b);
    }
    assert FailureDomains(a) == FailureDomains(b);
  }
}
