/**
 * The numbers behind the two charts of `generate_visualizations`: the three
 * pie segments and the per-domain bar heights. Drawing and saving the images
 * is not modelled.
 */
module Charts {
  import opened Wrappers
  import opened Seqs
  import opened Report
  import opened Analysis

  /** `max(0, x)` */
  function Max0(x: int): (m: int)
    ensures m >= 0 && m >= x
    ensures m == x || m == 0
  {
    if x < 0 then 0 else x
  }

  /** The pie segments "SPF+DKIM Pass", "Failures" and "Unauthorized Emails". */
  datatype PieValues = PieValues(pass: int, failures: int, unauthorized: int)

  function PieOf(rs: seq<Record>): (pie: PieValues)
    ensures pie.pass >= 0 && pie.failures >= 0 && pie.unauthorized >= 0
  {
    var pass := PassedCount(rs);
    var unauthorized := UnauthorizedCount(rs);
    var failures := Max0(SumCounts(rs) - pass - unauthorized);
    PieValues(Max0(pass), Max0(failures), Max0(unauthorized))
  }

  predicate HasDomain(r: Record, d: Option<string>) {
    r.domain == d
  }

  /** `sum(r['Count'] for r in reports if r['Domain'] == domain)`, over all records. */
  function DomainTotal(rs: seq<Record>, d: Option<string>): int {
    SumCounts(Filter(rs, (r: Record) => HasDomain(r, d)))
  }

  /** The bar heights: one bar per failing domain. */
  function DomainCounts(rs: seq<Record>): (bars: map<Option<string>, int>)
    ensures bars.Keys == FailureDomains(rs)
  {
    map d | d in FailureDomains(rs) :: DomainTotal(rs, d)
  }

  /** No chart when all three segments are zero; otherwise the pie, and a bar chart when `bars` is not empty. */
  datatype Visualization = NoCharts | Charts(pie: PieValues, bars: map<Option<string>, int>)

  function Visualize(rs: seq<Record>): Visualization {
    var pie := PieOf(rs);
    if pie.pass + pie.failures + pie.unauthorized == 0 then NoCharts
    else Charts(pie, DomainCounts(rs))
  }

  /**
   * With non-negative counts the pie shows the same passed and unauthorized
   * counts as the summary and the bars the same failing domains.
   */
  lemma ChartsAgreeWithSummary(rs: seq<Record>)
    requires forall i :: 0 <= i < |rs| ==> rs[i].count >= 0
    requires SumCounts(rs) != 0
    ensures AnalyzeData(rs).Detailed? && Visualize(rs).Charts?
    ensures Visualize(rs).pie.pass == AnalyzeData(rs).summary.passCount
    ensures Visualize(rs).pie.unauthorized == AnalyzeData(rs).summary.unauthorizedCount
    ensures Visualize(rs).bars.Keys == AnalyzeData(rs).summary.domainsWithFailures
  {
    CountBounds(rs);
    PieTotal(rs);
  }

  /**
   * With non-negative counts the segments add up to the total, unless the
   * passed and unauthorized emails together exceed it (a record can be both);
   * then the failures segment is 0 and the sum is larger than the total.
   */
  lemma PieTotal(rs: seq<Record>)
    requires forall i :: 0 <= i < |rs| ==> rs[i].count >= 0
    ensures var pie := PieOf(rs);
      && pie.pass == PassedCount(rs)
      && pie.unauthorized == UnauthorizedCount(rs)
      && pie.pass + pie.failures + pie.unauthorized
         == if SumCounts(rs) >= PassedCount(rs) + UnauthorizedCount(rs) then SumCounts(rs)
            else PassedCount(rs) + UnauthorizedCount(rs)
  {
    CountBounds(rs);
  }

  /** With non-negative counts, charts are drawn exactly when the analysis has data. */
  lemma ChartsExactlyWithData(rs: seq<Record>)
    requires forall i :: 0 <= i < |rs| ==> rs[i].count >= 0
    ensures Visualize(rs).NoCharts? <==> AnalyzeData(rs).NoData?
  {
    CountBounds(rs);
    PieTotal(rs);
  }

  /**
   * A bar counts every email of its domain, the authorized ones included, not
   * only the emails that made the domain fail.
   */
  lemma BarCountsAllRecords(rs: seq<Record>, d: Option<string>)
    ensures DomainTotal(rs, d)
      == DomainTotal(Filter(rs, IsUnauthorized), d) + DomainTotal(Filter(rs, IsAuthorized), d)
  {
    var same := (r: Record) => HasDomain(r, d);
    SumCountsPartition(Filter(rs, same), IsUnauthorized, IsAuthorized);
    FilterCommute(rs, same, IsUnauthorized);
    FilterCommute(rs, same, IsAuthorized);
  }
}
