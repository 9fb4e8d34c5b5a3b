/**
 * The batch driver in `main`: parse every selected report, concatenate the
 * records, stop when nothing was parsed, and analyse the rest once.
 * Each selected file is given as the document read from it.
 */
module Pipeline {
  import opened Wrappers
  import opened Seqs
  import opened Report
  import opened Analysis

  /** `all_reports`: the records of every file, file after file, each in its document order. */
  function AllRecords(docs: seq<Document>): seq<Record> {
    FlatMap(docs, ParsedRecords)
  }

  /** The loop that grows `all_reports` with `extend`. */
  method CollectRecords(docs: seq<Document>) returns (all: seq<Record>)
    ensures all == AllRecords(docs)
  {
    all := [];
    var i := 0;
    while i < |docs|
      invariant 0 <= i <= |docs|
      invariant all == AllRecords(docs[..i])
    {
      assert docs[..i + 1][..i] == docs[..i];
      var reports := ParseReport(docs[i]);
      all := all + reports;
      i := i + 1;
    }
    assert docs[..i] == docs;
  }

  /** How a run of the tool ends. */
  datatype Outcome =
    | NoReportsSelected                            // "No reports selected for analysis."
    | NoDataParsed                                 // "No data parsed from the reports."
    | NoDataToAnalyse(records: seq<Record>)        // the records exist but their counts sum to 0
    | Analysed(records: seq<Record>, summary: Summary)
    | SummaryCrash(records: seq<Record>)           // the summary printer fails on the no-data string
    | DomainJoinCrash(records: seq<Record>)        // `', '.join` fails on a `None` failing domain

  /**
   * `main` as written, up to the summary it prints. When `analyze_data`
   * returns its no-data string, the summary loop calls `.items()` on that
   * string and the run ends with an uncaught `AttributeError`. When a failing
   * domain is `None` (a `header_from` without text), joining the domains with
   * `', '` raises an uncaught `TypeError`.
   */
  function MainAsWritten(docs: seq<Document>): (out: Outcome)
    ensures out.SummaryCrash? <==> docs != [] && AllRecords(docs) != [] && SumCounts(AllRecords(docs)) == 0
    ensures out.DomainJoinCrash? <==>
      docs != [] && SumCounts(AllRecords(docs)) != 0 && None in FailureDomains(AllRecords(docs))
    ensures out.Analysed? ==> out.records == AllRecords(docs) && AnalyzeData(out.records) == Detailed(out.summary)
  {
    if docs == [] then NoReportsSelected
    else
      var all := AllRecords(docs);
      if all == [] then NoDataParsed
      else match AnalyzeData(all)
        case NoData => SummaryCrash(all)
        case Detailed(summary) =>
          if None in summary.domainsWithFailures then DomainJoinCrash(all) else Analysed(all, summary)
  }

  /**
   * The driver with the no-data result treated as the terminal state it is
   * meant to be: nothing is analysed without records, and a zero total ends
   * the run without a summary instead of a crash. Everything else, the
   * `TypeError` on a `None` domain included, is as in `main`.
   */
  method RunPipeline(docs: seq<Document>) returns (out: Outcome)
    ensures out.NoReportsSelected? <==> docs == []
    ensures out.NoDataParsed? <==> docs != [] && AllRecords(docs) == []
    ensures out.NoDataToAnalyse? <==> AllRecords(docs) != [] && SumCounts(AllRecords(docs)) == 0
    ensures out.NoDataToAnalyse? ==> out.records == AllRecords(docs)
    ensures out.DomainJoinCrash? <==>
      docs != [] && SumCounts(AllRecords(docs)) != 0 && None in FailureDomains(AllRecords(docs))
    ensures out.Analysed? ==> out.records == AllRecords(docs) && AnalyzeData(out.records) == Detailed(out.summary)
    ensures !out.SummaryCrash?
    ensures out != MainAsWritten(docs) <==> MainAsWritten(docs).SummaryCrash?
  {
    if docs == [] {
      return NoReportsSelected;
    }
    var all := CollectRecords(docs);
    if all == [] {
      return NoDataParsed;
    }
    var analysis := AnalyzeData(all);
    if analysis.NoData? {
      return NoDataToAnalyse(all);
    }
    if None in analysis.summary.domainsWithFailures {
      return DomainJoinCrash(all);
    }
    out := Analysed(all, analysis.summary);
  }

  /** A file that fails to parse contributes nothing, wherever it stands in the batch. */
  lemma FailingFileContributesNothing(docs: seq<Document>, i: nat)
    requires i < |docs| && ParsedRecords(docs[i]) == []
    ensures AllRecords(docs) == AllRecords(docs[..i] + docs[i + 1..])
  {
    FlatMapDropEmpty(docs, i, ParsedRecords);
  }

  /** Three files, the second malformed: the run analyses the records of the first and the third. */
  lemma MalformedMiddleFile(first: Document, third: Document)
    ensures AllRecords([first, Malformed, third]) == ParsedRecords(first) + ParsedRecords(third)
  {
    FailingFileContributesNothing([first, Malformed, third], 1);
    assert [first, Malformed, third][..1] + [first, Malformed, third][2..] == [first] + [third];
    FlatMapAppend([first], [third], ParsedRecords);
    FlatMapSingle(first, ParsedRecords);
    FlatMapSingle(third, ParsedRecords);
  }

  /** The analysis of a batch does not depend on the order in which its files are read. */
  lemma FileOrderIrrelevant(a: seq<Document>, b: seq<Document>)
    requires multiset(a) == multiset(b)
    ensures AnalyzeData(AllRecords(a)) == AnalyzeData(AllRecords(b))
  {
    FlatMapPermutation(a, b, ParsedRecords);
    OrderIndependent(AllRecords(a), AllRecords(b));
  }

  /**
   * One report holding one record whose count is "0" is parsed into one
   * record, so `main` reaches the analysis, gets the no-data string and crashes.
   */
  lemma ZeroCountCrashesMain()
    ensures var r := Record(Some("192.0.2.1"), Some("pass"), Some("pass"), Some("none"), 0, Some("example.com"));
      MainAsWritten([WellFormed([NodeOf(r)])]) == SummaryCrash([r])
  {
    var r := Record(Some("192.0.2.1"), Some("pass"), Some("pass"), Some("none"), 0, Some("example.com"));
    ParseDocumentOf([r]);
    assert seq(1, i requires 0 <= i < 1 => NodeOf([r][i])) == [NodeOf(r)];
    FlatMapSingle(WellFormed([NodeOf(r)]), ParsedRecords);
    SumCountsSingle(r);
  }

  /**
   * One report holding one unauthorized record whose `header_from` has no
   * text: the failing domains hold `None`, and joining them crashes `main`.
   */
  lemma NoneDomainCrashesMain()
    ensures var r := Record(Some("192.0.2.1"), Some("pass"), Some("pass"), Some("none"), 1, None);
      MainAsWritten([WellFormed([NodeOf(r)])]) == DomainJoinCrash([r])
  {
    var r := Record(Some("192.0.2.1"), Some("pass"), Some("pass"), Some("none"), 1, None);
    ParseDocumentOf([r]);
    assert seq(1, i requires 0 <= i < 1 => NodeOf([r][i])) == [NodeOf(r)];
    FlatMapSingle(WellFormed([NodeOf(r)]), ParsedRecords);
    SumCountsSingle(r);
    assert Filter([r], IsUnauthorized) == [r];
    assert r in Filter([r], IsUnauthorized);
  }
}
