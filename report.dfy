/**
 * Record extraction from one DMARC aggregate report (the reporting format of
 * RFC 7489, Appendix C).
 *
 * The XML text itself is not parsed here: a document is either `Malformed`
 * (the XML parser raised) or the sequence of its `<record>` elements in
 * document order. Of each record only the six sub-elements the tool looks up
 * are kept; each may be absent (`find` returned `None`), and a present one may
 * have no text (`.text` is `None`).
 */
module Report {
  import opened Wrappers
  import opened PyInt
  import opened Seqs

  /** A looked-up sub-element; only its text matters. */
  datatype Element = Element(text: Option<string>)

  /** One `<record>` element, by the paths the tool queries. */
  datatype RecordNode = RecordNode(
    sourceIp: Option<Element>,     // row/source_ip
    spf: Option<Element>,          // row/policy_evaluated/spf
    dkim: Option<Element>,         // row/policy_evaluated/dkim
    disposition: Option<Element>,  // row/policy_evaluated/disposition
    count: Option<Element>,        // row/count
    headerFrom: Option<Element>)   // identifiers/header_from

  datatype Document = Malformed | WellFormed(records: seq<RecordNode>)

  /**
   * The dictionary built per record, keyed "Source IP", "SPF Pass",
   * "DKIM Pass", "Alignment", "Count" and "Domain". A string field is `None`
   * when its element had no text.
   */
  datatype Record = Record(
    sourceIp: Option<string>,
    spf: Option<string>,
    dkim: Option<string>,
    alignment: Option<string>,
    count: int,
    domain: Option<string>)

  const UnknownDomain := "Unknown"

  /**
   * The record read from one node, or `None` when reading it raises: a
   * required element is absent (`.text` on `None`), the count element has no
   * text (`int(None)`) or its text is not an integer.
   */
  function RecordOf(n: RecordNode): Option<Record> {
    if n.sourceIp.None? || n.spf.None? || n.dkim.None? || n.disposition.None? || n.count.None? then None
    else match n.count.value.text
      case None => None
      case Some(text) =>
        match ParseInt(text)
        case None => None
        case Some(c) =>
          Some(Record(
            n.sourceIp.value.text,
            n.spf.value.text,
            n.dkim.value.text,
            n.disposition.value.text,
            c,
            if n.headerFrom.None? then Some(UnknownDomain) else n.headerFrom.value.text))
  }

  predicate Readable(n: RecordNode) {
    RecordOf(n).Some?
  }

  /** The records of a node sequence, or `None` as soon as one node cannot be read. */
  function ExtractRecords(ns: seq<RecordNode>): Option<seq<Record>> {
    MapAll(ns, RecordOf)
  }

  /** What `parse_dmarc_report` returns for a document: every record, or `[]` on any error. */
  function ParsedRecords(doc: Document): seq<Record> {
    match doc
    case Malformed => []
    case WellFormed(ns) =>
      match ExtractRecords(ns)
      case None => []
      case Some(rs) => rs
  }

  /** `parse_dmarc_report`: the loop over the `<record>` elements, appending one dictionary each. */
  method ParseReport(doc: Document) returns (results: seq<Record>)
    ensures results == ParsedRecords(doc)
  {
    if doc.Malformed? {
      return [];
    }
    var nodes := doc.records;
    results := [];
    var i := 0;
    while i < |nodes|
      invariant 0 <= i <= |nodes|
      invariant ExtractRecords(nodes[..i]) == Some(results)
    {
      MapAllStep(nodes, i, RecordOf);
      var rec := RecordOf(nodes[i]);
      if rec.None? {
        MapAllFails(nodes, RecordOf);
        return [];
      }
      results := results + [rec.value];
      i := i + 1;
    }
    assert nodes[..i] == nodes;
  }

  /** Extraction succeeds exactly when every node is readable, and then maps nodes to records one to one. */
  lemma ExtractRecordsSpec(ns: seq<RecordNode>)
    ensures ExtractRecords(ns).None? <==> exists i :: 0 <= i < |ns| && !Readable(ns[i])
    ensures ExtractRecords(ns).Some? ==>
      |ExtractRecords(ns).value| == |ns| &&
      forall i :: 0 <= i < |ns| ==> RecordOf(ns[i]) == Some(ExtractRecords(ns).value[i])
  {
    MapAllFails(ns, RecordOf);
    MapAllSucceeds(ns, RecordOf);
  }

  /**
   * A well-formed document whose records are all readable yields one record
   * per `<record>`, in document order, read from the matching node.
   */
  lemma ExtractionShape(ns: seq<RecordNode>)
    requires forall i :: 0 <= i < |ns| ==> Readable(ns[i])
    ensures |ParsedRecords(WellFormed(ns))| == |ns|
    ensures forall i :: 0 <= i < |ns| ==> RecordOf(ns[i]) == Some(ParsedRecords(WellFormed(ns))[i])
  {
    ExtractRecordsSpec(ns);
  }

  /** One unreadable record, wherever it stands, empties the whole file's result. */
  lemma AllOrNothing(ns: seq<RecordNode>, k: nat)
    requires k < |ns| && !Readable(ns[k])
    ensures ParsedRecords(WellFormed(ns)) == []
  {
    ExtractRecordsSpec(ns);
  }

  /** A file yields either nothing or exactly one record per `<record>` element. */
  lemma ResultSize(doc: Document)
    ensures doc.Malformed? ==> ParsedRecords(doc) == []
    ensures doc.WellFormed? ==> |ParsedRecords(doc)| == 0 || |ParsedRecords(doc)| == |doc.records|
  {
    if doc.WellFormed? {
      ExtractRecordsSpec(doc.records);
    }
  }

  /**
   * How one node is read: a required element that is present without text
   * gives `None` in that field and is not an error; only the count must have
   * integer text; the domain is "Unknown" when `header_from` is absent.
   */
  lemma RecordFields(n: RecordNode)
    ensures Readable(n) <==>
      && n.sourceIp.Some? && n.spf.Some? && n.dkim.Some? && n.disposition.Some? && n.count.Some?
      && n.count.value.text.Some? && ParseInt(n.count.value.text.value).Some?
    ensures Readable(n) ==>
      var r := RecordOf(n).value;
      && r.sourceIp == n.sourceIp.value.text
      && r.spf == n.spf.value.text
      && r.dkim == n.dkim.value.text
      && r.alignment == n.disposition.value.text
      && Some(r.count) == ParseInt(n.count.value.text.value)
      && r.domain == (if n.headerFrom.None? then Some(UnknownDomain) else n.headerFrom.value.text)
  {
  }

  /** The node a report would carry for a record: every element present, the count written by `str`. */
  function NodeOf(r: Record): RecordNode {
    RecordNode(
      Some(Element(r.sourceIp)), Some(Element(r.spf)), Some(Element(r.dkim)),
      Some(Element(r.alignment)), Some(Element(Some(ShowInt(r.count)))),
      Some(Element(r.domain)))
  }

  /** Reading a record back from its node gives the record. */
  lemma ReadNodeOf(r: Record)
    ensures RecordOf(NodeOf(r)) == Some(r)
  {
    ParseShowInt(r.count);
  }

  /** Any record sequence is recovered from the document that lists its nodes. */
  lemma {:induction false} ParseDocumentOf(rs: seq<Record>)
    ensures ParsedRecords(WellFormed(seq(|rs|, i requires 0 <= i < |rs| => NodeOf(rs[i])))) == rs
  {
    var ns := seq(|rs|, i requires 0 <= i < |rs| => NodeOf(rs[i]));
    forall i | 0 <= i < |ns| ensures RecordOf(ns[i]) == Some(rs[i]) {
      ReadNodeOf(rs[i]);
    }
    ExtractRecordsSpec(ns);
    assert ExtractRecords(ns).Some?;
    assert ExtractRecords(ns).value == rs;
  }
}
