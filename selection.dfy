/**
 * The pure part of `select_reports`: which directory entries are offered,
 * how the typed answer is split into choices, and which paths the choices
 * select. Listing the directory and reading the answer are left to the
 * caller, who passes both in.
 */
module Selection {
  import opened Wrappers
  import opened Seqs
  import opened PyInt

  const MaxReports := 100

  /** `f.endswith('.xml')` */
  predicate IsXmlName(name: string) {
    |name| >= 4 && name[|name| - 4..] == ".xml"
  }

  /** The entries offered, numbered from 1 in listing order. */
  function XmlFiles(listing: seq<string>): seq<string> {
    Filter(listing, IsXmlName)
  }

  /** `s.split(',')`: always at least one piece, none containing a comma. */
  function Split(s: string): (parts: seq<string>)
    ensures |parts| >= 1
    ensures forall i :: 0 <= i < |parts| ==> ',' !in parts[i]
  {
    if s == [] then [""]
    else if s[0] == ',' then [""] + Split(s[1..])
    else
      var rest := Split(s[1..]);
      [[s[0]] + rest[0]] + rest[1..]
  }

  /** `','.join(parts)` */
  function Join(parts: seq<string>): string
    requires |parts| >= 1
  {
    if |parts| == 1 then parts[0] else parts[0] + "," + Join(parts[1..])
  }

  /** Splitting loses nothing: joining the pieces with commas gives the answer back. */
  lemma {:induction false} JoinSplit(s: string)
    ensures Join(Split(s)) == s
  {
    if s != [] {
      JoinSplit(s[1..]);
      var rest := Split(s[1..]);
      if s[0] == ',' {
        assert ([""] + rest)[1..] == rest;
      } else if |rest| > 1 {
        assert ([[s[0]] + rest[0]] + rest[1..])[1..] == rest[1..];
      }
    }
  }

  /** Comma-free pieces are recovered by splitting their comma-joined text. */
  lemma {:induction false} SplitJoin(parts: seq<string>)
    requires |parts| >= 1
    requires forall i :: 0 <= i < |parts| ==> ',' !in parts[i]
    ensures Split(Join(parts)) == parts
  {
    if |parts| == 1 {
      SplitWord(parts[0], []);
    } else {
      SplitJoin(parts[1..]);
      SplitWord(parts[0], Join(parts[1..]));
      assert parts == [parts[0]] + parts[1..];
    }
  }

  /**
   * A comma-free word is one piece; followed by a comma, it is the first
   * piece and the rest is split on its own.
   */
  lemma {:induction false} SplitWord(w: string, t: string)
    requires ',' !in w
    ensures Split(w) == [w]
    ensures Split(w + "," + t) == [w] + Split(t)
  {
    if w == [] {
      assert w + "," + t == [','] + t;
      assert ([','] + t)[1..] == t;
    } else {
      SplitWord(w[1..], t);
      assert (w + "," + t)[1..] == w[1..] + "," + t;
      assert [w[0]] + w[1..] == w;
    }
  }

  /** `int(choice.strip()) - 1` when it parses and is a valid index into `count` entries. */
  function ChoiceIndex(choice: string, count: nat): (k: Option<nat>)
    ensures k.Some? ==> k.value < count && ParseIntStripped(choice) == Some(k.value + 1)
    ensures forall n :: ParseIntStripped(choice) == Some(n) && 1 <= n <= count ==> k == Some(n - 1)
  {
    match ParseIntStripped(choice)
    case None => None
    case Some(n) => if 1 <= n <= count then Some(n - 1) else None
  }

  /** Typing the number shown beside an entry (`str(j + 1)`) chooses that entry. */
  lemma TypedNumberPicks(j: nat, count: nat)
    requires j < count
    ensures ChoiceIndex(ShowInt(j + 1), count) == Some(j)
  {
    var d := ShowIntDigits(j + 1);
    assert !IsSpace(d[0]) && !IsSpace(d[|d| - 1]);
    StripUnchanged(d);
  }

  /** `os.path.join(folder, name)` with POSIX separators. */
  function PathJoin(folder: string, name: string): string {
    if |name| > 0 && name[0] == '/' then name
    else if folder == [] || folder[|folder| - 1] == '/' then folder + name
    else folder + "/" + name
  }

  /** The path one piece of the answer picks, if it is a valid choice. */
  function Pick(choice: string, folder: string, files: seq<string>): Option<string> {
    match ChoiceIndex(choice, |files|)
    case None => None
    case Some(k) => Some(PathJoin(folder, files[k]))
  }

  /** The paths picked by the pieces of the answer, in the order typed; invalid pieces pick nothing. */
  function Chosen(pieces: seq<string>, folder: string, files: seq<string>): seq<string> {
    Collect(pieces, (choice: string) => Pick(choice, folder, files))
  }

  /** What `select_reports` returns, given the directory listing and the typed answer. */
  function SelectedReports(folder: string, listing: seq<string>, answer: string): seq<string> {
    var files := XmlFiles(listing);
    if files == [] then [] else Take(Chosen(Split(answer), folder, files), MaxReports)
  }

  /** `select_reports`: the loop over the comma-separated choices, then `[:100]`. */
  method SelectReports(folder: string, listing: seq<string>, answer: string) returns (selected: seq<string>)
    ensures selected == SelectedReports(folder, listing, answer)
  {
    var files := XmlFiles(listing);
    if files == [] {
      return [];
    }
    var pieces := Split(answer);
    selected := [];
    var i := 0;
    while i < |pieces|
      invariant 0 <= i <= |pieces|
      invariant selected == Chosen(pieces[..i], folder, files)
    {
      ChosenStep(pieces, i, folder, files);
      var path := Pick(pieces[i], folder, files);
      if path.Some? {
        selected := selected + [path.value];
      }
      i := i + 1;
    }
    assert pieces[..i] == pieces;
    selected := Take(selected, MaxReports);
  }

  /** One more piece of the answer adds the path it picks, if any. */
  lemma ChosenStep(pieces: seq<string>, i: nat, folder: string, files: seq<string>)
    requires i < |pieces|
    ensures Chosen(pieces[..i + 1], folder, files) == Chosen(pieces[..i], folder, files)
      + (match Pick(pieces[i], folder, files) case None => [] case Some(path) => [path])
  {
    assert pieces[..i + 1][..i] == pieces[..i];
  }

  /** Every chosen path joins the folder with one of the offered entries. */
  lemma ChosenPaths(pieces: seq<string>, folder: string, files: seq<string>, path: string)
    requires path in Chosen(pieces, folder, files)
    ensures exists k :: 0 <= k < |files| && path == PathJoin(folder, files[k])
  {
    var pick := (choice: string) => Pick(choice, folder, files);
    CollectMembers(pieces, pick, path);
    var i :| 0 <= i < |pieces| && pick(pieces[i]) == Some(path);
    var k := ChoiceIndex(pieces[i], |files|).value;
    assert path == PathJoin(folder, files[k]);
  }

  /**
   * At most 100 paths are returned, each naming an offered `.xml` entry that
   * some piece of the answer chose.
   */
  lemma SelectionBounds(folder: string, listing: seq<string>, answer: string)
    ensures |SelectedReports(folder, listing, answer)| <= MaxReports
    ensures forall path :: path in SelectedReports(folder, listing, answer) ==>
      exists k :: 0 <= k < |XmlFiles(listing)| && IsXmlName(XmlFiles(listing)[k])
                  && path == PathJoin(folder, XmlFiles(listing)[k])
  {
    var files := XmlFiles(listing);
    forall path | path in SelectedReports(folder, listing, answer)
      ensures exists k :: 0 <= k < |files| && IsXmlName(files[k]) && path == PathJoin(folder, files[k])
    {
      var chosen := Chosen(Split(answer), folder, files);
      assert files != [] && SelectedReports(folder, listing, answer) == Take(chosen, MaxReports);
      assert path in chosen;
      ChosenPaths(Split(answer), folder, files, path);
    }
  }
}
