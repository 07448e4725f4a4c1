/** The difference analysis between two crawls, as the tool computes it:
    set intersection and set difference over the full entry identity. */
module Compare {
  import opened Entries

  datatype EntryDifferenceType = New | Removed | SizeChange | NoChange

  /** One line of the report; `path` is optional in the persisted form. */
  datatype EntryDifference = EntryDifference(entryType: EntryType, differenceType: EntryDifferenceType,
                                             path: Option<string>, octetsDifference: u64)

  datatype DifferenceAnalysis = DifferenceAnalysis(dateTime: string, entriesDifference: seq<EntryDifference>)

  /** The line emitted for an entry found in both crawls. */
  function NoChangeRecord(e: EntryInfo): EntryDifference
  {
    EntryDifference(e.entryType, NoChange, Some(e.path), 0)
  }

  /** The line emitted for an entry of the first crawl missing from the second. */
  function NewRecord(e: EntryInfo): EntryDifference
  {
    EntryDifference(e.entryType, New, Some(e.path), e.octets)
  }

  /** Entries reported unchanged: those of the first crawl also in the second. */
  function Unchanged(first: Crawl, second: Crawl): set<EntryInfo>
  {
    first.entries * second.entries
  }

  /** Entries reported New: those of the first crawl absent from the second. */
  function Changed(first: Crawl, second: Crawl): set<EntryInfo>
  {
    first.entries - second.entries
  }

  /** The two groups split the first crawl: every entry of it falls in
      exactly one, so the report has one line per entry of the first crawl. */
  lemma GroupsPartitionFirst(first: Crawl, second: Crawl)
    ensures Unchanged(first, second) !! Changed(first, second)
    ensures Unchanged(first, second) + Changed(first, second) == first.entries
    ensures |Unchanged(first, second)| + |Changed(first, second)| == |first.entries|
  {
  }

  ghost predicate Distinct(s: seq<EntryInfo>)
  {
    forall i, j :: 0 <= i < j < |s| ==> s[i] != s[j]
  }

  /** `s` lists every member of `S`, each exactly once. */
  ghost predicate Enumerates(s: seq<EntryInfo>, S: set<EntryInfo>)
  {
    Distinct(s) && forall e :: e in s <==> e in S
  }

  /** The line emitted for `e` by the New loop or by the NoChange loop. */
  function LineFor(e: EntryInfo, isNew: bool): EntryDifference
  {
    if isNew then NewRecord(e) else NoChangeRecord(e)
  }

  /** One of the two `push` loops: appends a line for every entry of
      `group`, visited in the order `order`. */
  method PushLines(records: seq<EntryDifference>, group: set<EntryInfo>, isNew: bool)
    returns (lines: seq<EntryDifference>, ghost order: seq<EntryInfo>)
    ensures Enumerates(order, group) && |order| == |group|
    ensures |lines| == |records| + |order| && lines[..|records|] == records
    ensures forall k :: 0 <= k < |order| ==> lines[|records| + k] == LineFor(order[k], isNew)
  {
    lines := records;
    order := [];
    var rest := group;
    while rest != {}
      invariant rest <= group
      invariant Distinct(order)
      invariant forall e :: e in order <==> e in group - rest
      invariant |order| + |rest| == |group|
      invariant |lines| == |records| + |order| && lines[..|records|] == records
      invariant forall k :: 0 <= k < |order| ==> lines[|records| + k] == LineFor(order[k], isNew)
      decreases rest
    {
      var entry :| entry in rest;
      assert entry !in order;
      lines := lines + [LineFor(entry, isNew)];
      order := order + [entry];
      rest := rest - {entry};
    }
  }

  /** The pure part of `compare_analysis`. Sets are iterated in an order the
      model does not fix; the ghost results `common` and `changed` are the
      orders in which the two loops visited their sets. */
  method CompareAnalysis(first: Crawl, second: Crawl, now: string)
    returns (analysis: DifferenceAnalysis, ghost common: seq<EntryInfo>, ghost changed: seq<EntryInfo>)
    ensures analysis.dateTime == now
    ensures Enumerates(common, Unchanged(first, second))
    ensures Enumerates(changed, Changed(first, second))
    ensures |analysis.entriesDifference| == |common| + |changed| == |first.entries|
    ensures forall k :: 0 <= k < |common| ==> analysis.entriesDifference[k] == NoChangeRecord(common[k])
    ensures forall k :: 0 <= k < |changed| ==> analysis.entriesDifference[|common| + k] == NewRecord(changed[k])
    ensures forall d :: d in analysis.entriesDifference ==> d.differenceType == NoChange || d.differenceType == New
    ensures forall e :: NoChangeRecord(e) in analysis.entriesDifference <== e in Unchanged(first, second)
    ensures forall e :: NewRecord(e) in analysis.entriesDifference <==> e in Changed(first, second)
    ensures first.entries == second.entries ==>
              forall d :: d in analysis.entriesDifference ==> d.differenceType == NoChange
  {
    var entriesNotChanged := first.entries * second.entries;
    var entriesChanged := first.entries - second.entries;
    var records;
    records, common := PushLines([], entriesNotChanged, false);
    ghost var afterFirst := records;
    records, changed := PushLines(records, entriesChanged, true);
    assert forall k :: 0 <= k < |common| ==> records[k] == afterFirst[k] by {
      assert records[..|afterFirst|] == afterFirst;
    }
    GroupsPartitionFirst(first, second);
    analysis := DifferenceAnalysis(now, records);
    ReportLines(records, common, changed, Changed(first, second));
  }

  /** Which lines a report laid out as in `CompareAnalysis` holds. */
  lemma ReportLines(records: seq<EntryDifference>, common: seq<EntryInfo>, changed: seq<EntryInfo>, changedSet: set<EntryInfo>)
    requires |records| == |common| + |changed|
    requires forall k :: 0 <= k < |common| ==> records[k] == NoChangeRecord(common[k])
    requires forall k :: 0 <= k < |changed| ==> records[|common| + k] == NewRecord(changed[k])
    requires forall e :: e in changed <==> e in changedSet
    ensures forall d :: d in records ==> d.differenceType == NoChange || d.differenceType == New
    ensures forall e :: e in common ==> NoChangeRecord(e) in records
    ensures forall e :: NewRecord(e) in records <==> e in changedSet
    ensures changed == [] ==> forall d :: d in records ==> d.differenceType == NoChange
  {
    forall d | d in records
      ensures d.differenceType == NoChange || d.differenceType == New
      ensures changed == [] ==> d.differenceType == NoChange
    {
      var k :| 0 <= k < |records| && records[k] == d;
      if k >= |common| {
        assert records[|common| + (k - |common|)] == NewRecord(changed[k - |common|]);
      }
    }
    forall e | e in common
      ensures NoChangeRecord(e) in records
    {
      var k :| 0 <= k < |common| && common[k] == e;
      assert records[k] == NoChangeRecord(e);
    }
    forall e
      ensures NewRecord(e) in records <==> e in changedSet
    {
      if e in changedSet {
        var k :| 0 <= k < |changed| && changed[k] == e;
        assert records[|common| + k] == NewRecord(e);
      }
      if NewRecord(e) in records {
        var k :| 0 <= k < |records| && records[k] == NewRecord(e);
        assert k >= |common|;
        assert records[|common| + (k - |common|)] == NewRecord(changed[k - |common|]);
      }
    }
  }

  /** As written, comparing an older crawl (first) with a newer one (second)
      reports as New the file that disappeared and gives the file that
      appeared no line at all: the report of this run is that one line. */
  method AsWrittenNewMeansVanished() returns (report: DifferenceAnalysis)
    ensures var gone := EntryInfo(File, "a", 10);
      var born := EntryInfo(File, "b", 20);
      var older := Crawl("2021-11-07_01-47-59", ToolRevision, 1, {gone});
      var newer := Crawl("2021-11-07_01-48-00", ToolRevision, 1, {born});
      && gone !in newer.entries && born !in older.entries
      && Changed(older, newer) == {gone}
      && born !in Changed(older, newer) && born !in Unchanged(older, newer)
      && report.entriesDifference == [NewRecord(gone)]
      && forall d :: d in report.entriesDifference ==> d.path != Some(born.path)
  {
    var gone := EntryInfo(File, "a", 10);
    var born := EntryInfo(File, "b", 20);
    var older := Crawl("2021-11-07_01-47-59", ToolRevision, 1, {gone});
    var newer := Crawl("2021-11-07_01-48-00", ToolRevision, 1, {born});
    assert gone != born;
    ghost var common, changed;
    report, common, changed := CompareAnalysis(older, newer, "2021-11-07_01-48-01");
    assert Changed(older, newer) == {gone};
    assert Unchanged(older, newer) == {};
    assert |changed| == 1 && changed[0] in Changed(older, newer);
    assert report.entriesDifference[0] == NewRecord(gone);
  }

  /** The comparison evidently intended: `before` is the older crawl and the
      New lines are the entries that appear in `after` but not in `before`.
      It runs the same two loops with the crawls in the other order. */
  method CompareSnapshots(before: Crawl, after: Crawl, now: string) returns (analysis: DifferenceAnalysis)
    ensures analysis.dateTime == now
    ensures |analysis.entriesDifference| == |after.entries|
    ensures forall e :: NewRecord(e) in analysis.entriesDifference <==> e in after.entries && e !in before.entries
    ensures forall e :: e in before.entries && e in after.entries ==> NoChangeRecord(e) in analysis.entriesDifference
    ensures forall d :: d in analysis.entriesDifference ==> d.differenceType == NoChange || d.differenceType == New
    ensures before.entries == after.entries ==>
              forall d :: d in analysis.entriesDifference ==> d.differenceType == NoChange
  {
    ghost var common, changed;
    analysis, common, changed := CompareAnalysis(after, before, now);
  }
}
