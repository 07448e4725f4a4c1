/** The recorder: the single consumer that merges the batches sent by every
    directory scan into one deduplicated crawl. The channel is modelled by the
    finite sequence of signals the recorder receives, in arrival order; the
    stream ending is the end of that sequence. */
module Recorder {
  import opened Entries

  datatype RecorderSignal = EntriesVec(entries: seq<EntryInfo>) | Close

  /** The batches among the signals, in arrival order; `Close` carries none. */
  function Batches(signals: seq<RecorderSignal>): seq<seq<EntryInfo>>
  {
    if signals == [] then []
    else
      var last := signals[|signals| - 1];
      Batches(signals[..|signals| - 1]) + (if last.EntriesVec? then [last.entries] else [])
  }

  function Elements(batch: seq<EntryInfo>): set<EntryInfo>
  {
    set e | e in batch
  }

  /** Every entry of every batch, duplicates collapsed. */
  function UnionAll(batches: seq<seq<EntryInfo>>): set<EntryInfo>
  {
    if batches == [] then {}
    else UnionAll(batches[..|batches| - 1]) + Elements(batches[|batches| - 1])
  }

  /** How many signals the receive loop takes from `signals` when `jobsDone`
      batches are already counted: it stops right after the batch that brings
      the count to `jobsWorking`, and otherwise runs to the end of the stream. */
  function Consumed(signals: seq<RecorderSignal>, jobsWorking: nat, jobsDone: nat): (n: nat)
    ensures n <= |signals|
  {
    if signals == [] then 0
    else match signals[0]
      case Close => 1 + Consumed(signals[1..], jobsWorking, jobsDone)
      case EntriesVec(_) =>
        if jobsDone + 1 == jobsWorking then 1
        else 1 + Consumed(signals[1..], jobsWorking, jobsDone + 1)
  }

  /** One `file_recorder` run over the received signals, up to building the
      crawl (the date is the clock reading `now`). `consumed` is the number of
      signals the loop took. */
  method FileRecorder(signals: seq<RecorderSignal>, jobsWorking: nat, now: string)
    returns (crawl: Crawl, consumed: nat)
    ensures consumed == Consumed(signals, jobsWorking, 0)
    ensures crawl.entries == UnionAll(Batches(signals[..consumed]))
    ensures crawl.entryCount == |crawl.entries|
    ensures crawl.usedToolRevision == ToolRevision && crawl.dateTime == now
  {
    var jobsDone: nat := 0;
    var entries: set<EntryInfo> := {};
    var i := 0;
    while i < |signals|
      invariant i <= |signals|
      invariant i + Consumed(signals[i..], jobsWorking, jobsDone) == Consumed(signals, jobsWorking, 0)
      invariant jobsDone == |Batches(signals[..i])|
      invariant entries == UnionAll(Batches(signals[..i]))
    {
      assert signals[..i + 1][..i] == signals[..i];
      match signals[i] {
        case EntriesVec(batch) =>
          var j := 0;
          while j < |batch|
            invariant j <= |batch|
            invariant entries == UnionAll(Batches(signals[..i])) + Elements(batch[..j])
          {
            assert batch[..j + 1] == batch[..j] + [batch[j]];
            entries := entries + {batch[j]};
            j := j + 1;
          }
          assert batch[..j] == batch;
          ghost var seen := Batches(signals[..i]);
          assert Batches(signals[..i + 1]) == seen + [batch];
          assert (seen + [batch])[..|seen|] == seen;
          assert UnionAll(seen + [batch]) == UnionAll(seen) + Elements(batch);
          jobsDone := jobsDone + 1;
          i := i + 1;
          if jobsDone == jobsWorking {
            break;
          }
        case Close =>
          assert Batches(signals[..i + 1]) == Batches(signals[..i]);
          i := i + 1;
      }
    }
    consumed := i;
    crawl := Crawl(now, ToolRevision, |entries|, entries);
  }

  lemma {:induction false} BatchesAppend(a: seq<RecorderSignal>, b: seq<RecorderSignal>)
    ensures Batches(a + b) == Batches(a) + Batches(b)
  {
    if b == [] {
      assert a + b == a;
    } else {
      var last := b[|b| - 1];
      assert (a + b)[..|a + b| - 1] == a + b[..|b| - 1];
      BatchesAppend(a, b[..|b| - 1]);
    }
  }

  /** Batch count of a non-empty prefix, split after its first signal. */
  lemma PrefixBatchCount(s: seq<RecorderSignal>, k: nat)
    requires 0 < k <= |s|
    ensures |Batches(s[..k])| == (if s[0].EntriesVec? then 1 else 0) + |Batches(s[1..][..k - 1])|
  {
    assert s[..k] == [s[0]] + s[1..][..k - 1];
    BatchesAppend([s[0]], s[1..][..k - 1]);
    assert [s[0]][..0] == [];
  }

  /** Where the receive loop stops. If it stops before the end of the stream,
      the last signal it took is a batch and that batch brought the count to
      `jobsWorking`; no earlier batch did. */
  lemma {:induction false} ConsumedStopsAtFirstCompletion(s: seq<RecorderSignal>, jobsWorking: nat, jobsDone: nat)
    ensures var c := Consumed(s, jobsWorking, jobsDone);
      && (c < |s| ==> 0 < c && s[c - 1].EntriesVec? && jobsDone + |Batches(s[..c])| == jobsWorking)
      && (forall k :: 0 < k < c && s[k - 1].EntriesVec? ==> jobsDone + |Batches(s[..k])| != jobsWorking)
  {
    if s != [] {
      var c := Consumed(s, jobsWorking, jobsDone);
      var d' := if s[0].EntriesVec? then jobsDone + 1 else jobsDone;
      if s[0].EntriesVec? && jobsDone + 1 == jobsWorking {
        PrefixBatchCount(s, 1);
      } else {
        ConsumedStopsAtFirstCompletion(s[1..], jobsWorking, d');
        assert c == 1 + Consumed(s[1..], jobsWorking, d');
        if c < |s| {
          PrefixBatchCount(s, c);
          assert s[c - 1] == s[1..][c - 2];
        }
        forall k | 0 < k < c && s[k - 1].EntriesVec?
          ensures jobsDone + |Batches(s[..k])| != jobsWorking
        {
          PrefixBatchCount(s, k);
          if k > 1 {
            assert s[k - 1] == s[1..][k - 2];
          }
        }
      }
    }
  }

  /** Adding signals never lowers the batch count. */
  lemma PrefixBatchesAtMost(s: seq<RecorderSignal>, k: nat)
    requires k <= |s|
    ensures |Batches(s[..k])| <= |Batches(s)|
  {
    assert s == s[..k] + s[k..];
    BatchesAppend(s[..k], s[k..]);
  }

  /** Some prefix ending in a batch holds exactly `n` batches, for every
      `n` from 1 up to the number of batches. */
  lemma {:induction false} SomePrefixReaches(s: seq<RecorderSignal>, n: nat)
    requires 0 < n <= |Batches(s)|
    ensures exists k :: 0 < k <= |s| && s[k - 1].EntriesVec? && |Batches(s[..k])| == n
  {
    var init := s[..|s| - 1];
    if n <= |Batches(init)| {
      SomePrefixReaches(init, n);
      var k :| 0 < k <= |init| && init[k - 1].EntriesVec? && |Batches(init[..k])| == n;
      assert init[..k] == s[..k];
    } else {
      assert s[..|s|] == s;
    }
  }

  /** With at least `jobsWorking > 0` batches in the stream, the loop takes
      exactly `jobsWorking` of them and stops right after the last one. */
  lemma StopsAfterLastJob(signals: seq<RecorderSignal>, jobsWorking: nat)
    requires 0 < jobsWorking <= |Batches(signals)|
    ensures var c := Consumed(signals, jobsWorking, 0);
      0 < c && signals[c - 1].EntriesVec? && |Batches(signals[..c])| == jobsWorking
  {
    var c := Consumed(signals, jobsWorking, 0);
    ConsumedStopsAtFirstCompletion(signals, jobsWorking, 0);
    if c == |signals| {
      SomePrefixReaches(signals, jobsWorking);
      var k :| 0 < k <= |signals| && signals[k - 1].EntriesVec? && |Batches(signals[..k])| == jobsWorking;
      assert k == c;
    }
  }

  /** With fewer batches than jobs (or no jobs at all, which the count never
      matches after an increment) the loop runs to the end of the stream. */
  lemma RunsToEndOfStream(signals: seq<RecorderSignal>, jobsWorking: nat)
    requires jobsWorking == 0 || |Batches(signals)| < jobsWorking
    ensures Consumed(signals, jobsWorking, 0) == |signals|
  {
    var c := Consumed(signals, jobsWorking, 0);
    ConsumedStopsAtFirstCompletion(signals, jobsWorking, 0);
    PrefixBatchesAtMost(signals, c);
  }

  /** An entry is recorded iff some batch carries it. */
  lemma {:induction false} UnionAllMembers(batches: seq<seq<EntryInfo>>, e: EntryInfo)
    ensures e in UnionAll(batches) <==> exists i :: 0 <= i < |batches| && e in batches[i]
  {
    if batches != [] {
      var init := batches[..|batches| - 1];
      UnionAllMembers(init, e);
      if e in UnionAll(init) {
        var i :| 0 <= i < |init| && e in init[i];
        assert batches[i] == init[i];
      }
      if exists i :: 0 <= i < |batches| && e in batches[i] {
        var i :| 0 <= i < |batches| && e in batches[i];
        if i < |init| {
          assert init[i] == batches[i];
        }
      }
    }
  }

  /** The recorded set does not depend on the order the batches arrive in:
      parallel and sequential dispatch record the same entries. */
  lemma ArrivalOrderIrrelevant(b1: seq<seq<EntryInfo>>, b2: seq<seq<EntryInfo>>)
    requires multiset(b1) == multiset(b2)
    ensures UnionAll(b1) == UnionAll(b2)
  {
    forall e ensures e in UnionAll(b1) <==> e in UnionAll(b2) {
      UnionAllMembers(b1, e);
      UnionAllMembers(b2, e);
      if exists i :: 0 <= i < |b1| && e in b1[i] {
        var i :| 0 <= i < |b1| && e in b1[i];
        assert b1[i] in multiset(b2);
        var j :| 0 <= j < |b2| && b2[j] == b1[i];
      }
      if exists j :: 0 <= j < |b2| && e in b2[j] {
        var j :| 0 <= j < |b2| && e in b2[j];
        assert b2[j] in multiset(b1);
        var i :| 0 <= i < |b1| && b1[i] == b2[j];
      }
    }
  }

  /** One `EntriesVec` signal per batch, in order. */
  function Sends(batches: seq<seq<EntryInfo>>): (signals: seq<RecorderSignal>)
  {
    seq(|batches|, i requires 0 <= i < |batches| => EntriesVec(batches[i]))
  }

  /** The signals of a run where each sender's batch is queued before the
      final `Close`. */
  function SendersThenClose(batches: seq<seq<EntryInfo>>): seq<RecorderSignal>
  {
    Sends(batches) + [Close]
  }

  lemma {:induction false} BatchesOfSends(batches: seq<seq<EntryInfo>>)
    ensures Batches(Sends(batches)) == batches
  {
    if batches != [] {
      var init := batches[..|batches| - 1];
      BatchesOfSends(init);
      assert Sends(batches)[..|batches| - 1] == Sends(init);
    }
  }

  /** The final `Close` adds no batch. */
  lemma BatchesThenClose(batches: seq<seq<EntryInfo>>)
    ensures Batches(SendersThenClose(batches)) == batches
  {
    BatchesOfSends(batches);
    BatchesAppend(Sends(batches), [Close]);
    assert [Close][..0] == [];
  }

  /** Whatever number of the `jobsWorking` scans managed to send their batch
      (a directory that fails to open sends nothing), once the final `Close`
      is queued behind them the recorder ends with exactly the union of the
      batches that were sent. */
  lemma RecordsEverySentBatch(batches: seq<seq<EntryInfo>>, jobsWorking: nat)
    requires |batches| <= jobsWorking
    ensures var signals := SendersThenClose(batches);
      UnionAll(Batches(signals[..Consumed(signals, jobsWorking, 0)])) == UnionAll(batches)
  {
    var signals := SendersThenClose(batches);
    BatchesThenClose(batches);
    var c := Consumed(signals, jobsWorking, 0);
    if 0 < jobsWorking == |batches| {
      StopsAfterLastJob(signals, jobsWorking);
      assert signals[..c] == Sends(batches[..c]);
      BatchesOfSends(batches[..c]);
      assert batches[..c] == batches;
    } else {
      RunsToEndOfStream(signals, jobsWorking);
      assert signals[..c] == signals;
    }
  }
}
