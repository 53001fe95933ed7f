/**
 * Report assembly in `metrics`: walk the broker metadata, keep the topics
 * that were requested, and for each of their partitions write an entry with
 * the watermarks and their difference, then amend it with the committed
 * offset. The three broker queries are inputs.
 */
module Report {
  import opened Wrappers

  /** One topic of the broker metadata: its name and its partition ids. */
  datatype TopicMetadata = TopicMetadata(topic: string, partitions: seq<int>)

  /** The entry `$result[$topicName][$pid]`. */
  datatype Entry = Entry(partition: int, min: int, max: int, diff: int, current: Option<int>)

  /** Topic name to partition id to entry. */
  type LagReport = map<string, map<int, Entry>>

  /** The watermark query: (topic, partition id) to (low, high). */
  type Watermarks = (string, int) -> (int, int)

  /** The committed-offset query: (topic, partition id) to the offsets of the partitions it answers with. */
  type Committed = (string, int) -> seq<int>

  /** `$result[$t]`, or the empty array PHP creates on first write. */
  function TopicOf(r: LagReport, t: string): map<int, Entry>
  {
    if t in r then r[t] else map[]
  }

  /** The entry after `current` is set from each committed offset in turn. */
  function WithCommitted(e: Entry, offsets: seq<int>): (r: Entry)
  {
    if |offsets| == 0 then e
    else WithCommitted(e, offsets[..|offsets| - 1]).(current := Some(offsets[|offsets| - 1]))
  }

  /** Only the last committed offset matters, and only `current` changes. */
  lemma {:induction false} WithCommittedLast(e: Entry, offsets: seq<int>)
    ensures WithCommitted(e, offsets) ==
      e.(current := if |offsets| == 0 then e.current else Some(offsets[|offsets| - 1]))
    decreases |offsets|
  {
    if |offsets| > 0 {
      WithCommittedLast(e, offsets[..|offsets| - 1]);
    }
  }

  /** The finished entry for partition `pid` of topic `t`. */
  function PartitionEntry(t: string, pid: int, wm: Watermarks, co: Committed): (e: Entry)
    ensures e.partition == pid
    ensures e.min == wm(t, pid).0 && e.max == wm(t, pid).1
    ensures e.diff == e.max - e.min
    ensures e.diff >= 0 <==> wm(t, pid).0 <= wm(t, pid).1
    ensures e.current == if |co(t, pid)| == 0 then None else Some(co(t, pid)[|co(t, pid)| - 1])
  {
    var (low, high) := wm(t, pid);
    var offsets := co(t, pid);
    WithCommittedLast(Entry(pid, low, high, high - low, None), offsets);
    WithCommitted(Entry(pid, low, high, high - low, None), offsets)
  }

  /** The report after handling the partitions `pids` of topic `t`, starting from `r`. */
  function PartitionsStep(r: LagReport, t: string, pids: seq<int>, wm: Watermarks, co: Committed): LagReport
  {
    if |pids| == 0 then r
    else
      var before := PartitionsStep(r, t, pids[..|pids| - 1], wm, co);
      var pid := pids[|pids| - 1];
      before[t := TopicOf(before, t)[pid := PartitionEntry(t, pid, wm, co)]]
  }

  /** The report after handling one metadata topic. */
  function TopicStep(r: LagReport, m: TopicMetadata, topics: seq<string>, wm: Watermarks, co: Committed): LagReport
  {
    if m.topic in topics then PartitionsStep(r, m.topic, m.partitions, wm, co) else r
  }

  /** The report after handling every metadata topic in order. */
  function ReportOf(metadata: seq<TopicMetadata>, topics: seq<string>, wm: Watermarks, co: Committed): LagReport
  {
    if |metadata| == 0 then map[]
    else TopicStep(ReportOf(metadata[..|metadata| - 1], topics, wm, co), metadata[|metadata| - 1], topics, wm, co)
  }

  /** Some metadata entry lists partition `pid` for topic `t`. */
  ghost predicate Listed(metadata: seq<TopicMetadata>, t: string, pid: int)
  {
    exists m :: m in metadata && m.topic == t && pid in m.partitions
  }

  /** Some metadata entry for topic `t` lists at least one partition. */
  ghost predicate HasPartitions(metadata: seq<TopicMetadata>, t: string)
  {
    exists m :: m in metadata && m.topic == t && |m.partitions| > 0
  }

  /**
   * What the report contains, stated without the loops: a key for exactly
   * the requested topics the metadata lists with some partition, under it a
   * key for exactly the listed partition ids, and each entry as
   * `PartitionEntry` gives it.
   */
  ghost predicate Describes(r: LagReport, metadata: seq<TopicMetadata>, topics: seq<string>, wm: Watermarks, co: Committed)
  {
    && (forall t :: t in r <==> t in topics && HasPartitions(metadata, t))
    && (forall t, pid :: t in r ==> (pid in r[t] <==> Listed(metadata, t, pid)))
    && (forall t, pid :: t in r && pid in r[t] ==> r[t][pid] == PartitionEntry(t, pid, wm, co))
  }

  /** Handling the partitions of `t` adds a key for `t` when there is one, adds those ids, and leaves everything else alone. */
  lemma {:induction false} PartitionsStepEffect(r: LagReport, t: string, pids: seq<int>, wm: Watermarks, co: Committed)
    ensures var r' := PartitionsStep(r, t, pids, wm, co);
      && (forall u :: u in r' <==> u in r || (u == t && |pids| > 0))
      && (forall u :: u in r && u != t ==> r'[u] == r[u])
      && (t in r' ==> forall pid :: pid in r'[t] <==> pid in TopicOf(r, t) || pid in pids)
      && (t in r' ==> forall pid :: pid in r'[t] ==>
            r'[t][pid] == if pid in pids then PartitionEntry(t, pid, wm, co) else r[t][pid])
    decreases |pids|
  {
    if |pids| > 0 {
      var init := pids[..|pids| - 1];
      PartitionsStepEffect(r, t, init, wm, co);
      assert forall pid :: pid in pids <==> pid in init || pid == pids[|pids| - 1] by {
        assert pids == init + [pids[|pids| - 1]];
      }
    }
  }

  /** The report built by the loops is the one `Describes` characterises. */
  lemma {:induction false} ReportOfDescribes(metadata: seq<TopicMetadata>, topics: seq<string>, wm: Watermarks, co: Committed)
    ensures Describes(ReportOf(metadata, topics, wm, co), metadata, topics, wm, co)
    decreases |metadata|
  {
    if |metadata| > 0 {
      var init := metadata[..|metadata| - 1];
      var m := metadata[|metadata| - 1];
      ReportOfDescribes(init, topics, wm, co);
      assert metadata == init + [m];
      assert forall x :: x in metadata <==> x in init || x == m;
      var r := ReportOf(init, topics, wm, co);
      if m.topic in topics {
        PartitionsStepEffect(r, m.topic, m.partitions, wm, co);
      }
    }
  }

  /**
   * The loops of `metrics` (src/Controller/MetricsController.php:123-144):
   * for every metadata topic that was requested, for every partition,
   * write the fresh entry and then set `current` from each committed
   * offset returned.
   */
  method CollectReport(metadata: seq<TopicMetadata>, topics: seq<string>, wm: Watermarks, co: Committed)
    returns (result: LagReport)
    ensures result == ReportOf(metadata, topics, wm, co)
    ensures Describes(result, metadata, topics, wm, co)
  {
    result := map[];
    var i := 0;
    while i < |metadata|
      invariant 0 <= i <= |metadata|
      invariant result == ReportOf(metadata[..i], topics, wm, co)
    {
      assert metadata[..i + 1][..i] == metadata[..i];
      var topicName := metadata[i].topic;
      if topicName in topics {
        var partitions := metadata[i].partitions;
        ghost var start := result;
        var j := 0;
        while j < |partitions|
          invariant 0 <= j <= |partitions|
          invariant result == PartitionsStep(start, topicName, partitions[..j], wm, co)
        {
          assert partitions[..j + 1][..j] == partitions[..j];
          var pid := partitions[j];
          var (low, high) := wm(topicName, pid);
          ghost var before := result;
          result := result[topicName := TopicOf(result, topicName)[pid := Entry(pid, low, high, high - low, None)]];
          var offsets := co(topicName, pid);
          var k := 0;
          while k < |offsets|
            invariant 0 <= k <= |offsets|
            invariant result == before[topicName := TopicOf(before, topicName)[pid :=
              WithCommitted(Entry(pid, low, high, high - low, None), offsets[..k])]]
          {
            assert offsets[..k + 1][..k] == offsets[..k];
            assert WithCommitted(Entry(pid, low, high, high - low, None), offsets[..k + 1]) ==
              WithCommitted(Entry(pid, low, high, high - low, None), offsets[..k]).(current := Some(offsets[k]));
            ghost var amended := WithCommitted(Entry(pid, low, high, high - low, None), offsets[..k]).(current := Some(offsets[k]));
            result := result[topicName := result[topicName][pid := result[topicName][pid].(current := Some(offsets[k]))]];
            assert result[topicName] == TopicOf(before, topicName)[pid := amended];
            k := k + 1;
          }
          assert offsets[..k] == offsets;
          j := j + 1;
        }
        assert partitions[..j] == partitions;
      }
      i := i + 1;
    }
    assert metadata[..i] == metadata;
    ReportOfDescribes(metadata, topics, wm, co);
  }

  /** The offset librdkafka reports for a partition the group never committed (`RD_KAFKA_OFFSET_INVALID`). */
  const OFFSET_INVALID: int := -1001

  /**
   * Topic `orders` with partitions 0, 1 and 2, watermarks (100, 150),
   * (200, 205) and (0, 0). The committed-offset query answers 140 for
   * partition 0; for partition 1 it answers with the never-committed
   * sentinel, which the code copies into `current` unchanged; for
   * partition 2 it answers with nothing, so `current` stays absent.
   */
  lemma OrdersExample()
    ensures var wm: Watermarks := (t, pid) => if pid == 0 then (100, 150) else if pid == 1 then (200, 205) else (0, 0);
      var co: Committed := (t, pid) => if pid == 0 then [140] else if pid == 1 then [OFFSET_INVALID] else [];
      ReportOf([TopicMetadata("orders", [0, 1, 2]), TopicMetadata("payments", [0])], ["orders", "refunds"], wm, co)
        == map["orders" := map[0 := Entry(0, 100, 150, 50, Some(140)),
                               1 := Entry(1, 200, 205, 5, Some(OFFSET_INVALID)),
                               2 := Entry(2, 0, 0, 0, None)]]
  {
    var wm: Watermarks := (t, pid) => if pid == 0 then (100, 150) else if pid == 1 then (200, 205) else (0, 0);
    var co: Committed := (t, pid) => if pid == 0 then [140] else if pid == 1 then [OFFSET_INVALID] else [];
    var metadata := [TopicMetadata("orders", [0, 1, 2]), TopicMetadata("payments", [0])];
    assert metadata[..1] == [TopicMetadata("orders", [0, 1, 2])];
    assert metadata[..1][..0] == [];
    var pids := [0, 1, 2];
    assert pids[..2] == [0, 1];
    assert pids[..2][..1] == [0];
    assert pids[..2][..1][..0] == [];
    var e0 := Entry(0, 100, 150, 50, Some(140));
    var e1 := Entry(1, 200, 205, 5, Some(OFFSET_INVALID));
    var e2 := Entry(2, 0, 0, 0, None);
    assert PartitionEntry("orders", 0, wm, co) == e0;
    assert PartitionEntry("orders", 1, wm, co) == e1;
    assert PartitionEntry("orders", 2, wm, co) == e2;
    var p0 := PartitionsStep(map[], "orders", [0], wm, co);
    assert p0 == map["orders" := map[0 := e0]];
    var p1 := PartitionsStep(map[], "orders", [0, 1], wm, co);
    assert p1 == map["orders" := map[0 := e0, 1 := e1]];
    assert PartitionsStep(map[], "orders", pids, wm, co) == map["orders" := map[0 := e0, 1 := e1, 2 := e2]];
    assert ReportOf(metadata[..1], ["orders", "refunds"], wm, co) == map["orders" := map[0 := e0, 1 := e1, 2 := e2]];
    assert "payments" !in ["orders", "refunds"];
  }
}
