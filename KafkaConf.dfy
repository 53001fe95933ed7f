/**
 * The client library's configuration object (`RdKafka\Conf`) as the
 * controller uses it: a key/value map written by successive `set` calls,
 * plus the two callback registrations.
 */
module KafkaConf {
  import opened Wrappers

  /** One `set(key, value)` write. */
  type Setting = (string, string)

  /** The map obtained from `m` by performing `writes` in order; a later write of a key replaces an earlier one. */
  function Applied(m: map<string, string>, writes: seq<Setting>): (r: map<string, string>)
    ensures m.Keys <= r.Keys
  {
    if |writes| == 0 then m
    else
      var last := writes[|writes| - 1];
      Applied(m, writes[..|writes| - 1])[last.0 := last.1]
  }

  /** The value of the last write of `key` in `writes`, if any. */
  function LastWrite(writes: seq<Setting>, key: string): (r: Option<string>)
    ensures r.Some? ==> (key, r.value) in writes
  {
    if |writes| == 0 then None
    else if writes[|writes| - 1].0 == key then Some(writes[|writes| - 1].1)
    else LastWrite(writes[..|writes| - 1], key)
  }

  /** Last write wins: a key's final value is its last written value, or its value in `m` when never written. */
  lemma {:induction false} AppliedAt(m: map<string, string>, writes: seq<Setting>, key: string)
    ensures key in Applied(m, writes) <==> key in m || LastWrite(writes, key).Some?
    ensures key in Applied(m, writes) ==>
      Applied(m, writes)[key] == if LastWrite(writes, key).Some? then LastWrite(writes, key).value else m[key]
    decreases |writes|
  {
    if |writes| > 0 {
      AppliedAt(m, writes[..|writes| - 1], key);
    }
  }

  /** Of two batches of writes, the later batch decides a key it writes. */
  lemma {:induction false} LastWriteAppend(a: seq<Setting>, b: seq<Setting>, key: string)
    ensures LastWrite(a + b, key) == if LastWrite(b, key).Some? then LastWrite(b, key) else LastWrite(a, key)
    decreases |b|
  {
    if |b| == 0 {
      assert a + b == a;
    } else {
      assert (a + b)[..|a + b| - 1] == a + b[..|b| - 1];
      LastWriteAppend(a, b[..|b| - 1], key);
    }
  }

  /** A key is never written exactly when no write names it. */
  lemma {:induction false} LastWriteNone(writes: seq<Setting>, key: string)
    ensures LastWrite(writes, key).None? <==> forall i :: 0 <= i < |writes| ==> writes[i].0 != key
    decreases |writes|
  {
    if |writes| > 0 {
      var init := writes[..|writes| - 1];
      LastWriteNone(init, key);
      assert forall i :: 0 <= i < |init| ==> init[i] == writes[i];
    }
  }

  /** The last write of a key is found at the last index naming that key. */
  lemma {:induction false} LastWriteIndex(writes: seq<Setting>, key: string) returns (i: nat)
    requires LastWrite(writes, key).Some?
    ensures i < |writes| && writes[i] == (key, LastWrite(writes, key).value)
    ensures forall j :: i < j < |writes| ==> writes[j].0 != key
    decreases |writes|
  {
    if writes[|writes| - 1].0 == key {
      i := |writes| - 1;
    } else {
      var init := writes[..|writes| - 1];
      i := LastWriteIndex(init, key);
      assert forall j :: i < j < |init| ==> init[j] == writes[j];
    }
  }

  /** Conversely, the write at the last index naming a key is its last write. */
  lemma {:induction false} LastWriteAtIndex(writes: seq<Setting>, key: string, i: nat)
    requires i < |writes| && writes[i].0 == key
    requires forall j :: i < j < |writes| ==> writes[j].0 != key
    ensures LastWrite(writes, key) == Some(writes[i].1)
    decreases |writes|
  {
    if i < |writes| - 1 {
      var init := writes[..|writes| - 1];
      assert forall j :: i < j < |init| ==> init[j] == writes[j];
      LastWriteAtIndex(init, key, i);
    }
  }

  /**
   * `RdKafka\Conf`. The ghost `writes` logs every `set` call in order;
   * `entries` is the resulting key/value map.
   */
  class Conf {
    ghost var writes: seq<Setting>
    var entries: map<string, string>
    var errorCbSet: bool
    var rebalanceCbSet: bool

    ghost predicate Valid()
      reads this
    {
      entries == Applied(map[], writes)
    }

    constructor ()
      ensures Valid() && writes == [] && entries == map[]
      ensures !errorCbSet && !rebalanceCbSet
    {
      writes := [];
      entries := map[];
      errorCbSet := false;
      rebalanceCbSet := false;
    }

    /** `set(key, value)`: records the write; a later write of the same key replaces this one. */
    method Set(key: string, value: string)
      requires Valid()
      modifies this`writes, this`entries
      ensures Valid() && writes == old(writes) + [(key, value)]
      ensures entries == old(entries)[key := value]
    {
      assert (writes + [(key, value)])[..|writes|] == writes;
      writes := writes + [(key, value)];
      entries := entries[key := value];
    }

    /** `setErrorCb`: the behaviour of the callback itself is `Rebalance.ErrorCb`. */
    method SetErrorCb()
      modifies this`errorCbSet
      ensures errorCbSet
    {
      errorCbSet := true;
    }

    /** `setRebalanceCb`: the behaviour of the callback itself is `Rebalance.RebalanceCb`. */
    method SetRebalanceCb()
      modifies this`rebalanceCbSet
      ensures rebalanceCbSet
    {
      rebalanceCbSet := true;
    }
  }
}
