/**
 * The two callbacks `initConsumer` registers: the error callback, which
 * always raises, and the rebalance callback, a three-way transition on the
 * consumer's assignment. `Delivered` gives the effect of a whole sequence of
 * notifications handled by these callbacks.
 */
module Rebalance {
  import opened Wrappers
  import opened KafkaConsumer

  /** librdkafka's `RD_KAFKA_RESP_ERR__ASSIGN_PARTITIONS`. */
  const ASSIGN_PARTITIONS: int := -175
  /** librdkafka's `RD_KAFKA_RESP_ERR__REVOKE_PARTITIONS`. */
  const REVOKE_PARTITIONS: int := -174

  /**
   * The exceptions (`InvalidArgumentException`) the callbacks raise. A broker
   * error carries the broker's code as the exception code and the reason in
   * its message; an unexpected rebalance notification carries its code as
   * the exception message (the exception code is then 0).
   */
  datatype Error =
    | BrokerError(code: int, reason: string)
    | UnexpectedRebalance(code: int)

  /** A notification from the client library, handled by one of the two callbacks. */
  datatype Notification =
    | RebalanceNotice(err: int, partitions: seq<TopicPartition>)
    | ErrorNotice(err: int, reason: string)

  /** The error callback: it logs and then always raises, carrying the broker's code. */
  function ErrorCb(err: int, reason: string): (o: Outcome<Error>)
    ensures o.Fail? && o.error.BrokerError? && o.error.code == err
  {
    Fail(BrokerError(err, reason))
  }

  /** The assignment the rebalance callback installs for code `err`, or the error it raises. */
  function Decision(err: int, partitions: seq<TopicPartition>): (r: Result<seq<TopicPartition>, Error>)
    ensures r.Success? <==> err == ASSIGN_PARTITIONS || err == REVOKE_PARTITIONS
  {
    if err == ASSIGN_PARTITIONS then Success(partitions)
    else if err == REVOKE_PARTITIONS then Success([])
    else Failure(UnexpectedRebalance(err))
  }

  /** A notification the callbacks accept without raising. */
  predicate Accepted(n: Notification)
  {
    n.RebalanceNotice? && (n.err == ASSIGN_PARTITIONS || n.err == REVOKE_PARTITIONS)
  }

  /** The assignment one notification installs, or the exception its callback raises. */
  function Handle(n: Notification): (r: Result<seq<TopicPartition>, Error>)
    ensures r.Success? <==> Accepted(n)
  {
    match n
    case RebalanceNotice(err, partitions) => Decision(err, partitions)
    case ErrorNotice(err, reason) => Failure(ErrorCb(err, reason).error)
  }

  /** The assignment after handling `ns` in order from `current`; the first raised exception ends the run. */
  function Delivered(current: seq<TopicPartition>, ns: seq<Notification>): Result<seq<TopicPartition>, Error>
    decreases |ns|
  {
    if |ns| == 0 then Success(current)
    else
      match Handle(ns[0])
      case Failure(e) => Failure(e)
      case Success(next) => Delivered(next, ns[1..])
  }

  /**
   * The rebalance callback: ASSIGN sets the assignment to exactly the given
   * partitions, REVOKE empties it, and any other code raises and leaves the
   * assignment as it was.
   */
  method RebalanceCb(kafka: Consumer, err: int, partitions: seq<TopicPartition>) returns (o: Outcome<Error>)
    modifies kafka`assignment
    ensures err == ASSIGN_PARTITIONS ==> o == Pass && kafka.assignment == partitions
    ensures err == REVOKE_PARTITIONS ==> o == Pass && kafka.assignment == []
    ensures err != ASSIGN_PARTITIONS && err != REVOKE_PARTITIONS ==>
      o == Fail(UnexpectedRebalance(err)) && kafka.assignment == old(kafka.assignment)
  {
    if err == ASSIGN_PARTITIONS {
      kafka.Assign(partitions);
      o := Pass;
    } else if err == REVOKE_PARTITIONS {
      kafka.Assign([]);
      o := Pass;
    } else {
      o := Fail(UnexpectedRebalance(err));
    }
  }

  /** The assignment an accepted notification installs. */
  function Installed(n: Notification): seq<TopicPartition>
    requires Accepted(n)
  {
    if n.err == ASSIGN_PARTITIONS then n.partitions else []
  }

  /**
   * A run of notifications succeeds exactly when every one is accepted, and
   * the resulting assignment is the one the most recent notification decided.
   */
  lemma {:induction false} DeliveredSucceeds(current: seq<TopicPartition>, ns: seq<Notification>)
    ensures Delivered(current, ns).Success? <==> forall i :: 0 <= i < |ns| ==> Accepted(ns[i])
    ensures Delivered(current, ns).Success? ==>
      Delivered(current, ns).value == if |ns| == 0 then current else Installed(ns[|ns| - 1])
    decreases |ns|
  {
    if |ns| > 0 {
      match Handle(ns[0])
      case Failure(e) =>
      case Success(next) =>
        DeliveredSucceeds(next, ns[1..]);
        assert forall i :: 1 <= i < |ns| ==> ns[1..][i - 1] == ns[i];
    }
  }

  /** The exception that ends a run is the one raised for the first rejected notification. */
  lemma {:induction false} DeliveredFailsAtFirst(current: seq<TopicPartition>, ns: seq<Notification>, i: nat)
    requires i < |ns| && !Accepted(ns[i])
    requires forall j :: 0 <= j < i ==> Accepted(ns[j])
    ensures Delivered(current, ns) == Handle(ns[i])
    ensures Delivered(current, ns).Failure?
    decreases i
  {
    if i > 0 {
      assert Accepted(ns[0]);
      var next := Handle(ns[0]).value;
      assert forall j :: 0 <= j < i - 1 ==> ns[1..][j] == ns[j + 1];
      DeliveredFailsAtFirst(next, ns[1..], i - 1);
    }
  }

  /** A broker error notification anywhere in a run means the run raises. */
  lemma ErrorNoticeAborts(current: seq<TopicPartition>, ns: seq<Notification>, i: nat)
    requires i < |ns| && ns[i].ErrorNotice?
    ensures Delivered(current, ns).Failure?
  {
    DeliveredSucceeds(current, ns);
  }

  /**
   * A partition revoked at step `i` is not assigned at the end of the run
   * unless some later ASSIGN notification hands it back.
   */
  lemma RevokedStaysOut(current: seq<TopicPartition>, ns: seq<Notification>, i: nat, p: TopicPartition)
    requires Delivered(current, ns).Success?
    requires i < |ns| && ns[i].RebalanceNotice? && ns[i].err == REVOKE_PARTITIONS
    requires forall j :: i < j < |ns| && ns[j].RebalanceNotice? && ns[j].err == ASSIGN_PARTITIONS ==> p !in ns[j].partitions
    ensures p !in Delivered(current, ns).value
  {
    DeliveredSucceeds(current, ns);
  }
}
