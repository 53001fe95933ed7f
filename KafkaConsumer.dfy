/**
 * The client library's consumer handle (`RdKafka\KafkaConsumer`) reduced to
 * the state the controller touches: the configuration it was built from,
 * its subscription and its partition assignment. Network effects of
 * `subscribe` and `assign` are not modelled.
 */
module KafkaConsumer {
  import opened KafkaConf

  /** `RdKafka\TopicPartition`: a partition of a topic. */
  datatype TopicPartition = TopicPartition(topic: string, partition: int)

  class Consumer {
    /** The configuration map copied from the `Conf` at construction. */
    const settings: map<string, string>
    /** Whether the error and rebalance callbacks were registered on that `Conf`. */
    const errorCbRegistered: bool
    const rebalanceCbRegistered: bool
    var subscription: seq<string>
    var assignment: seq<TopicPartition>

    /** `new KafkaConsumer($conf)`: a handle with no subscription and no assignment. */
    constructor (conf: Conf)
      ensures settings == conf.entries
      ensures errorCbRegistered == conf.errorCbSet && rebalanceCbRegistered == conf.rebalanceCbSet
      ensures subscription == [] && assignment == []
    {
      settings := conf.entries;
      errorCbRegistered := conf.errorCbSet;
      rebalanceCbRegistered := conf.rebalanceCbSet;
      subscription := [];
      assignment := [];
    }

    /** `subscribe($topics)`: replaces the subscription. */
    method Subscribe(topics: seq<string>)
      modifies this`subscription
      ensures subscription == topics
    {
      subscription := topics;
    }

    /** `assign($partitions)`; `assign(null)` is `Assign([])`. */
    method Assign(partitions: seq<TopicPartition>)
      modifies this`assignment
      ensures assignment == partitions
    {
      assignment := partitions;
    }
  }
}
