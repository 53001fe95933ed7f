# Consumer-lag metrics controller, modelled in Dafny

This project models the core of the `MetricsController` of an offsets-monitoring
service for a Kafka cluster. The controller
- builds a client configuration that must never auto-commit offsets;
- registers an error callback and a rebalance callback;
- subscribes to the requested topics;
- assembles a report that maps each topic to its partitions. Each partition entry
  holds the low and high watermarks (`min`, `max`), their difference (`diff`) and
  the group's committed offset (`current`).

The Kafka client is replaced by plain input data:
- the broker metadata is a sequence of `(topic, partition ids)`;
- the watermark query is a function `(topic, pid) -> (low, high)`;
- the committed-offset query is a function `(topic, pid) -> seq<int>`;
- the notifications that the client library delivers to the two callbacks are a
  sequence of `Notification`s.

Modules, following the structure of `src/Controller/MetricsController.php`:

- `Wrappers`: `Option`, `Result`, `Outcome`.
- `Strings`: PHP's `implode` (`Join`) and `explode` (`Split`) for a one-character
  separator, and how they round-trip.
- `KafkaConf`: the `RdKafka\Conf` object as a class. `entries` is its key/value map.
  A ghost log `writes` records every `set` call. `Applied`/`LastWrite` give the
  last-write-wins meaning of that log.
- `KafkaConsumer`: the `RdKafka\KafkaConsumer` handle as a class. It holds its
  settings, its subscription and its `assignment`.
- `ConsumerConfig`: the seven fixed writes of `initConsumer`, the defaults they
  produce, and which defaults survive the caller's properties.
- `Rebalance`: the error callback, the rebalance callback (a method that changes
  `kafka.assignment`), and `Delivered`, the effect of a whole sequence of
  notifications.
- `Report`: the nested loops of `metrics` as a method, `CollectReport`. It is
  proved equal to a recursive specification `ReportOf`. `ReportOf` is in turn
  proved to satisfy `Describes`, a characterisation with no loops.
- `MetricsController`: the controller class with `InitConsumer` and `Metrics`,
  and lemmas about the configuration that the controller's own properties produce.

A lag collector of this kind is usually meant to behave in a few ways that this
code does not. The model follows the code:
- The report walks the broker **metadata** partitions, not the assigned
  partitions. So a revoked partition that is still listed in the metadata does
  appear in the report. `RevokedStaysOut` is about the assignment only.
- A requested topic that the metadata lists with **zero partitions** gets no key
  in the report, because the code only creates `$result[$topicName]` when it
  writes a partition entry. One would expect an empty map under that topic's key
  instead. `Describes` states the code's behaviour: a key exists exactly for
  requested topics listed with at least one partition.
- **No configuration errors.** One would expect an empty broker list or missing
  TLS material to be rejected before any connection. The code checks neither.
  `EmptyConfigurationAccepted` shows that an empty KAFKA_BROKERS and an empty
  KAFKA_CRT give an empty broker list and an empty CA location, and that the run
  raises only when a notification does.
- **The consumer is never released.** One would expect the consumer to be closed
  on every exit path, including when a callback raises. The code never closes it,
  and the model's `Consumer` has no close operation.
- The entry's `diff` is `max - min` and is not clamped. `PartitionEntry` states
  that `diff >= 0` exactly when `low <= high`.
- The code has no "drift" field. The entry holds `current`, the committed offset.

## Model

| member | source | states |
|---|---|---|
| Strings.Split | src/Controller/MetricsController.php:104-105 | `explode` on one character never returns an empty list |
| Strings.SplitPiecesLackSeparator | src/Controller/MetricsController.php:104-105 | no topic or broker string taken from the environment contains its separator |
| Strings.JoinSplitReplaces | src/Controller/MetricsController.php:85 | splitting on one character and joining with another replaces every occurrence of the first by the second (how KAFKA_BROKERS becomes the broker list) |
| Strings.Join | src/Controller/MetricsController.php:85 | `implode(sep, parts)`: the parts with `sep` between neighbours; `""` for no parts, and the result begins with the first part |
| Strings.JoinSplit | src/Controller/MetricsController.php:85 | `implode(c, explode(c, s)) == s` for every string |
| Strings.SplitJoin | src/Controller/MetricsController.php:85 | `explode(c, implode(c, parts)) == parts` for a non-empty list of parts without `c` |
| KafkaConf.Applied | src/Controller/MetricsController.php:80-91 | the map after performing a sequence of `set` writes in order; a write never removes a key |
| KafkaConf.LastWrite | src/Controller/MetricsController.php:80-91 | the value of the last write of a key, if any; that (key, value) write is among the writes |
| KafkaConf.AppliedAt | src/Controller/MetricsController.php:80-91 | after a sequence of `set` writes, a key is present exactly when it was present before or written, and its value is its last written value, else its old value |
| KafkaConf.LastWriteAppend | src/Controller/MetricsController.php:80-91 | of two successive batches of writes, the later batch decides every key it writes |
| KafkaConf.LastWriteNone | src/Controller/MetricsController.php:88-91 | a key has no last write exactly when no write names it |
| KafkaConf.LastWriteIndex | src/Controller/MetricsController.php:88-91 | a key's last write is the write at the last index that names the key |
| KafkaConf.LastWriteAtIndex | src/Controller/MetricsController.php:88-91 | the write at the last index naming a key is that key's last write |
| KafkaConf.Conf.constructor | src/Controller/MetricsController.php:41 | a new configuration has no writes and no callbacks |
| KafkaConf.Conf.Set | src/Controller/MetricsController.php:80-90 | `set` appends one write to the log and replaces that key's value, keeping the map equal to the log's last-write-wins map |
| KafkaConf.Conf.SetErrorCb | src/Controller/MetricsController.php:44 | the error callback is registered |
| KafkaConf.Conf.SetRebalanceCb | src/Controller/MetricsController.php:51 | the rebalance callback is registered |
| KafkaConsumer.Consumer.constructor | src/Controller/MetricsController.php:93 | the consumer copies the configuration map and the callback registrations, with no subscription and no assignment |
| KafkaConsumer.Consumer.Subscribe | src/Controller/MetricsController.php:120 | the subscription becomes exactly the given topics |
| KafkaConsumer.Consumer.Assign | src/Controller/MetricsController.php:62 | the assignment becomes exactly the given partitions |
| ConsumerConfig.InitialWrites | src/Controller/MetricsController.php:80-86 | the seven fixed writes in source order, the broker list joined by `,`; no two of them name the same key |
| ConsumerConfig.Settings | src/Controller/MetricsController.php:80-91 | every write `initConsumer` makes: the fixed writes followed by the properties in order |
| ConsumerConfig.Defaults | src/Controller/MetricsController.php:80-86 | the seven fixed settings as a map, independent of the write order |
| ConsumerConfig.InitialLastWrite | src/Controller/MetricsController.php:80-86 | each of the seven fixed keys is written with its default value and no later fixed write replaces it; no other key is written |
| ConsumerConfig.SettingAt | src/Controller/MetricsController.php:80-91 | in the final configuration a key holds the value of the last caller property naming it, else its fixed default, and is absent when neither writes it |
| ConsumerConfig.NeverCommitsUnlessOverridden | src/Controller/MetricsController.php:80-91 | `enable.auto.commit` is `false` and `offset.store.method` is `none` exactly when the last caller property naming the key is absent or sets that same value |
| ConsumerConfig.BrokersAndTransport | src/Controller/MetricsController.php:85-91 | unless a property overrides it, `metadata.broker.list` is the brokers joined by `,` and `security.protocol` is `ssl` |
| Rebalance.ErrorCb | src/Controller/MetricsController.php:44-48 | the error callback always raises, with the broker's error code |
| Rebalance.Decision | src/Controller/MetricsController.php:53-77 | the `switch`: the assignment ASSIGN or REVOKE installs, or the exception any other code raises; it succeeds exactly for those two codes |
| Rebalance.Handle | src/Controller/MetricsController.php:44-78 | one notification through its callback: a rebalance notice goes to `Decision`, a broker error raises; it succeeds exactly for an accepted notice |
| Rebalance.Delivered | src/Controller/MetricsController.php:44-78 | the assignment after handling a run of notifications in order, or the first exception raised, which ends the run |
| Rebalance.RebalanceCb | src/Controller/MetricsController.php:51-78 | ASSIGN sets the assignment to exactly the given partitions; REVOKE sets it to empty; any other code raises and leaves the assignment unchanged |
| Rebalance.DeliveredSucceeds | src/Controller/MetricsController.php:44-78 | a run of notifications raises nothing exactly when each one is an ASSIGN or REVOKE; the final assignment is then the one the last notification decided |
| Rebalance.DeliveredFailsAtFirst | src/Controller/MetricsController.php:44-78 | a run raises the exception of its first rejected notification |
| Rebalance.ErrorNoticeAborts | src/Controller/MetricsController.php:44-48 | a broker error notification anywhere in a run makes the run raise |
| Rebalance.RevokedStaysOut | src/Controller/MetricsController.php:65-74 | a partition revoked at some step is not in the final assignment unless a later ASSIGN gives it back |
| Report.WithCommitted | src/Controller/MetricsController.php:139-141 | the entry after `current` is set from each committed offset in turn |
| Report.PartitionsStep | src/Controller/MetricsController.php:127-142 | the report after writing and amending the entry of each partition of one topic, in order |
| Report.TopicStep | src/Controller/MetricsController.php:123-143 | the report after one metadata topic: its partitions handled if the topic was requested, else unchanged |
| Report.ReportOf | src/Controller/MetricsController.php:122-144 | the report after handling every metadata topic in order, starting from the empty array |
| Report.WithCommittedLast | src/Controller/MetricsController.php:137-141 | amending an entry with the committed offsets sets `current` to the last one (unchanged when none) and touches no other field |
| Report.PartitionEntry | src/Controller/MetricsController.php:128-141 | an entry has `partition = pid`, `min = low`, `max = high`, `diff = high - low` (non-negative exactly when `low <= high`) and `current` = the last committed offset, or none |
| Report.PartitionsStepEffect | src/Controller/MetricsController.php:127-142 | handling a topic's partitions adds that topic's key when it has a partition, adds exactly those ids with their entries, and changes no other topic or partition |
| Report.ReportOfDescribes | src/Controller/MetricsController.php:122-144 | the report has a key for exactly the requested topics that the metadata lists with some partition, under it exactly the listed ids, and each entry as `PartitionEntry` gives it |
| Report.CollectReport | src/Controller/MetricsController.php:122-144 | the nested loops build exactly `ReportOf` of the metadata, and so a report that `Describes` characterises |
| Report.OrdersExample | src/Controller/MetricsController.php:122-144 | worked example: `orders` with partitions 0, 1 and 2 gives entries (100, 150, 50, 140), (200, 205, 5, -1001) for the never-committed sentinel, and (0, 0, 0, none) for an empty answer; a metadata topic that was not requested, and a requested topic missing from the metadata, get no key |
| MetricsController.TopicsOf | src/Controller/MetricsController.php:104 | KAFKA_TOPICS split on spaces: at least one topic, none containing a space |
| MetricsController.BrokersOf | src/Controller/MetricsController.php:105 | KAFKA_BROKERS split on newlines: at least one broker, none containing a newline |
| MetricsController.ControllerProperties | src/Controller/MetricsController.php:107-116 | the five TLS and group properties in source order, with distinct keys |
| MetricsController.ControllerPropertiesWrites | src/Controller/MetricsController.php:109-115 | the controller's properties write the four TLS settings and `group.id` with the environment's values, and write none of the fixed keys |
| MetricsController.ControllerSettingAt | src/Controller/MetricsController.php:107-118 | a key of the controller's configuration holds its property value if it has one, else its default, else it is absent |
| MetricsController.ControllerConfiguration | src/Controller/MetricsController.php:80-118 | with the controller's own properties, auto-commit stays `false`, the offset store `none`, the transport `ssl`, the broker list is KAFKA_BROKERS with newlines replaced by commas, and the TLS and group settings are the environment's values |
| MetricsController.MetricsResult | src/Controller/MetricsController.php:102-146 | what `metrics` returns: the first exception a notification raises, else the report `ReportOf` builds for the split topic list |
| MetricsController.EmptyConfigurationAccepted | src/Controller/MetricsController.php:85-118 | an empty KAFKA_BROKERS and an empty KAFKA_CRT raise nothing: the broker list and the CA location are empty strings, and the run succeeds whenever every notification is accepted |
| MetricsController.MetricsOutcome | src/Controller/MetricsController.php:102-146 | `metrics` raises exactly when some notification is rejected, and always after a broker error notification; otherwise its report is the one `Describes` characterises for the requested topics |
| MetricsController.MetricsController.constructor | src/Controller/MetricsController.php:30-33 | a new controller has no consumer |
| MetricsController.MetricsController.InitConsumer | src/Controller/MetricsController.php:39-94 | stores a fresh consumer with both callbacks registered and with the configuration of the seven fixed writes followed by the properties in order; a missing properties option means none |
| MetricsController.MetricsController.Metrics | src/Controller/MetricsController.php:102-146 | initialises the consumer from the environment, subscribes it to the split topic list, handles the notifications through the callbacks until one raises, and otherwise returns the report `ReportOf` gives; on success the assignment is the one the notifications decided |

## Left out

- The network effects of the Kafka client: opening a connection, `subscribe`,
  `getMetadata`, `queryWatermarkOffsets`, `getCommittedOffsets`, `assign`. These
  are foreign library calls. Their answers are inputs (metadata, `Watermarks`,
  `Committed`), and the consumer's state is reduced to its subscription and
  assignment.
- Failures of the broker queries: in the source an exception from the metadata,
  watermark or committed-offset query aborts `metrics`. The model's queries are
  total functions, so such an exception has no counterpart.
- When the client library invokes the callbacks: the model delivers every
  notification after `subscribe` and before the report is assembled, in the order
  given. Concurrency and timing are not modelled.
- The 60-second timeouts: they are real-time behaviour.
- The TLS file paths and the passphrase: they are opaque strings passed through.
- librdkafka's own built-in defaults for keys the controller never sets: the
  configuration map holds only what `set` wrote.
- KafkaConf.Conf.Set: accepts every key and value. The real `set` raises on an
  unknown property name or an invalid value, and it treats `bootstrap.servers` as
  another name for `metadata.broker.list`. So in reality a caller property named
  `bootstrap.servers` replaces the broker list, while `BrokersAndTransport` and
  `SettingAt` treat the two names as different keys.
- KafkaConsumer.Consumer.constructor: always succeeds. The real
  `new KafkaConsumer($conf)` raises when `group.id` is not set, so
  `InitConsumer(brokers, None)` would raise instead of producing a consumer. The
  controller itself always passes `group.id`.
- Reading `$_ENV`: the seven variables are the fields of an `Env` value.
- Logger calls and message formatting: diagnostics that do not affect the result.
- Rebalance.ErrorCb: the exception message text (`sprintf` of the error string and
  reason) is not modelled; the error carries the code and the reason.
- Rebalance.RebalanceCb: the `$partitions = null` default is not modelled. The
  partitions are always a sequence, since the library always passes an array.
- JSON serialisation, the HTTP response and Symfony routing, including how PHP
  renders an empty result or numeric-string keys.
- PHP's loose comparison in `in_array`: two different numeric strings that PHP
  considers equal (for example `"10"` and `"1e1"`) are distinct topic names here.
- PHP's 64-bit integers: offsets and `diff` are unbounded; `high - low` cannot
  overflow for real offsets.
- The committed-offset query answers with a sequence of offsets. For a partition
  the group never committed, the real client answers with one entry carrying the
  sentinel offset -1001, and the code copies that value into `current` unchanged.
  The model covers that answer and an empty answer alike; `OrdersExample` shows both.
- `DefaultController` returns the constant `'OK'` and is not part of this model.
