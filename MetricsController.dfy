/**
 * The `MetricsController` class: `initConsumer` builds the configuration
 * and the consumer; `metrics` splits the topic and broker strings,
 * initialises the consumer, subscribes, and assembles the lag report from
 * the broker's answers, which are inputs here.
 */
module MetricsController {
  import opened Wrappers
  import opened Strings
  import opened KafkaConf
  import opened KafkaConsumer
  import opened ConsumerConfig
  import opened Rebalance
  import opened Report

  /** The environment variables `metrics` reads, as given strings. */
  datatype Env = Env(
    topics: string,     // KAFKA_TOPICS
    brokers: string,    // KAFKA_BROKERS
    crt: string,        // KAFKA_CRT
    pub: string,        // KAFKA_PUB
    key: string,        // KAFKA_KEY
    password: string,   // KAFKA_PASSWORD
    group: string)      // KAFKA_GROUP

  /** The topic list: KAFKA_TOPICS split on spaces. */
  function TopicsOf(env: Env): (topics: seq<string>)
    ensures |topics| > 0 && forall t :: t in topics ==> ' ' !in t
  {
    SplitPiecesLackSeparator(env.topics, ' ');
    Split(env.topics, ' ')
  }

  /** The broker list: KAFKA_BROKERS split on newlines. */
  function BrokersOf(env: Env): (brokers: seq<string>)
    ensures |brokers| > 0 && forall b :: b in brokers ==> '\n' !in b
  {
    SplitPiecesLackSeparator(env.brokers, '\n');
    Split(env.brokers, '\n')
  }

  /** The `properties` option `metrics` passes to `initConsumer`, in order. */
  function ControllerProperties(env: Env): (props: seq<Setting>)
    ensures forall i, j :: 0 <= i < j < |props| ==> props[i].0 != props[j].0
  {
    [ ("ssl.ca.location", env.crt),
      ("ssl.certificate.location", env.pub),
      ("ssl.key.location", env.key),
      ("ssl.key.password", env.password),
      ("group.id", env.group) ]
  }

  /** The controller's properties set the TLS material and group id and name none of the fixed keys. */
  lemma ControllerPropertiesWrites(env: Env, key: string)
    ensures key in Defaults(BrokersOf(env)) ==> LastWrite(ControllerProperties(env), key).None?
    ensures LastWrite(ControllerProperties(env), key) ==
      if key == "ssl.ca.location" then Some(env.crt)
      else if key == "ssl.certificate.location" then Some(env.pub)
      else if key == "ssl.key.location" then Some(env.key)
      else if key == "ssl.key.password" then Some(env.password)
      else if key == "group.id" then Some(env.group)
      else None
  {
    var props := ControllerProperties(env);
    if key == "ssl.ca.location" {
      LastWriteAtIndex(props, key, 0);
    } else if key == "ssl.certificate.location" {
      LastWriteAtIndex(props, key, 1);
    } else if key == "ssl.key.location" {
      LastWriteAtIndex(props, key, 2);
    } else if key == "ssl.key.password" {
      LastWriteAtIndex(props, key, 3);
    } else if key == "group.id" {
      LastWriteAtIndex(props, key, 4);
    } else {
      LastWriteNone(props, key);
    }
  }

  /**
   * With the controller's own properties, none of the fixed settings is
   * overridden: auto-commit stays off, the offset store stays `none`, the
   * transport stays `ssl`, and the broker list is KAFKA_BROKERS with every
   * newline replaced by a comma; the TLS material and the group id are the
   * environment's values.
   */
  lemma ControllerConfiguration(env: Env)
    ensures var conf := ConfOf(Settings(BrokersOf(env), ControllerProperties(env)));
      && AUTO_COMMIT in conf && conf[AUTO_COMMIT] == "false"
      && OFFSET_STORE in conf && conf[OFFSET_STORE] == "none"
      && SECURITY_PROTOCOL in conf && conf[SECURITY_PROTOCOL] == "ssl"
      && BROKER_LIST in conf && conf[BROKER_LIST] == ReplaceChar(env.brokers, '\n', ',')
      && "ssl.ca.location" in conf && conf["ssl.ca.location"] == env.crt
      && "ssl.certificate.location" in conf && conf["ssl.certificate.location"] == env.pub
      && "ssl.key.location" in conf && conf["ssl.key.location"] == env.key
      && "ssl.key.password" in conf && conf["ssl.key.password"] == env.password
      && "group.id" in conf && conf["group.id"] == env.group
  {
    ControllerSettingAt(env, AUTO_COMMIT);
    ControllerPropertiesWrites(env, AUTO_COMMIT);
    ControllerSettingAt(env, OFFSET_STORE);
    ControllerPropertiesWrites(env, OFFSET_STORE);
    ControllerSettingAt(env, SECURITY_PROTOCOL);
    ControllerPropertiesWrites(env, SECURITY_PROTOCOL);
    ControllerSettingAt(env, BROKER_LIST);
    ControllerPropertiesWrites(env, BROKER_LIST);
    ControllerSettingAt(env, "ssl.ca.location");
    ControllerPropertiesWrites(env, "ssl.ca.location");
    ControllerSettingAt(env, "ssl.certificate.location");
    ControllerPropertiesWrites(env, "ssl.certificate.location");
    ControllerSettingAt(env, "ssl.key.location");
    ControllerPropertiesWrites(env, "ssl.key.location");
    ControllerSettingAt(env, "ssl.key.password");
    ControllerPropertiesWrites(env, "ssl.key.password");
    ControllerSettingAt(env, "group.id");
    ControllerPropertiesWrites(env, "group.id");
    JoinSplitReplaces(env.brokers, '\n', ',');
  }

  /** One key of the controller's configuration: its property value if it has one, else its default, else absent. */
  lemma ControllerSettingAt(env: Env, key: string)
    ensures var conf := ConfOf(Settings(BrokersOf(env), ControllerProperties(env)));
      var w := LastWrite(ControllerProperties(env), key);
      && (key in conf <==> key in Defaults(BrokersOf(env)) || w.Some?)
      && (key in conf ==> conf[key] == if w.Some? then w.value else Defaults(BrokersOf(env))[key])
  {
    SettingAt(BrokersOf(env), ControllerProperties(env), key);
  }

  /**
   * Nothing checks the broker list or the TLS material: with an empty
   * KAFKA_BROKERS and an empty KAFKA_CRT the broker list and the CA location
   * are set to the empty string, and the run raises only if a notification
   * does.
   */
  lemma EmptyConfigurationAccepted(env: Env, notices: seq<Notification>, metadata: seq<TopicMetadata>, wm: Watermarks, co: Committed)
    requires env.brokers == "" && env.crt == ""
    ensures var conf := ConfOf(Settings(BrokersOf(env), ControllerProperties(env)));
      && BROKER_LIST in conf && conf[BROKER_LIST] == ""
      && "ssl.ca.location" in conf && conf["ssl.ca.location"] == ""
    ensures (forall i :: 0 <= i < |notices| ==> Accepted(notices[i])) ==> MetricsResult(env, notices, metadata, wm, co).Success?
  {
    ControllerConfiguration(env);
    MetricsOutcome(env, notices, metadata, wm, co);
  }

  /** The value `metrics` produces, or the exception it raises. */
  function MetricsResult(env: Env, notices: seq<Notification>, metadata: seq<TopicMetadata>, wm: Watermarks, co: Committed)
    : Result<LagReport, Error>
  {
    match Delivered([], notices)
    case Failure(e) => Failure(e)
    case Success(_) => Success(ReportOf(metadata, TopicsOf(env), wm, co))
  }

  /**
   * A run raises exactly when some notification is rejected (in particular
   * any broker error notification); otherwise its report is the one
   * `Describes` characterises for the requested topics.
   */
  lemma MetricsOutcome(env: Env, notices: seq<Notification>, metadata: seq<TopicMetadata>, wm: Watermarks, co: Committed)
    ensures MetricsResult(env, notices, metadata, wm, co).Failure? <==> exists i :: 0 <= i < |notices| && !Accepted(notices[i])
    ensures (exists i :: 0 <= i < |notices| && notices[i].ErrorNotice?) ==> MetricsResult(env, notices, metadata, wm, co).Failure?
    ensures MetricsResult(env, notices, metadata, wm, co).Success? ==>
      Describes(MetricsResult(env, notices, metadata, wm, co).value, metadata, TopicsOf(env), wm, co)
  {
    DeliveredSucceeds([], notices);
    ReportOfDescribes(metadata, TopicsOf(env), wm, co);
  }

  class MetricsController {
    var kafkaConsumer: Consumer?

    constructor ()
      ensures kafkaConsumer == null
    {
      kafkaConsumer := null;
    }

    /**
     * `initConsumer`: registers both callbacks, makes the fixed writes and
     * then every property in order (no properties when the option is
     * missing), and stores a consumer built from the result.
     */
    method InitConsumer(brokers: seq<string>, properties: Option<seq<Setting>>)
      modifies this
      ensures kafkaConsumer != null && fresh(kafkaConsumer)
      ensures kafkaConsumer.settings == ConfOf(Settings(brokers, if properties.Some? then properties.value else []))
      ensures kafkaConsumer.errorCbRegistered && kafkaConsumer.rebalanceCbRegistered
      ensures kafkaConsumer.subscription == [] && kafkaConsumer.assignment == []
    {
      var conf := new Conf();
      conf.SetErrorCb();
      conf.SetRebalanceCb();
      conf.Set(AUTO_COMMIT, "false");
      conf.Set(PARTITION_EOF, "true");
      conf.Set(LOG_CONNECTION_CLOSE, "false");
      conf.Set(DEBUG_CONTEXTS, "all");
      conf.Set(OFFSET_STORE, "none");
      conf.Set(BROKER_LIST, Join(brokers, ","));
      conf.Set(SECURITY_PROTOCOL, "ssl");
      assert conf.writes == InitialWrites(brokers);

      var props := if properties.Some? then properties.value else [];
      var i := 0;
      while i < |props|
        invariant 0 <= i <= |props|
        invariant conf.Valid() && conf.writes == InitialWrites(brokers) + props[..i]
        invariant conf.errorCbSet && conf.rebalanceCbSet
      {
        assert props[..i + 1] == props[..i] + [props[i]];
        var (key, val) := props[i];
        conf.Set(key, val);
        i := i + 1;
      }
      assert props[..i] == props;
      kafkaConsumer := new Consumer(conf);
    }

    /**
     * `metrics`: builds the options from `env`, initialises the consumer and
     * subscribes it to the topics. The notifications the client library
     * delivers to the callbacks meanwhile are `notices`; the first one that
     * raises ends the run. Otherwise the report is assembled from
     * `metadata`, `wm` and `co`.
     */
    method Metrics(env: Env, notices: seq<Notification>, metadata: seq<TopicMetadata>, wm: Watermarks, co: Committed)
      returns (res: Result<LagReport, Error>)
      modifies this
      ensures res == MetricsResult(env, notices, metadata, wm, co)
      ensures kafkaConsumer != null && fresh(kafkaConsumer)
      ensures kafkaConsumer.settings == ConfOf(Settings(BrokersOf(env), ControllerProperties(env)))
      ensures kafkaConsumer.subscription == TopicsOf(env)
      ensures res.Success? ==> Delivered([], notices) == Success(kafkaConsumer.assignment)
    {
      var kafkaTopics := Split(env.topics, ' ');
      var kafkaBrokers := Split(env.brokers, '\n');
      InitConsumer(kafkaBrokers, Some(ControllerProperties(env)));
      var kafka := kafkaConsumer;
      kafka.Subscribe(kafkaTopics);

      var i := 0;
      while i < |notices|
        invariant 0 <= i <= |notices|
        invariant kafkaConsumer == kafka && kafka.subscription == kafkaTopics
        invariant Delivered([], notices) == Delivered(kafka.assignment, notices[i..])
      {
        assert notices[i..][1..] == notices[i + 1..];
        match notices[i] {
          case RebalanceNotice(err, partitions) =>
            var o := RebalanceCb(kafka, err, partitions);
            if o.Fail? {
              return Failure(o.error);
            }
          case ErrorNotice(err, reason) =>
            return Failure(ErrorCb(err, reason).error);
        }
        i := i + 1;
      }

      var result := CollectReport(metadata, kafkaTopics, wm, co);
      return Success(result);
    }
  }
}
