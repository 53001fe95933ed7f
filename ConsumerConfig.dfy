/**
 * The writes `initConsumer` makes to the configuration, in order: seven
 * fixed settings (the broker list among them), then every caller-supplied
 * property. The lemmas say which fixed settings survive the properties.
 */
module ConsumerConfig {
  import opened Wrappers
  import opened Strings
  import opened KafkaConf

  const AUTO_COMMIT: string := "enable.auto.commit"
  const PARTITION_EOF: string := "enable.partition.eof"
  const LOG_CONNECTION_CLOSE: string := "log.connection.close"
  const DEBUG_CONTEXTS: string := "debug"
  const OFFSET_STORE: string := "offset.store.method"
  const BROKER_LIST: string := "metadata.broker.list"
  const SECURITY_PROTOCOL: string := "security.protocol"

  /** The fixed writes, in the order `initConsumer` makes them. */
  function InitialWrites(brokers: seq<string>): (w: seq<Setting>)
    ensures forall i, j :: 0 <= i < j < |w| ==> w[i].0 != w[j].0
  {
    [ (AUTO_COMMIT, "false"),
      (PARTITION_EOF, "true"),
      (LOG_CONNECTION_CLOSE, "false"),
      (DEBUG_CONTEXTS, "all"),
      (OFFSET_STORE, "none"),
      (BROKER_LIST, Join(brokers, ",")),
      (SECURITY_PROTOCOL, "ssl") ]
  }

  /** Every write `initConsumer` makes: the fixed ones, then the properties in order. */
  function Settings(brokers: seq<string>, properties: seq<Setting>): seq<Setting>
  {
    InitialWrites(brokers) + properties
  }

  /** The configuration map those writes produce on a fresh `Conf`. */
  function ConfOf(writes: seq<Setting>): map<string, string>
  {
    Applied(map[], writes)
  }

  /** The fixed settings as a map, stated independently of the write order. */
  function Defaults(brokers: seq<string>): map<string, string>
  {
    map[AUTO_COMMIT := "false",
        PARTITION_EOF := "true",
        LOG_CONNECTION_CLOSE := "false",
        DEBUG_CONTEXTS := "all",
        OFFSET_STORE := "none",
        BROKER_LIST := Join(brokers, ","),
        SECURITY_PROTOCOL := "ssl"]
  }

  /** Each fixed key is written exactly once among the fixed writes, with its default value. */
  lemma InitialLastWrite(brokers: seq<string>, key: string)
    ensures LastWrite(InitialWrites(brokers), key) ==
      if key in Defaults(brokers) then Some(Defaults(brokers)[key]) else None
  {
    var w := InitialWrites(brokers);
    if key !in Defaults(brokers) {
      LastWriteNone(w, key);
    } else {
      var i :=
        if key == AUTO_COMMIT then 0
        else if key == PARTITION_EOF then 1
        else if key == LOG_CONNECTION_CLOSE then 2
        else if key == DEBUG_CONTEXTS then 3
        else if key == OFFSET_STORE then 4
        else if key == BROKER_LIST then 5
        else 6;
      LastWriteAtIndex(w, key, i);
    }
  }

  /**
   * The final configuration: a key holds the value of its last caller
   * property if one names it, else its fixed default; keys written by
   * neither are absent.
   */
  lemma SettingAt(brokers: seq<string>, properties: seq<Setting>, key: string)
    ensures key in ConfOf(Settings(brokers, properties)) <==>
      key in Defaults(brokers) || LastWrite(properties, key).Some?
    ensures key in ConfOf(Settings(brokers, properties)) ==>
      ConfOf(Settings(brokers, properties))[key] ==
        if LastWrite(properties, key).Some? then LastWrite(properties, key).value else Defaults(brokers)[key]
  {
    InitialLastWrite(brokers, key);
    LastWriteAppend(InitialWrites(brokers), properties, key);
    AppliedAt(map[], Settings(brokers, properties), key);
  }

  /**
   * Auto-commit stays off and the offset store stays `none` unless the last
   * caller property naming that key sets it to something else.
   */
  lemma NeverCommitsUnlessOverridden(brokers: seq<string>, properties: seq<Setting>)
    ensures var conf := ConfOf(Settings(brokers, properties));
      AUTO_COMMIT in conf &&
      (conf[AUTO_COMMIT] == "false" <==>
         LastWrite(properties, AUTO_COMMIT).None? || LastWrite(properties, AUTO_COMMIT) == Some("false"))
    ensures var conf := ConfOf(Settings(brokers, properties));
      OFFSET_STORE in conf &&
      (conf[OFFSET_STORE] == "none" <==>
         LastWrite(properties, OFFSET_STORE).None? || LastWrite(properties, OFFSET_STORE) == Some("none"))
  {
    SettingAt(brokers, properties, AUTO_COMMIT);
    SettingAt(brokers, properties, OFFSET_STORE);
  }

  /** The broker list is the broker strings joined by `,` and the transport is `ssl`, unless a property overrides them. */
  lemma BrokersAndTransport(brokers: seq<string>, properties: seq<Setting>)
    ensures var conf := ConfOf(Settings(brokers, properties));
      LastWrite(properties, BROKER_LIST).None? ==> BROKER_LIST in conf && conf[BROKER_LIST] == Join(brokers, ",")
    ensures var conf := ConfOf(Settings(brokers, properties));
      LastWrite(properties, SECURITY_PROTOCOL).None? ==> SECURITY_PROTOCOL in conf && conf[SECURITY_PROTOCOL] == "ssl"
  {
    SettingAt(brokers, properties, BROKER_LIST);
    SettingAt(brokers, properties, SECURITY_PROTOCOL);
  }
}
