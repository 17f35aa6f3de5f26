/**
 Loading and validating the configuration.  Each setting is looked up in its section and,
 if it is missing there or has another type, at the top level; a number that is out of
 range leaves the default in place.
 */
module Config {
  import opened JsonGrammar
  import opened JsonPrinting
  import JsonParsing

  const MAX_U32: nat := 0xFFFF_FFFF

  datatype MinerConfig = MinerConfig(
    nodeId: string,
    workerId: string,
    payoutAddress: string,
    poolUsername: string,
    poolHost: string,
    poolPort: nat,
    poolPassword: string,
    poolPasswordEnv: string,
    poolRequireTls: bool,
    poolEnabled: bool,
    poolNotifyTimeoutSec: nat,
    poolMaxCycles: nat,
    poolMaxReconnectAttempts: nat,
    poolReconnectInitialSec: nat,
    poolReconnectMaxSec: nat,
    prefix: string,
    difficultyBits: nat,
    threadCount: nat,
    reportIntervalMs: nat,
    logOutput: string,
    healthOutput: string,
    healthEmitEachCycle: bool)

  /** `cores` is what `hardware_concurrency` reports, possibly 0. */
  function Default(cores: nat): MinerConfig {
    MinerConfig("CP-1", "cp1", "", "", "pool.example.com", 3333, "x", "", false, false, 30, 0, 0, 1, 30,
                "hello-bitcoin", 24, if cores > 1 then cores else 1, 1000, "logs/miner.log", "", false)
  }

  // ----- lookups -----

  function ObjectField(obj: Option<Json>, key: string): Option<Json> {
    if obj.Some? && obj.value.Object? && key in obj.value.fields then Some(obj.value.fields[key]) else None
  }

  function StringField(obj: Option<Json>, key: string): Option<string> {
    match ObjectField(obj, key)
    case Some(String(s)) => Some(s)
    case _ => None
  }

  function UintField(obj: Option<Json>, key: string): Option<nat> {
    match ObjectField(obj, key)
    case Some(Number(n)) => Some(n)
    case _ => None
  }

  function BoolField(obj: Option<Json>, key: string): Option<bool> {
    match ObjectField(obj, key)
    case Some(Bool(b)) => Some(b)
    case _ => None
  }

  // ----- what a loaded configuration is -----

  function First<T>(a: Option<T>, b: Option<T>): Option<T> { if a.Some? then a else b }

  function StringSetting(root: Json, section: string, key: string, default: string): string {
    var r := First(StringField(ObjectField(Some(root), section), key), StringField(Some(root), key));
    if r.Some? then r.value else default
  }

  function BoolSetting(root: Json, section: string, key: string, default: bool): bool {
    var r := First(BoolField(ObjectField(Some(root), section), key), BoolField(Some(root), key));
    if r.Some? then r.value else default
  }

  function UintSetting(root: Json, section: string, key: string, low: nat, high: nat, default: nat): nat {
    var r := First(UintField(ObjectField(Some(root), section), key), UintField(Some(root), key));
    if r.Some? && low <= r.value <= high then r.value else default
  }

  function TopString(root: Json, key: string, default: string): string {
    var r := StringField(Some(root), key);
    if r.Some? then r.value else default
  }

  function Interpret(root: Json, cores: nat): MinerConfig {
    var d := Default(cores);
    MinerConfig(
      TopString(root, "node_id", d.nodeId),
      TopString(root, "worker_id", d.workerId),
      TopString(root, "payout_address", d.payoutAddress),
      StringSetting(root, "pool", "username", d.poolUsername),
      StringSetting(root, "pool", "host", d.poolHost),
      UintSetting(root, "pool", "port", 1, 65535, d.poolPort),
      StringSetting(root, "pool", "password", d.poolPassword),
      StringSetting(root, "pool", "password_env", d.poolPasswordEnv),
      BoolSetting(root, "pool", "require_tls", d.poolRequireTls),
      BoolSetting(root, "pool", "enabled", d.poolEnabled),
      UintSetting(root, "pool", "notify_timeout_sec", 1, MAX_U32, d.poolNotifyTimeoutSec),
      UintSetting(root, "pool", "max_cycles", 0, MAX_U32, d.poolMaxCycles),
      UintSetting(root, "pool", "max_reconnect_attempts", 0, MAX_U32, d.poolMaxReconnectAttempts),
      UintSetting(root, "pool", "reconnect_initial_sec", 1, MAX_U32, d.poolReconnectInitialSec),
      UintSetting(root, "pool", "reconnect_max_sec", 1, MAX_U32, d.poolReconnectMaxSec),
      StringSetting(root, "hashing", "prefix", d.prefix),
      UintSetting(root, "hashing", "difficulty_bits", 0, 255, d.difficultyBits),
      UintSetting(root, "hashing", "threads", 1, MAX_U32, d.threadCount),
      UintSetting(root, "hashing", "report_interval_ms", 1, MAX_U32, d.reportIntervalMs),
      StringSetting(root, "logging", "output", d.logOutput),
      StringSetting(root, "logging", "health_output", d.healthOutput),
      BoolSetting(root, "logging", "health_emit_each_cycle", d.healthEmitEachCycle))
  }

  /** An unreadable file reads as the empty text; that and anything but an object is refused. */
  function Load(text: string, cores: nat): Option<MinerConfig> {
    match Parse(text)
    case Some(root) => if text != [] && root.Object? then Some(Interpret(root, cores)) else None
    case None => None
  }

  // ----- properties -----

  ghost predicate InRanges(cfg: MinerConfig) {
    && 1 <= cfg.poolPort <= 65535
    && cfg.difficultyBits <= 255
    && 1 <= cfg.threadCount <= MAX_U32
    && 1 <= cfg.reportIntervalMs <= MAX_U32
    && 1 <= cfg.poolNotifyTimeoutSec <= MAX_U32
    && 1 <= cfg.poolReconnectInitialSec <= MAX_U32
    && 1 <= cfg.poolReconnectMaxSec <= MAX_U32
    && cfg.poolMaxCycles <= MAX_U32
    && cfg.poolMaxReconnectAttempts <= MAX_U32
  }

  /** Whatever the text says, an accepted configuration is within its ranges. */
  lemma LoadedIsInRange(text: string, cores: nat)
    requires Load(text, cores).Some? && cores <= MAX_U32
    ensures InRanges(Load(text, cores).value)
  {
  }

  /** The nested rendering of a configuration. */
  function PoolJson(cfg: MinerConfig): Json {
    Object(map[
      "username" := String(cfg.poolUsername),
      "host" := String(cfg.poolHost),
      "port" := Number(cfg.poolPort),
      "password" := String(cfg.poolPassword),
      "password_env" := String(cfg.poolPasswordEnv),
      "require_tls" := Bool(cfg.poolRequireTls),
      "enabled" := Bool(cfg.poolEnabled),
      "notify_timeout_sec" := Number(cfg.poolNotifyTimeoutSec),
      "max_cycles" := Number(cfg.poolMaxCycles),
      "max_reconnect_attempts" := Number(cfg.poolMaxReconnectAttempts),
      "reconnect_initial_sec" := Number(cfg.poolReconnectInitialSec),
      "reconnect_max_sec" := Number(cfg.poolReconnectMaxSec)])
  }

  function HashingJson(cfg: MinerConfig): Json {
    Object(map[
      "prefix" := String(cfg.prefix),
      "difficulty_bits" := Number(cfg.difficultyBits),
      "threads" := Number(cfg.threadCount),
      "report_interval_ms" := Number(cfg.reportIntervalMs)])
  }

  function LoggingJson(cfg: MinerConfig): Json {
    Object(map[
      "output" := String(cfg.logOutput),
      "health_output" := String(cfg.healthOutput),
      "health_emit_each_cycle" := Bool(cfg.healthEmitEachCycle)])
  }

  function ConfigJson(cfg: MinerConfig): Json {
    Object(map[
      "node_id" := String(cfg.nodeId),
      "worker_id" := String(cfg.workerId),
      "payout_address" := String(cfg.payoutAddress),
      "pool" := PoolJson(cfg),
      "hashing" := HashingJson(cfg),
      "logging" := LoggingJson(cfg)])
  }

  // One section at a time, so that each map lookup is resolved where the map is small.

  lemma SectionsOf(cfg: MinerConfig)
    ensures ObjectField(Some(ConfigJson(cfg)), "pool") == Some(PoolJson(cfg))
    ensures ObjectField(Some(ConfigJson(cfg)), "hashing") == Some(HashingJson(cfg))
    ensures ObjectField(Some(ConfigJson(cfg)), "logging") == Some(LoggingJson(cfg))
    ensures StringField(Some(ConfigJson(cfg)), "node_id") == Some(cfg.nodeId)
    ensures StringField(Some(ConfigJson(cfg)), "worker_id") == Some(cfg.workerId)
    ensures StringField(Some(ConfigJson(cfg)), "payout_address") == Some(cfg.payoutAddress)
  {
  }

  lemma PoolSettings(cfg: MinerConfig)
    ensures var pool := Some(PoolJson(cfg));
            && StringField(pool, "username") == Some(cfg.poolUsername)
            && StringField(pool, "host") == Some(cfg.poolHost)
            && UintField(pool, "port") == Some(cfg.poolPort)
            && StringField(pool, "password") == Some(cfg.poolPassword)
            && StringField(pool, "password_env") == Some(cfg.poolPasswordEnv)
            && BoolField(pool, "require_tls") == Some(cfg.poolRequireTls)
            && BoolField(pool, "enabled") == Some(cfg.poolEnabled)
  {
  }

  lemma PoolNumbers(cfg: MinerConfig)
    ensures var pool := Some(PoolJson(cfg));
            && UintField(pool, "notify_timeout_sec") == Some(cfg.poolNotifyTimeoutSec)
            && UintField(pool, "max_cycles") == Some(cfg.poolMaxCycles)
            && UintField(pool, "max_reconnect_attempts") == Some(cfg.poolMaxReconnectAttempts)
            && UintField(pool, "reconnect_initial_sec") == Some(cfg.poolReconnectInitialSec)
            && UintField(pool, "reconnect_max_sec") == Some(cfg.poolReconnectMaxSec)
  {
  }

  lemma OtherSettings(cfg: MinerConfig)
    ensures var hashing, logging := Some(HashingJson(cfg)), Some(LoggingJson(cfg));
            && StringField(hashing, "prefix") == Some(cfg.prefix)
            && UintField(hashing, "difficulty_bits") == Some(cfg.difficultyBits)
            && UintField(hashing, "threads") == Some(cfg.threadCount)
            && UintField(hashing, "report_interval_ms") == Some(cfg.reportIntervalMs)
            && StringField(logging, "output") == Some(cfg.logOutput)
            && StringField(logging, "health_output") == Some(cfg.healthOutput)
            && BoolField(logging, "health_emit_each_cycle") == Some(cfg.healthEmitEachCycle)
  {
  }

  lemma InterpretRoundTrip(cfg: MinerConfig, cores: nat)
    requires InRanges(cfg)
    ensures Interpret(ConfigJson(cfg), cores) == cfg
  {
    SectionsOf(cfg);
    PoolSettings(cfg);
    PoolNumbers(cfg);
    OtherSettings(cfg);
  }

  /** Writing a configuration in the nested schema, with any order and spacing, and loading
      the text restores every field. */
  lemma ConfigRoundTrip(cfg: MinerConfig, d: Document, cores: nat)
    requires InRanges(cfg) && Renders(d.tree, ConfigJson(cfg)) && Spaces(d.before) && Spaces(d.after)
    ensures Load(Text(d), cores) == Some(cfg)
  {
    PrintParseRoundTrip(ConfigJson(cfg), d);
    InterpretRoundTrip(cfg, cores);
    assert Text(d) != [] by { assert d.tree.TObject? || d.tree.TEmpty?; }
  }

  /** Such a text exists for every configuration in range. */
  lemma ConfigHasText(cfg: MinerConfig, cores: nat) returns (text: string)
    requires InRanges(cfg)
    ensures Load(text, cores) == Some(cfg)
  {
    var t := RenderingExists(ConfigJson(cfg));
    var d := Document([], t, []);
    ConfigRoundTrip(cfg, d, cores);
    text := Text(d);
  }

  // ----- a nested field shadows the flat one -----

  /** The flat value of `key` cannot matter: either no setting has that name, or the nested
      field is there with the right type, whether or not it is in range. */
  ghost predicate FlatIsShadowed(root: Json, key: string) {
    var pool, hashing, logging :=
      ObjectField(Some(root), "pool"), ObjectField(Some(root), "hashing"), ObjectField(Some(root), "logging");
    && key !in {"node_id", "worker_id", "payout_address", "pool", "hashing", "logging"}
    && (key in {"username", "host", "password", "password_env"} ==> StringField(pool, key).Some?)
    && (key in {"require_tls", "enabled"} ==> BoolField(pool, key).Some?)
    && (key in {"port", "notify_timeout_sec", "max_cycles"} ==> UintField(pool, key).Some?)
    && (key in {"max_reconnect_attempts", "reconnect_initial_sec", "reconnect_max_sec"} ==> UintField(pool, key).Some?)
    && (key == "prefix" ==> StringField(hashing, key).Some?)
    && (key in {"difficulty_bits", "threads", "report_interval_ms"} ==> UintField(hashing, key).Some?)
    && (key in {"output", "health_output"} ==> StringField(logging, key).Some?)
    && (key == "health_emit_each_cycle" ==> BoolField(logging, key).Some?)
  }

  /** `root` with the top-level field `key` set to `j`. */
  function WithFlat(root: Json, key: string, j: Json): Json
    requires root.Object?
  {
    Object(root.fields[key := j])
  }

  lemma StringShadow(root: Json, key: string, j: Json, section: string, k: string, default: string)
    requires root.Object? && key != section && (key == k ==> StringField(ObjectField(Some(root), section), k).Some?)
    ensures StringSetting(WithFlat(root, key, j), section, k, default) == StringSetting(root, section, k, default)
  {
  }

  lemma BoolShadow(root: Json, key: string, j: Json, section: string, k: string, default: bool)
    requires root.Object? && key != section && (key == k ==> BoolField(ObjectField(Some(root), section), k).Some?)
    ensures BoolSetting(WithFlat(root, key, j), section, k, default) == BoolSetting(root, section, k, default)
  {
  }

  lemma UintShadow(root: Json, key: string, j: Json, section: string, k: string, low: nat, high: nat, default: nat)
    requires root.Object? && key != section && (key == k ==> UintField(ObjectField(Some(root), section), k).Some?)
    ensures UintSetting(WithFlat(root, key, j), section, k, low, high, default)
            == UintSetting(root, section, k, low, high, default)
  {
  }

  lemma TopUnchanged(root: Json, key: string, j: Json, k: string, default: string)
    requires root.Object? && key != k
    ensures TopString(WithFlat(root, key, j), k, default) == TopString(root, k, default)
  {
  }

  /** Changing a shadowed flat field, or one that is no setting, does not change the result. */
  lemma NestedShadowsFlat(root: Json, key: string, j: Json, cores: nat)
    requires root.Object? && FlatIsShadowed(root, key)
    ensures Interpret(WithFlat(root, key, j), cores) == Interpret(root, cores)
  {
    var d := Default(cores);
    TopUnchanged(root, key, j, "node_id", d.nodeId);
    TopUnchanged(root, key, j, "worker_id", d.workerId);
    TopUnchanged(root, key, j, "payout_address", d.payoutAddress);
    StringShadow(root, key, j, "pool", "username", d.poolUsername);
    StringShadow(root, key, j, "pool", "host", d.poolHost);
    UintShadow(root, key, j, "pool", "port", 1, 65535, d.poolPort);
    StringShadow(root, key, j, "pool", "password", d.poolPassword);
    StringShadow(root, key, j, "pool", "password_env", d.poolPasswordEnv);
    BoolShadow(root, key, j, "pool", "require_tls", d.poolRequireTls);
    BoolShadow(root, key, j, "pool", "enabled", d.poolEnabled);
    UintShadow(root, key, j, "pool", "notify_timeout_sec", 1, MAX_U32, d.poolNotifyTimeoutSec);
    UintShadow(root, key, j, "pool", "max_cycles", 0, MAX_U32, d.poolMaxCycles);
    UintShadow(root, key, j, "pool", "max_reconnect_attempts", 0, MAX_U32, d.poolMaxReconnectAttempts);
    UintShadow(root, key, j, "pool", "reconnect_initial_sec", 1, MAX_U32, d.poolReconnectInitialSec);
    UintShadow(root, key, j, "pool", "reconnect_max_sec", 1, MAX_U32, d.poolReconnectMaxSec);
    StringShadow(root, key, j, "hashing", "prefix", d.prefix);
    UintShadow(root, key, j, "hashing", "difficulty_bits", 0, 255, d.difficultyBits);
    UintShadow(root, key, j, "hashing", "threads", 1, MAX_U32, d.threadCount);
    UintShadow(root, key, j, "hashing", "report_interval_ms", 1, MAX_U32, d.reportIntervalMs);
    StringShadow(root, key, j, "logging", "output", d.logOutput);
    StringShadow(root, key, j, "logging", "health_output", d.healthOutput);
    BoolShadow(root, key, j, "logging", "health_emit_each_cycle", d.healthEmitEachCycle);
  }

  // ----- loading as the program does it: one field after the other -----

  /** `if (read(section, key, text) || read(root, key, text)) field = text;` */
  method AssignString(root: Json, section: string, key: string, field: string) returns (field': string)
    ensures field' == StringSetting(root, section, key, field)
  {
    var text := StringField(ObjectField(Some(root), section), key);
    if text.None? { text := StringField(Some(root), key); }
    field' := field;
    if text.Some? { field' := text.value; }
  }

  method AssignBool(root: Json, section: string, key: string, field: bool) returns (field': bool)
    ensures field' == BoolSetting(root, section, key, field)
  {
    var flag := BoolField(ObjectField(Some(root), section), key);
    if flag.None? { flag := BoolField(Some(root), key); }
    field' := field;
    if flag.Some? { field' := flag.value; }
  }

  method AssignUint(root: Json, section: string, key: string, low: nat, high: nat, field: nat) returns (field': nat)
    ensures field' == UintSetting(root, section, key, low, high, field)
  {
    var number := UintField(ObjectField(Some(root), section), key);
    if number.None? { number := UintField(Some(root), key); }
    field' := field;
    if number.Some? && low <= number.value <= high { field' := number.value; }
  }

  method AssignTop(root: Json, key: string, field: string) returns (field': string)
    ensures field' == TopString(root, key, field)
  {
    var text := StringField(Some(root), key);
    field' := field;
    if text.Some? { field' := text.value; }
  }

  method LoadConfig(text: string, cores: nat) returns (ok: bool, cfg: MinerConfig)
    ensures Load(text, cores) == if ok then Some(cfg) else None
    ensures !ok ==> cfg == Default(cores)
  {
    cfg := Default(cores);
    if text == [] { return false, cfg; }
    var parser := new JsonParsing.JsonParser(text);
    var parsed, root := parser.Parse();
    if !parsed || !root.Object? { return false, cfg; }
    var s, n, b;
    s := AssignTop(root, "node_id", cfg.nodeId);
    cfg := cfg.(nodeId := s);
    s := AssignTop(root, "worker_id", cfg.workerId);
    cfg := cfg.(workerId := s);
    s := AssignTop(root, "payout_address", cfg.payoutAddress);
    cfg := cfg.(payoutAddress := s);
    s := AssignString(root, "pool", "username", cfg.poolUsername);
    cfg := cfg.(poolUsername := s);
    s := AssignString(root, "pool", "host", cfg.poolHost);
    cfg := cfg.(poolHost := s);
    n := AssignUint(root, "pool", "port", 1, 65535, cfg.poolPort);
    cfg := cfg.(poolPort := n);
    s := AssignString(root, "pool", "password", cfg.poolPassword);
    cfg := cfg.(poolPassword := s);
    s := AssignString(root, "pool", "password_env", cfg.poolPasswordEnv);
    cfg := cfg.(poolPasswordEnv := s);
    b := AssignBool(root, "pool", "require_tls", cfg.poolRequireTls);
    cfg := cfg.(poolRequireTls := b);
    b := AssignBool(root, "pool", "enabled", cfg.poolEnabled);
    cfg := cfg.(poolEnabled := b);
    n := AssignUint(root, "pool", "notify_timeout_sec", 1, MAX_U32, cfg.poolNotifyTimeoutSec);
    cfg := cfg.(poolNotifyTimeoutSec := n);
    n := AssignUint(root, "pool", "max_cycles", 0, MAX_U32, cfg.poolMaxCycles);
    cfg := cfg.(poolMaxCycles := n);
    n := AssignUint(root, "pool", "max_reconnect_attempts", 0, MAX_U32, cfg.poolMaxReconnectAttempts);
    cfg := cfg.(poolMaxReconnectAttempts := n);
    n := AssignUint(root, "pool", "reconnect_initial_sec", 1, MAX_U32, cfg.poolReconnectInitialSec);
    cfg := cfg.(poolReconnectInitialSec := n);
    n := AssignUint(root, "pool", "reconnect_max_sec", 1, MAX_U32, cfg.poolReconnectMaxSec);
    cfg := cfg.(poolReconnectMaxSec := n);
    s := AssignString(root, "hashing", "prefix", cfg.prefix);
    cfg := cfg.(prefix := s);
    n := AssignUint(root, "hashing", "difficulty_bits", 0, 255, cfg.difficultyBits);
    cfg := cfg.(difficultyBits := n);
    n := AssignUint(root, "hashing", "threads", 1, MAX_U32, cfg.threadCount);
    cfg := cfg.(threadCount := n);
    n := AssignUint(root, "hashing", "report_interval_ms", 1, MAX_U32, cfg.reportIntervalMs);
    cfg := cfg.(reportIntervalMs := n);
    s := AssignString(root, "logging", "output", cfg.logOutput);
    cfg := cfg.(logOutput := s);
    s := AssignString(root, "logging", "health_output", cfg.healthOutput);
    cfg := cfg.(healthOutput := s);
    b := AssignBool(root, "logging", "health_emit_each_cycle", cfg.healthEmitEachCycle);
    cfg := cfg.(healthEmitEachCycle := b);
    ok := true;
  }
}
