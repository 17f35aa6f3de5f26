/**
 The schema of the configuration, setting by setting: its section, its key, its type, its
 range and its default; what loading does with each of them, and round trips in the nested,
 the flat and any mixed schema.
 */
module ConfigSchema {
  import opened JsonGrammar
  import opened JsonPrinting
  import opened Config

  datatype Setting =
    | NodeId | WorkerId | PayoutAddress | Username | Host | Port
    | Password | PasswordEnv | RequireTls | Enabled | NotifyTimeout | MaxCycles
    | MaxReconnects | ReconnectInitial | ReconnectMax | Prefix | DifficultyBits | Threads
    | ReportInterval | LogOutput | HealthOutput | HealthEmit

  /** Where the setting belongs; identities only stand at the top level. */
  function SectionOf(s: Setting): Option<string> {
    match s
    case NodeId | WorkerId | PayoutAddress => None
    case Username | Host | Port | Password | PasswordEnv | RequireTls | Enabled
       | NotifyTimeout | MaxCycles | MaxReconnects | ReconnectInitial | ReconnectMax => Some("pool")
    case Prefix | DifficultyBits | Threads | ReportInterval => Some("hashing")
    case LogOutput | HealthOutput | HealthEmit => Some("logging")
  }

  function KeyOf(s: Setting): string {
    match s
    case NodeId => "node_id"
    case WorkerId => "worker_id"
    case PayoutAddress => "payout_address"
    case Username => "username"
    case Host => "host"
    case Port => "port"
    case Password => "password"
    case PasswordEnv => "password_env"
    case RequireTls => "require_tls"
    case Enabled => "enabled"
    case NotifyTimeout => "notify_timeout_sec"
    case MaxCycles => "max_cycles"
    case MaxReconnects => "max_reconnect_attempts"
    case ReconnectInitial => "reconnect_initial_sec"
    case ReconnectMax => "reconnect_max_sec"
    case Prefix => "prefix"
    case DifficultyBits => "difficulty_bits"
    case Threads => "threads"
    case ReportInterval => "report_interval_ms"
    case LogOutput => "output"
    case HealthOutput => "health_output"
    case HealthEmit => "health_emit_each_cycle"
  }

  /** The value of a setting in a configuration. */
  function FieldOf(cfg: MinerConfig, s: Setting): Json {
    match s
    case NodeId => String(cfg.nodeId)
    case WorkerId => String(cfg.workerId)
    case PayoutAddress => String(cfg.payoutAddress)
    case Username => String(cfg.poolUsername)
    case Host => String(cfg.poolHost)
    case Port => Number(cfg.poolPort)
    case Password => String(cfg.poolPassword)
    case PasswordEnv => String(cfg.poolPasswordEnv)
    case RequireTls => Bool(cfg.poolRequireTls)
    case Enabled => Bool(cfg.poolEnabled)
    case NotifyTimeout => Number(cfg.poolNotifyTimeoutSec)
    case MaxCycles => Number(cfg.poolMaxCycles)
    case MaxReconnects => Number(cfg.poolMaxReconnectAttempts)
    case ReconnectInitial => Number(cfg.poolReconnectInitialSec)
    case ReconnectMax => Number(cfg.poolReconnectMaxSec)
    case Prefix => String(cfg.prefix)
    case DifficultyBits => Number(cfg.difficultyBits)
    case Threads => Number(cfg.threadCount)
    case ReportInterval => Number(cfg.reportIntervalMs)
    case LogOutput => String(cfg.logOutput)
    case HealthOutput => String(cfg.healthOutput)
    case HealthEmit => Bool(cfg.healthEmitEachCycle)
  }

  /** `cores` is what `hardware_concurrency` reports, possibly 0. */
  function DefaultOf(s: Setting, cores: nat): Json {
    match s
    case NodeId => String("CP-1")
    case WorkerId => String("cp1")
    case PayoutAddress => String("")
    case Username => String("")
    case Host => String("pool.example.com")
    case Port => Number(3333)
    case Password => String("x")
    case PasswordEnv => String("")
    case RequireTls => Bool(false)
    case Enabled => Bool(false)
    case NotifyTimeout => Number(30)
    case MaxCycles => Number(0)
    case MaxReconnects => Number(0)
    case ReconnectInitial => Number(1)
    case ReconnectMax => Number(30)
    case Prefix => String("hello-bitcoin")
    case DifficultyBits => Number(24)
    case Threads => Number(if cores > 1 then cores else 1)
    case ReportInterval => Number(1000)
    case LogOutput => String("logs/miner.log")
    case HealthOutput => String("")
    case HealthEmit => Bool(false)
  }

  predicate OfType(s: Setting, j: Json) {
    match s
    case RequireTls | Enabled | HealthEmit => j.Bool?
    case Port | NotifyTimeout | MaxCycles | MaxReconnects | ReconnectInitial
       | ReconnectMax | DifficultyBits | Threads | ReportInterval => j.Number?
    case _ => j.String?
  }

  function Low(s: Setting): nat {
    match s
    case MaxCycles | MaxReconnects | DifficultyBits => 0
    case _ => 1
  }

  function High(s: Setting): nat {
    match s
    case Port => 65535
    case DifficultyBits => 255
    case _ => 0xFFFF_FFFF
  }

  /** A number is in range. */
  predicate Fits(s: Setting, j: Json) { j.Number? ==> Low(s) <= j.n <= High(s) }

  // ----- where a setting stands -----

  /** An object gives the setting this value, of the right type. */
  predicate At(obj: Json, s: Setting, j: Json) {
    obj.Object? && KeyOf(s) in obj.fields && obj.fields[KeyOf(s)] == j && OfType(s, j)
  }

  /** So does the section it belongs to. */
  predicate Nested(root: Json, s: Setting, j: Json) {
    && root.Object? && SectionOf(s).Some?
    && SectionOf(s).value in root.fields && At(root.fields[SectionOf(s).value], s, j)
  }

  ghost predicate IsNested(root: Json, s: Setting) { exists j :: Nested(root, s, j) }

  ghost predicate IsFlat(root: Json, s: Setting) { exists j :: At(root, s, j) }

  /** What loading makes of the root of a document, setting by setting. */
  ghost predicate IsRead(root: Json, s: Setting, v: Json, cores: nat) {
    && (forall j | Nested(root, s, j) :: v == if Fits(s, j) then j else DefaultOf(s, cores))
    && (forall j | At(root, s, j) && !IsNested(root, s) :: v == if Fits(s, j) then j else DefaultOf(s, cores))
    && (!IsNested(root, s) && !IsFlat(root, s) ==> v == DefaultOf(s, cores))
  }

  // ----- loading -----

  /** The only value that the section, or the top level, can give. */
  function NestedValue(root: Json, s: Setting): Option<Json>
    requires root.Object?
  {
    if SectionOf(s).Some? && SectionOf(s).value in root.fields then FlatValue(root.fields[SectionOf(s).value], s) else None
  }

  function FlatValue(obj: Json, s: Setting): Option<Json> {
    if obj.Object? && KeyOf(s) in obj.fields && OfType(s, obj.fields[KeyOf(s)]) then Some(obj.fields[KeyOf(s)]) else None
  }

  lemma ValuesAreThose(root: Json, s: Setting)
    requires root.Object?
    ensures forall j :: Nested(root, s, j) <==> NestedValue(root, s) == Some(j)
    ensures forall j :: At(root, s, j) <==> FlatValue(root, s) == Some(j)
  {
  }

  lemma {:induction false} NestedIsRead(root: Json, s: Setting, j: Json, v: Json, cores: nat)
    requires root.Object? && NestedValue(root, s) == Some(j) && v == if Fits(s, j) then j else DefaultOf(s, cores)
    ensures IsRead(root, s, v, cores)
  {
    ValuesAreThose(root, s);
    assert Nested(root, s, j);
  }

  lemma {:induction false} FlatIsRead(root: Json, s: Setting, j: Json, v: Json, cores: nat)
    requires root.Object? && NestedValue(root, s) == None && FlatValue(root, s) == Some(j)
    requires v == if Fits(s, j) then j else DefaultOf(s, cores)
    ensures IsRead(root, s, v, cores)
  {
    ValuesAreThose(root, s);
    assert At(root, s, j);
  }

  lemma {:induction false} ChosenIsRead(root: Json, s: Setting, v: Json, cores: nat)
    requires root.Object?
    requires var r := First(NestedValue(root, s), FlatValue(root, s));
             v == if r.Some? && Fits(s, r.value) then r.value else DefaultOf(s, cores)
    ensures IsRead(root, s, v, cores)
  {
    if NestedValue(root, s).Some? {
      NestedIsRead(root, s, NestedValue(root, s).value, v, cores);
    } else if FlatValue(root, s).Some? {
      FlatIsRead(root, s, FlatValue(root, s).value, v, cores);
    } else {
      ValuesAreThose(root, s);
    }
  }

  // The fields of a loaded configuration are the settings of the table above.

  lemma {:induction false} IdentitySetting(root: Json, s: Setting, default: string, cores: nat)
    requires SectionOf(s) == None && DefaultOf(s, cores) == String(default)
    ensures FieldOf(Interpret(root, cores), s) == String(TopString(root, KeyOf(s), default))
  {
  }

  lemma {:induction false} PoolText(root: Json, s: Setting, section: string, default: string, cores: nat)
    requires SectionOf(s) == Some(section) && DefaultOf(s, cores) == String(default)
    requires s == Username || s == Host || s == Password || s == PasswordEnv
    ensures FieldOf(Interpret(root, cores), s) == String(StringSetting(root, section, KeyOf(s), default))
  {
  }

  lemma {:induction false} OtherText(root: Json, s: Setting, section: string, default: string, cores: nat)
    requires SectionOf(s) == Some(section) && DefaultOf(s, cores) == String(default)
    requires s == Prefix || s == LogOutput || s == HealthOutput
    ensures FieldOf(Interpret(root, cores), s) == String(StringSetting(root, section, KeyOf(s), default))
  {
  }

  lemma {:induction false} TextSetting(root: Json, s: Setting, section: string, default: string, cores: nat)
    requires SectionOf(s) == Some(section) && DefaultOf(s, cores) == String(default)
    ensures FieldOf(Interpret(root, cores), s) == String(StringSetting(root, section, KeyOf(s), default))
  {
    if s == Prefix || s == LogOutput || s == HealthOutput { OtherText(root, s, section, default, cores); }
    else { PoolText(root, s, section, default, cores); }
  }

  lemma InterpretedFlags(root: Json, cores: nat)
    ensures Interpret(root, cores).poolRequireTls == BoolSetting(root, "pool", "require_tls", false)
    ensures Interpret(root, cores).poolEnabled == BoolSetting(root, "pool", "enabled", false)
    ensures Interpret(root, cores).healthEmitEachCycle == BoolSetting(root, "logging", "health_emit_each_cycle", false)
  {
  }

  lemma {:induction false} FlagSetting(root: Json, s: Setting, section: string, default: bool, cores: nat)
    requires SectionOf(s) == Some(section) && DefaultOf(s, cores) == Bool(default)
    ensures FieldOf(Interpret(root, cores), s) == Bool(BoolSetting(root, section, KeyOf(s), default))
  {
    InterpretedFlags(root, cores);
    if s == RequireTls { assert section == "pool" && KeyOf(s) == "require_tls"; }
    else if s == Enabled { assert section == "pool" && KeyOf(s) == "enabled"; }
    else { assert s == HealthEmit && section == "logging" && KeyOf(s) == "health_emit_each_cycle"; }
  }

  lemma {:induction false} PoolCount(root: Json, s: Setting, section: string, default: nat, cores: nat)
    requires SectionOf(s) == Some(section) && DefaultOf(s, cores) == Number(default)
    requires s == Port || s == NotifyTimeout || s == MaxCycles
    ensures FieldOf(Interpret(root, cores), s) == Number(UintSetting(root, section, KeyOf(s), Low(s), High(s), default))
  {
  }

  lemma {:induction false} ReconnectCount(root: Json, s: Setting, section: string, default: nat, cores: nat)
    requires SectionOf(s) == Some(section) && DefaultOf(s, cores) == Number(default)
    requires s == MaxReconnects || s == ReconnectInitial || s == ReconnectMax
    ensures FieldOf(Interpret(root, cores), s) == Number(UintSetting(root, section, KeyOf(s), Low(s), High(s), default))
  {
  }

  lemma {:induction false} HashingCount(root: Json, s: Setting, section: string, default: nat, cores: nat)
    requires SectionOf(s) == Some(section) && DefaultOf(s, cores) == Number(default)
    requires s == DifficultyBits || s == Threads || s == ReportInterval
    ensures FieldOf(Interpret(root, cores), s) == Number(UintSetting(root, section, KeyOf(s), Low(s), High(s), default))
  {
  }

  lemma {:induction false} CountSetting(root: Json, s: Setting, section: string, default: nat, cores: nat)
    requires SectionOf(s) == Some(section) && DefaultOf(s, cores) == Number(default)
    ensures FieldOf(Interpret(root, cores), s) == Number(UintSetting(root, section, KeyOf(s), Low(s), High(s), default))
  {
    if s == Port || s == NotifyTimeout || s == MaxCycles {
      PoolCount(root, s, section, default, cores);
    } else if s == MaxReconnects || s == ReconnectInitial || s == ReconnectMax {
      ReconnectCount(root, s, section, default, cores);
    } else {
      HashingCount(root, s, section, default, cores);
    }
  }

  /** Each lookup finds the one value there can be. */
  lemma TextIsChosen(root: Json, s: Setting, default: string)
    requires root.Object? && OfType(s, String(default))
    ensures var r := First(NestedValue(root, s), FlatValue(root, s));
            && (SectionOf(s).Some? ==>
                  String(StringSetting(root, SectionOf(s).value, KeyOf(s), default))
                  == if r.Some? then r.value else String(default))
            && (SectionOf(s).None? ==>
                  String(TopString(root, KeyOf(s), default)) == if r.Some? then r.value else String(default))
  {
    assert forall j | OfType(s, j) :: j.String?;
  }

  lemma FlagIsChosen(root: Json, s: Setting, default: bool)
    requires root.Object? && OfType(s, Bool(default)) && SectionOf(s).Some?
    ensures var r := First(NestedValue(root, s), FlatValue(root, s));
            Bool(BoolSetting(root, SectionOf(s).value, KeyOf(s), default)) == if r.Some? then r.value else Bool(default)
  {
    assert forall j | OfType(s, j) :: j.Bool?;
  }

  lemma CountIsChosen(root: Json, s: Setting, default: nat)
    requires root.Object? && OfType(s, Number(default)) && SectionOf(s).Some?
    ensures var r := First(NestedValue(root, s), FlatValue(root, s));
            Number(UintSetting(root, SectionOf(s).value, KeyOf(s), Low(s), High(s), default))
            == if r.Some? && Fits(s, r.value) then r.value else Number(default)
  {
    assert forall j | OfType(s, j) :: j.Number?;
  }

  lemma {:induction false} InterpretReads(root: Json, s: Setting, cores: nat)
    requires root.Object?
    ensures IsRead(root, s, FieldOf(Interpret(root, cores), s), cores)
  {
    var v, default := FieldOf(Interpret(root, cores), s), DefaultOf(s, cores);
    var r := First(NestedValue(root, s), FlatValue(root, s));
    assert v == if r.Some? && Fits(s, r.value) then r.value else default by {
      if SectionOf(s).None? {
        IdentitySetting(root, s, default.s, cores);
        TextIsChosen(root, s, default.s);
      } else if default.String? {
        TextSetting(root, s, SectionOf(s).value, default.s, cores);
        TextIsChosen(root, s, default.s);
      } else if default.Bool? {
        FlagSetting(root, s, SectionOf(s).value, default.b, cores);
        FlagIsChosen(root, s, default.b);
      } else {
        CountSetting(root, s, SectionOf(s).value, default.n, cores);
        CountIsChosen(root, s, default.n);
      }
    }
    ChosenIsRead(root, s, v, cores);
  }

  /** For every accepted text and every setting: the value in the section counts if it has the
      right type; if there is none, the one at the top level; and with neither, or with a
      number out of range, the default. */
  lemma {:induction false} LoadReads(text: string, root: Json, s: Setting, cores: nat)
    requires Parse(text) == Some(root) && text != []
    ensures Load(text, cores).Some? <==> root.Object?
    ensures root.Object? ==> IsRead(root, s, FieldOf(Load(text, cores).value, s), cores)
  {
    if root.Object? { InterpretReads(root, s, cores); }
  }

  lemma {:induction false} TextsDetermine(a: MinerConfig, b: MinerConfig)
    requires forall s :: FieldOf(a, s) == FieldOf(b, s)
    ensures a.nodeId == b.nodeId && a.workerId == b.workerId && a.payoutAddress == b.payoutAddress
    ensures a.poolUsername == b.poolUsername && a.poolHost == b.poolHost && a.poolPassword == b.poolPassword
    ensures a.poolPasswordEnv == b.poolPasswordEnv
  {
    assert FieldOf(a, NodeId) == FieldOf(b, NodeId) && FieldOf(a, WorkerId) == FieldOf(b, WorkerId);
    assert FieldOf(a, PayoutAddress) == FieldOf(b, PayoutAddress) && FieldOf(a, Username) == FieldOf(b, Username);
    assert FieldOf(a, Host) == FieldOf(b, Host) && FieldOf(a, Password) == FieldOf(b, Password);
    assert FieldOf(a, PasswordEnv) == FieldOf(b, PasswordEnv);
  }

  lemma {:induction false} PoolDetermines(a: MinerConfig, b: MinerConfig)
    requires forall s :: FieldOf(a, s) == FieldOf(b, s)
    ensures a.poolPort == b.poolPort && a.poolRequireTls == b.poolRequireTls && a.poolEnabled == b.poolEnabled
    ensures a.poolNotifyTimeoutSec == b.poolNotifyTimeoutSec && a.poolMaxCycles == b.poolMaxCycles
    ensures a.poolMaxReconnectAttempts == b.poolMaxReconnectAttempts
    ensures a.poolReconnectInitialSec == b.poolReconnectInitialSec && a.poolReconnectMaxSec == b.poolReconnectMaxSec
  {
    assert FieldOf(a, Port) == FieldOf(b, Port) && FieldOf(a, RequireTls) == FieldOf(b, RequireTls);
    assert FieldOf(a, Enabled) == FieldOf(b, Enabled) && FieldOf(a, NotifyTimeout) == FieldOf(b, NotifyTimeout);
    assert FieldOf(a, MaxCycles) == FieldOf(b, MaxCycles) && FieldOf(a, MaxReconnects) == FieldOf(b, MaxReconnects);
    assert FieldOf(a, ReconnectInitial) == FieldOf(b, ReconnectInitial);
    assert FieldOf(a, ReconnectMax) == FieldOf(b, ReconnectMax);
  }

  lemma {:induction false} HashingDetermines(a: MinerConfig, b: MinerConfig)
    requires forall s :: FieldOf(a, s) == FieldOf(b, s)
    ensures a.prefix == b.prefix && a.difficultyBits == b.difficultyBits
    ensures a.threadCount == b.threadCount && a.reportIntervalMs == b.reportIntervalMs
  {
    assert FieldOf(a, Prefix) == FieldOf(b, Prefix) && FieldOf(a, DifficultyBits) == FieldOf(b, DifficultyBits);
    assert FieldOf(a, Threads) == FieldOf(b, Threads) && FieldOf(a, ReportInterval) == FieldOf(b, ReportInterval);
  }

  lemma {:induction false} LoggingDetermines(a: MinerConfig, b: MinerConfig)
    requires forall s :: FieldOf(a, s) == FieldOf(b, s)
    ensures a.logOutput == b.logOutput && a.healthOutput == b.healthOutput
    ensures a.healthEmitEachCycle == b.healthEmitEachCycle
  {
    assert FieldOf(a, LogOutput) == FieldOf(b, LogOutput) && FieldOf(a, HealthOutput) == FieldOf(b, HealthOutput);
    assert FieldOf(a, HealthEmit) == FieldOf(b, HealthEmit);
  }

  /** A configuration that could not be loaded is left with these defaults. */
  lemma DefaultsAreThose(s: Setting, cores: nat)
    ensures FieldOf(Default(cores), s) == DefaultOf(s, cores)
  {
  }

  /** A configuration is determined by its settings. */
  lemma {:induction false} SettingsDetermine(a: MinerConfig, b: MinerConfig)
    requires forall s :: FieldOf(a, s) == FieldOf(b, s)
    ensures a == b
  {
    TextsDetermine(a, b);
    PoolDetermines(a, b);
    HashingDetermines(a, b);
    LoggingDetermines(a, b);
  }

  /** Every setting of the configuration is there: in its section, or else at the top level. */
  ghost predicate Carries(root: Json, cfg: MinerConfig) {
    forall s :: Nested(root, s, FieldOf(cfg, s)) || (At(root, s, FieldOf(cfg, s)) && !IsNested(root, s))
  }

  lemma {:induction false} FieldsFit(cfg: MinerConfig, s: Setting)
    requires InRanges(cfg)
    ensures Fits(s, FieldOf(cfg, s)) && OfType(s, FieldOf(cfg, s))
  {
  }

  /** Nested, flat or mixed: any rendering of an object that carries a configuration in range,
      with whatever else is in it, loads to that configuration. */
  lemma {:induction false} SchemaRoundTrip(cfg: MinerConfig, root: Json, d: Document, cores: nat)
    requires InRanges(cfg) && root.Object? && Carries(root, cfg)
    requires Renders(d.tree, root) && Spaces(d.before) && Spaces(d.after)
    ensures Load(Text(d), cores) == Some(cfg)
  {
    PrintParseRoundTrip(root, d);
    assert Text(d) != [] by { assert d.tree.TObject? || d.tree.TEmpty?; }
    LoadReads(Text(d), root, NodeId, cores);
    var loaded := Load(Text(d), cores).value;
    forall s ensures FieldOf(loaded, s) == FieldOf(cfg, s) {
      LoadReads(Text(d), root, s, cores);
      FieldsFit(cfg, s);
    }
    SettingsDetermine(loaded, cfg);
  }

  // ----- the flat schema -----

  /** No two keys have the same length and the same first character. */
  lemma KeyShape(s: Setting)
    ensures |KeyOf(s)| == match s
              case Host | Port => 4
              case Prefix | LogOutput => 6
              case NodeId | Enabled | Threads => 7
              case Username | Password => 8
              case WorkerId => 9
              case MaxCycles => 10
              case RequireTls => 11
              case PasswordEnv => 12
              case HealthOutput => 13
              case PayoutAddress => 14
              case DifficultyBits => 15
              case ReconnectMax => 17
              case NotifyTimeout | ReportInterval => 18
              case ReconnectInitial => 21
              case MaxReconnects | HealthEmit => 22
  {
  }

  lemma {:induction false} KeysDiffer(s: Setting, t: Setting)
    requires KeyOf(s) == KeyOf(t)
    ensures s == t
  {
    KeyShape(s);
    KeyShape(t);
    assert KeyOf(s)[0] == KeyOf(t)[0];
  }

  lemma {:induction false} NoKeyIsASection(s: Setting)
    ensures KeyOf(s) != "pool" && KeyOf(s) != "hashing" && KeyOf(s) != "logging"
  {
    KeyShape(s);
    assert KeyOf(s)[0] != 'l' && (KeyOf(s)[0] == 'h' ==> |KeyOf(s)| != 7);
    assert |KeyOf(s)| == 4 && KeyOf(s)[0] == 'p' ==> KeyOf(s)[2] == 'r';
  }

  const IDENTITIES := [NodeId, WorkerId, PayoutAddress]
  const POOL := [Username, Host, Port, Password, PasswordEnv, RequireTls, Enabled]
  const POOL_NUMBERS := [NotifyTimeout, MaxCycles, MaxReconnects, ReconnectInitial, ReconnectMax]
  const OTHERS := [Prefix, DifficultyBits, Threads, ReportInterval, LogOutput, HealthOutput, HealthEmit]

  lemma NoneIsMissing(s: Setting)
    ensures s in IDENTITIES + POOL + POOL_NUMBERS + OTHERS
  {
    assert s in IDENTITIES || s in POOL || s in POOL_NUMBERS || s in OTHERS;
  }

  function Fields(cfg: MinerConfig, list: seq<Setting>): map<string, Json> {
    if list == [] then map[]
    else
      var last := list[|list| - 1];
      Fields(cfg, list[..|list| - 1])[KeyOf(last) := FieldOf(cfg, last)]
  }

  lemma {:induction false} FieldsHold(cfg: MinerConfig, list: seq<Setting>)
    ensures forall s | s in list :: KeyOf(s) in Fields(cfg, list) && Fields(cfg, list)[KeyOf(s)] == FieldOf(cfg, s)
    ensures forall k | k in Fields(cfg, list) :: exists s | s in list :: k == KeyOf(s)
  {
    if list != [] {
      var front, last := list[..|list| - 1], list[|list| - 1];
      FieldsHold(cfg, front);
      assert list == front + [last];
      forall s | s in list && KeyOf(s) == KeyOf(last) ensures s == last { KeysDiffer(s, last); }
    }
  }

  /** All settings at the top level, and nothing else. */
  function FlatJson(cfg: MinerConfig): Json { Object(Fields(cfg, IDENTITIES + POOL + POOL_NUMBERS + OTHERS)) }

  lemma {:induction false} FlatHolds(cfg: MinerConfig, s: Setting)
    ensures KeyOf(s) in FlatJson(cfg).fields && FlatJson(cfg).fields[KeyOf(s)] == FieldOf(cfg, s)
  {
    NoneIsMissing(s);
    FieldsHold(cfg, IDENTITIES + POOL + POOL_NUMBERS + OTHERS);
  }

  lemma {:induction false} FlatCarries(cfg: MinerConfig)
    requires InRanges(cfg)
    ensures Carries(FlatJson(cfg), cfg)
  {
    var root, all := FlatJson(cfg), IDENTITIES + POOL + POOL_NUMBERS + OTHERS;
    FieldsHold(cfg, all);
    forall t: Setting ensures KeyOf(t) != "pool" && KeyOf(t) != "hashing" && KeyOf(t) != "logging" { NoKeyIsASection(t); }
    forall s ensures At(root, s, FieldOf(cfg, s)) && !IsNested(root, s) {
      FieldsFit(cfg, s);
      FlatHolds(cfg, s);
    }
  }

  /** Writing a configuration in the flat schema, with any order and spacing, and loading the
      text restores every field. */
  lemma {:induction false} FlatRoundTrip(cfg: MinerConfig, d: Document, cores: nat)
    requires InRanges(cfg) && Renders(d.tree, FlatJson(cfg)) && Spaces(d.before) && Spaces(d.after)
    ensures Load(Text(d), cores) == Some(cfg)
  {
    FlatCarries(cfg);
    SchemaRoundTrip(cfg, FlatJson(cfg), d, cores);
  }

  lemma {:induction false} FieldsInRange(cfg: MinerConfig, list: seq<Setting>)
    requires InRanges(cfg)
    ensures forall k | k in Fields(cfg, list) :: InRange(Fields(cfg, list)[k])
  {
    if list != [] {
      FieldsInRange(cfg, list[..|list| - 1]);
      FieldInRange(cfg, list[|list| - 1]);
    }
  }

  lemma {:induction false} FieldInRange(cfg: MinerConfig, s: Setting)
    requires InRanges(cfg)
    ensures InRange(FieldOf(cfg, s))
  {
    FieldsFit(cfg, s);
  }

  /** And such a text exists. */
  lemma {:induction false} FlatHasText(cfg: MinerConfig, cores: nat) returns (text: string)
    requires InRanges(cfg)
    ensures Load(text, cores) == Some(cfg) && Parse(text) == Some(FlatJson(cfg))
  {
    FieldsInRange(cfg, IDENTITIES + POOL + POOL_NUMBERS + OTHERS);
    var t := RenderingExists(FlatJson(cfg));
    var d := Document([], t, []);
    FlatRoundTrip(cfg, d, cores);
    PrintParseRoundTrip(FlatJson(cfg), d);
    text := Text(d);
  }
}
