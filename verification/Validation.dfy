/**
 `validate_config`: the checks before a run, and what they leave open.  Everything that a
 loaded configuration can still be refused for is about its texts, the order of the two
 backoff values, or TLS; two limits that the program relies on are not checked.
 */
module Validation {
  import opened JsonGrammar
  import opened Matchers
  import opened Config
  import Backoff
  import Mining
  import SearchLimits

  const PLACEHOLDER := "REPLACE_WITH"

  function PoolUsername(cfg: MinerConfig): string {
    if cfg.poolUsername != [] then cfg.poolUsername
    else if cfg.payoutAddress == [] then cfg.workerId
    else cfg.payoutAddress + "." + cfg.workerId
  }

  datatype Problem =
    | NoThreads | NoReportInterval | NoHost | BadPort | NoUsername | PlaceholderUsername | NoPassword
    | PlaceholderPassword | NoNotifyTimeout | NoBackoff | BackoffOrder | TlsUnsupported

  /** The user name set, or else the payout address, a dot and the worker, or the worker alone. */
  lemma UsernameLaw(cfg: MinerConfig, payout: string, worker: string)
    requires cfg.payoutAddress == payout && cfg.workerId == worker
    ensures cfg.poolUsername != "" ==> PoolUsername(cfg) == cfg.poolUsername
    ensures cfg.poolUsername == "" && payout != "" ==>
              && |PoolUsername(cfg)| == |payout| + 1 + |worker| && PoolUsername(cfg)[|payout|] == '.'
              && PoolUsername(cfg)[..|payout|] == payout && PoolUsername(cfg)[|payout| + 1..] == worker
    ensures cfg.poolUsername == "" && payout == "" ==> PoolUsername(cfg) == worker
  {
  }

  /** The order in which the problems are looked for. */
  function Rank(p: Problem): nat {
    match p
    case NoThreads => 0
    case NoReportInterval => 1
    case NoHost => 2
    case BadPort => 3
    case NoUsername => 4
    case PlaceholderUsername => 5
    case NoPassword => 6
    case PlaceholderPassword => 7
    case NoNotifyTimeout => 8
    case NoBackoff => 9
    case BackoffOrder => 10
    case TlsUnsupported => 11
  }

  /** What is wrong, independently of any order; the last ten only matter with a pool. */
  predicate Has(cfg: MinerConfig, p: Problem) {
    match p
    case NoThreads => cfg.threadCount == 0
    case NoReportInterval => cfg.reportIntervalMs == 0
    case NoHost => cfg.poolEnabled && cfg.poolHost == []
    case BadPort => cfg.poolEnabled && !(1 <= cfg.poolPort <= 65535)
    case NoUsername => cfg.poolEnabled && PoolUsername(cfg) == []
    case PlaceholderUsername => cfg.poolEnabled && Contains(PoolUsername(cfg), PLACEHOLDER)
    case NoPassword => cfg.poolEnabled && cfg.poolPassword == []
    case PlaceholderPassword => cfg.poolEnabled && Contains(cfg.poolPassword, PLACEHOLDER)
    case NoNotifyTimeout => cfg.poolEnabled && cfg.poolNotifyTimeoutSec == 0
    case NoBackoff => cfg.poolEnabled && (cfg.poolReconnectInitialSec == 0 || cfg.poolReconnectMaxSec == 0)
    case BackoffOrder => cfg.poolEnabled && cfg.poolReconnectMaxSec < cfg.poolReconnectInitialSec
    case TlsUnsupported => cfg.poolEnabled && cfg.poolRequireTls
  }

  ghost predicate Accepted(cfg: MinerConfig) { forall p :: !Has(cfg, p) }

  /** What an accepted configuration is, in one condition. */
  lemma AcceptedMeans(cfg: MinerConfig)
    ensures Accepted(cfg) <==>
              && cfg.threadCount > 0 && cfg.reportIntervalMs > 0
              && (cfg.poolEnabled ==>
                    && cfg.poolHost != "" && 0 < cfg.poolPort < 65536 && !cfg.poolRequireTls
                    && PoolUsername(cfg) != "" && !Contains(PoolUsername(cfg), "REPLACE_WITH")
                    && cfg.poolPassword != "" && !Contains(cfg.poolPassword, "REPLACE_WITH")
                    && cfg.poolNotifyTimeoutSec > 0 && 0 < cfg.poolReconnectInitialSec <= cfg.poolReconnectMaxSec)
  {
    if Accepted(cfg) {
      assert !Has(cfg, NoThreads) && !Has(cfg, NoReportInterval) && !Has(cfg, NoHost) && !Has(cfg, BadPort);
      assert !Has(cfg, NoUsername) && !Has(cfg, PlaceholderUsername) && !Has(cfg, NoPassword);
      assert !Has(cfg, PlaceholderPassword) && !Has(cfg, NoNotifyTimeout) && !Has(cfg, NoBackoff);
      assert !Has(cfg, BackoffOrder) && !Has(cfg, TlsUnsupported);
    }
  }

  /** Nothing is wrong that is looked for before a place in the order. */
  ghost predicate ClearBelow(cfg: MinerConfig, rank: nat) { forall p | Rank(p) < rank :: !Has(cfg, p) }

  /** Accepts iff nothing is wrong; otherwise reports what comes first in the order. */
  method ValidateConfig(cfg: MinerConfig) returns (ok: bool, problem: Problem)
    ensures !ok ==> Has(cfg, problem) && ClearBelow(cfg, Rank(problem))
    ensures ok ==> Accepted(cfg)
  {
    problem := TlsUnsupported;
    if cfg.threadCount == 0 { return false, NoThreads; }
    if cfg.reportIntervalMs == 0 { return false, NoReportInterval; }
    if !cfg.poolEnabled { return true, problem; }
    if cfg.poolHost == [] { return false, NoHost; }
    if cfg.poolPort == 0 || cfg.poolPort > 65535 { return false, BadPort; }
    var username := PoolUsername(cfg);
    if username == [] { return false, NoUsername; }
    if Contains(username, PLACEHOLDER) { return false, PlaceholderUsername; }
    if cfg.poolPassword == [] { return false, NoPassword; }
    if Contains(cfg.poolPassword, PLACEHOLDER) { return false, PlaceholderPassword; }
    if cfg.poolNotifyTimeoutSec == 0 { return false, NoNotifyTimeout; }
    if cfg.poolReconnectInitialSec == 0 || cfg.poolReconnectMaxSec == 0 { return false, NoBackoff; }
    if cfg.poolReconnectMaxSec < cfg.poolReconnectInitialSec { return false, BackoffOrder; }
    if cfg.poolRequireTls { return false, TlsUnsupported; }
    ok := true;
  }

  predicate AboutTexts(p: Problem) {
    p in {NoHost, NoUsername, PlaceholderUsername, NoPassword, PlaceholderPassword, BackoffOrder, TlsUnsupported}
  }

  /** The numeric checks never fail on a configuration that has been loaded. */
  lemma LoadedProblems(text: string, cores: nat)
    requires cores <= MAX_U32 && Load(text, cores).Some?
    ensures forall p | Has(Load(text, cores).value, p) :: AboutTexts(p)
  {
    LoadedIsInRange(text, cores);
    var cfg := Load(text, cores).value;
    forall p | Has(cfg, p) ensures AboutTexts(p) { OnlyTextProblems(cfg, p); }
  }

  lemma OnlyTextProblems(cfg: MinerConfig, p: Problem)
    requires InRanges(cfg)
    ensures Has(cfg, p) ==> AboutTexts(p)
  {
  }

  /** An accepted configuration waits between 1 and `reconnect_max_sec` seconds, and the
      waiting time doubles up to there exactly if that is below 2^31: not for all of them. */
  lemma {:induction false} AcceptedBackoff(cfg: MinerConfig)
    requires InRanges(cfg) && cfg.poolEnabled && Accepted(cfg)
    ensures var first, cap := cfg.poolReconnectInitialSec, cfg.poolReconnectMaxSec;
            && Backoff.FirstDelay(first) == first && Backoff.DelayCap(first, cap) == cap
            && ((forall k :: Backoff.Delay(first, cap, k) == Backoff.ExponentialDelay(first, cap, k))
                <==> cap < Backoff.TWO_TO_THE_31)
  {
    assert !Has(cfg, BackoffOrder);
    Backoff.ExponentialIffCapBelow31Bits(cfg.poolReconnectInitialSec, cfg.poolReconnectMaxSec);
  }

  function Beyond(): MinerConfig {
    Default(1).(poolEnabled := true, threadCount := MAX_U32, poolReconnectMaxSec := MAX_U32)
  }

  lemma {:induction false} BeyondIsAccepted()
    ensures InRanges(Beyond()) && Accepted(Beyond())
  {
    assert PoolUsername(Beyond()) == "cp1";
    assert |PLACEHOLDER| == 12;
    forall p ensures !Has(Beyond(), p) { }
  }

  /** There is a text that loads and is accepted, and breaks both unchecked limits. */
  lemma {:induction false} AcceptedBeyondTheLimits(cores: nat) returns (text: string, cfg: MinerConfig)
    ensures Load(text, cores) == Some(cfg) && Accepted(cfg) && cfg.poolEnabled
    ensures !SearchLimits.Trustworthy(cfg.threadCount, Mining.NONCE_SPACE, false)
    ensures exists k :: Backoff.Delay(cfg.poolReconnectInitialSec, cfg.poolReconnectMaxSec, k)
                     != Backoff.ExponentialDelay(cfg.poolReconnectInitialSec, cfg.poolReconnectMaxSec, k)
  {
    BeyondIsAccepted();
    cfg := Beyond();
    text := ConfigHasText(cfg, cores);
    Mining.ThreadLimit(MAX_U32, false);
    AcceptedBackoff(cfg);
  }
}
