/**
 The startup compatibility gate (`ensureCompatibility`): the broker's
 supported API keys are fetched once, and an enabled feature whose
 request the broker does not support is switched off.

 The fetch (an ApiVersions request bounded by a 15 second timeout, and
 its parsing into a version table) is abstracted as its outcome.
 */
module Compatibility {
  import opened Wrappers
  import opened Configuration

  /** The Kafka protocol's API key of DescribeLogDirs. */
  const DescribeLogDirsKey: nat := 35

  /** The outcome of asking the broker which API keys it supports (a timeout is a failure). */
  datatype FetchResult =
    | FetchFailed(cause: string)
    | Fetched(supportedKeys: set<nat>)

  datatype GateError =
    /** "kafka api versions couldn't be fetched", wrapping the fetch's error. */
    ApiVersionsUnavailable(cause: string)

  /** The configuration after the gate, and the error that aborts startup, if any. */
  datatype GateResult = GateResult(cfg: Config, err: Option<GateError>)

  /** No enabled feature needs an API key the broker lacks. */
  predicate SupportedBy(cfg: Config, supportedKeys: set<nat>)
  {
    cfg.logDirs.enabled ==> DescribeLogDirsKey in supportedKeys
  }

  function EnsureCompatibility(cfg: Config, fetch: FetchResult): (r: GateResult)
    ensures r.err.Some? <==> fetch.FetchFailed?
    ensures fetch.FetchFailed? ==> r.cfg == cfg && r.err == Some(ApiVersionsUnavailable(fetch.cause))
    ensures fetch.Fetched? ==>
              (r.cfg.logDirs.enabled <==> cfg.logDirs.enabled && DescribeLogDirsKey in fetch.supportedKeys)
    ensures fetch.Fetched? ==> SupportedBy(r.cfg, fetch.supportedKeys)
    ensures r.cfg.logDirs.enabled ==> cfg.logDirs.enabled
    ensures r.cfg == cfg.(logDirs := r.cfg.logDirs)
  {
    match fetch
    case FetchFailed(cause) => GateResult(cfg, Some(ApiVersionsUnavailable(cause)))
    case Fetched(keys) =>
      if cfg.logDirs.enabled && DescribeLogDirsKey !in keys then
        GateResult(cfg.(logDirs := cfg.logDirs.(enabled := false)), None)
      else
        GateResult(cfg, None)
  }

  /**
   The gate switches off no more than it must: any configuration that
   differs only in the log dirs flag, is supported by the broker and
   does not newly enable the feature has it enabled only if the gate's
   result does.
   */
  lemma GateDisablesOnlyWhatIsUnsupported(cfg: Config, keys: set<nat>, other: Config)
    requires other == cfg.(logDirs := other.logDirs)
    requires SupportedBy(other, keys)
    requires other.logDirs.enabled ==> cfg.logDirs.enabled
    ensures other.logDirs.enabled ==> EnsureCompatibility(cfg, Fetched(keys)).cfg.logDirs.enabled
  {
  }

  /** Running the gate again against the same broker answer gives the same outcome. */
  lemma GateIdempotent(cfg: Config, fetch: FetchResult)
    ensures var once := EnsureCompatibility(cfg, fetch);
      EnsureCompatibility(once.cfg, fetch) == once
  {
  }
}
