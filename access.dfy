/** The static configuration and the checks made against it before any state is touched. */
module Access {
  import opened Results

  /** The configuration file's values, read once at start-up and never changed. */
  datatype Config = Config(
    apiTokens: seq<string>,
    maxSizeBytes: int,
    minDurationSec: real,
    maxDurationSec: real,
    shareExpirySec: int)

  /** The access gate: a token that is absent or empty is missing; one not listed is invalid. */
  function Authenticate(apiTokens: seq<string>, token: Option<string>): (r: Result<bool>)
    ensures r.Ok? <==> token.Some? && token.value != "" && token.value in apiTokens
    ensures r.Ok? ==> r.value
    ensures (token.None? || token == Some("")) ==> r == Err(MissingToken)
    ensures token.Some? && token.value != "" && token.value !in apiTokens ==> r == Err(InvalidToken)
    ensures r.Err? ==> Status(r.error) == 401
  {
    if token.None? || token.value == "" then Err(MissingToken)
    else if token.value !in apiTokens then Err(InvalidToken)
    else Ok(true)
  }

  /** An upload whose byte length exceeds the limit is refused. */
  predicate SizeAllowed(config: Config, size: nat)
  {
    !(size > config.maxSizeBytes)
  }

  /** A video is kept only when its duration is neither below the minimum nor above the maximum. */
  predicate DurationAllowed(config: Config, duration: real)
  {
    !(duration < config.minDurationSec || duration > config.maxDurationSec)
  }

}
