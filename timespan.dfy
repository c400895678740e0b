/** `src/utils/timespan.ts`: the expiry time of a token, `time` after its
    issue time.  The clock reading `now` and the duration parser of the `ms`
    package (`undefined` for text it cannot parse) are parameters. */
module Timespan {
  import opened Common

  /** The argument `time: number | string`; `OtherTime` is any other
      JavaScript value reaching the function at run time. */
  datatype TimeArg = NumberTime(n: int) | StringTime(s: string) | OtherTime

  const ConfigError: Failure := CustomError(500, "Server configuration error", Config)

  /** `iat || Math.floor(Date.now())`: a zero issue time is falsy. */
  function BaseTime(iat: int, now: int): (t: int)
    ensures iat != 0 ==> t == iat
    ensures iat == 0 ==> t == now
  {
    if iat != 0 then iat else now
  }

  /** The duration `time` stands for, when it stands for one. */
  function Duration(time: TimeArg, ms: string -> Option<int>): Option<int> {
    match time
    case NumberTime(n) => Some(n)
    case StringTime(s) => ms(s)
    case OtherTime => None
  }

  function Timespan(time: TimeArg, iat: int, now: int, ms: string -> Option<int>): (r: Result<int>)
    ensures r.Ok? <==> Duration(time, ms).Some?
    ensures r.Err? ==> r.error == ConfigError
    ensures r.Ok? ==> r.value - BaseTime(iat, now) == Duration(time, ms).value
  {
    var timestamp := BaseTime(iat, now);
    match time
    case StringTime(s) =>
      (match ms(s)
       case None => Err(ConfigError)
       case Some(milliseconds) => Ok(timestamp + milliseconds))
    case NumberTime(n) => Ok(timestamp + n)
    case OtherTime => Err(ConfigError)
  }

  /** The expiry is the issue time plus the duration, and the duration can
      be read back from it: a numeric `time` is recovered exactly. */
  lemma NumericTimeRoundTrip(n: int, iat: int, now: int, ms: string -> Option<int>)
    ensures Timespan(NumberTime(n), iat, now, ms).Ok?
    ensures Timespan(NumberTime(n), iat, now, ms).value - (if iat != 0 then iat else now) == n
  {
  }

  /** A string `ms` cannot parse, and any non-number non-string, is a 500
      configuration error. */
  lemma UnparsableIsConfigError(s: string, iat: int, now: int, ms: string -> Option<int>)
    requires ms(s).None?
    ensures Timespan(StringTime(s), iat, now, ms) == Err(CustomError(500, "Server configuration error", Config))
    ensures Timespan(OtherTime, iat, now, ms) == Err(CustomError(500, "Server configuration error", Config))
  {
  }

  /** A longer duration never gives an earlier expiry. */
  lemma TimespanMonotone(a: TimeArg, b: TimeArg, iat: int, now: int, ms: string -> Option<int>)
    requires Duration(a, ms).Some? && Duration(b, ms).Some?
    requires Duration(a, ms).value <= Duration(b, ms).value
    ensures Timespan(a, iat, now, ms).value <= Timespan(b, iat, now, ms).value
  {
  }
}
