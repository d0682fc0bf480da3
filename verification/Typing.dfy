/**
 * How long the typing indicator is shown: configuration with defaults and per-request overrides,
 * and the clamped delay. Durations are nanoseconds on 64 bits; rates are characters per second.
 */
module Typing {
  import opened Int64
  import opened Prelude

  datatype Mode = Unset | Off | Constant | Natural | Unknown(name: string)

  datatype Config = Config(
    mode: Mode,
    perChar: int,
    minCPS: real,
    maxCPS: real,
    minTotal: int,
    maxTotal: int)

  datatype Override = Override(
    mode: Option<Mode>,
    perCharMS: Option<int>,
    minCPS: Option<real>,
    maxCPS: Option<real>,
    maxTotalMS: Option<int>)

  const MILLISECOND: int := 1_000_000
  const SECOND: int := 1_000_000_000

  const DEFAULT_PER_CHAR: int := 55 * MILLISECOND
  const DEFAULT_MIN_CPS: real := 4.0
  const DEFAULT_MAX_CPS: real := 9.0
  const DEFAULT_MIN_TOTAL: int := 400 * MILLISECOND
  const DEFAULT_MAX_TOTAL: int := 15 * SECOND

  function Or<T>(o: Option<T>, default: T): T {
    match o case None => default case Some(v) => v
  }

  /** Milliseconds from a request; the multiplication wraps. */
  function Millis(ms: int): int { Wrap(ms * MILLISECOND) }

  /** Each setting a request brings replaces the session's; the floor cannot be overridden. */
  function Apply(c: Config, o: Option<Override>): (r: Config)
    ensures r.minTotal == c.minTotal && (o == None ==> r == c)
    ensures o.Some? ==>
      && (if o.value.mode == None then r.mode == c.mode else Some(r.mode) == o.value.mode)
      && (if o.value.minCPS == None then r.minCPS == c.minCPS else Some(r.minCPS) == o.value.minCPS)
      && (if o.value.maxCPS == None then r.maxCPS == c.maxCPS else Some(r.maxCPS) == o.value.maxCPS)
    ensures o.Some? && o.value.perCharMS == None ==> r.perChar == c.perChar
    ensures o.Some? && o.value.perCharMS.Some? && InRange(o.value.perCharMS.value * 1_000_000) ==>
      r.perChar == o.value.perCharMS.value * 1_000_000
    ensures o.Some? && o.value.maxTotalMS == None ==> r.maxTotal == c.maxTotal
    ensures o.Some? && o.value.maxTotalMS.Some? && InRange(o.value.maxTotalMS.value * 1_000_000) ==>
      r.maxTotal == o.value.maxTotalMS.value * 1_000_000
  {
    match o
    case None => c
    case Some(o) =>
      Config(Or(o.mode, c.mode),
             match o.perCharMS case None => c.perChar case Some(ms) => Millis(ms),
             Or(o.minCPS, c.minCPS),
             Or(o.maxCPS, c.maxCPS),
             c.minTotal,
             match o.maxTotalMS case None => c.maxTotal case Some(ms) => Millis(ms))
  }

  /** Usable as it stands: positive settings, and bounds the right way round. */
  predicate Normalized(c: Config) {
    && c.mode != Unset
    && 0 < c.perChar
    && 0.0 < c.minCPS <= c.maxCPS
    && 0 < c.minTotal <= c.maxTotal
  }

  function WithDefaults(c: Config): (r: Config)
    ensures Normalized(r)
    ensures Normalized(c) ==> r == c
    ensures if c.mode == Unset then r.mode == Natural else r.mode == c.mode
    ensures if 0 < c.perChar then r.perChar == c.perChar else r.perChar == DEFAULT_PER_CHAR
    ensures if 0 < c.minTotal then r.minTotal == c.minTotal else r.minTotal == DEFAULT_MIN_TOTAL
    ensures if 0.0 < c.minCPS then r.minCPS == c.minCPS else r.minCPS == DEFAULT_MIN_CPS
    ensures 0 < c.maxTotal ==> r.maxTotal == if c.maxTotal < r.minTotal then r.minTotal else c.maxTotal
    ensures c.maxTotal <= 0 ==> r.maxTotal == if DEFAULT_MAX_TOTAL < r.minTotal then r.minTotal else DEFAULT_MAX_TOTAL
    ensures 0.0 < c.maxCPS ==> r.maxCPS == if c.maxCPS < r.minCPS then r.minCPS else c.maxCPS
    ensures c.maxCPS <= 0.0 ==> r.maxCPS == if DEFAULT_MAX_CPS < r.minCPS then r.minCPS else DEFAULT_MAX_CPS
  {
    var mode := if c.mode == Unset then Natural else c.mode;
    var perChar := if c.perChar <= 0 then DEFAULT_PER_CHAR else c.perChar;
    var minCPS := if c.minCPS <= 0.0 then DEFAULT_MIN_CPS else c.minCPS;
    var maxCPS := if c.maxCPS <= 0.0 then DEFAULT_MAX_CPS else c.maxCPS;
    var minTotal := if c.minTotal <= 0 then DEFAULT_MIN_TOTAL else c.minTotal;
    var maxTotal := if c.maxTotal <= 0 then DEFAULT_MAX_TOTAL else c.maxTotal;
    Config(mode, perChar,
           minCPS, if maxCPS < minCPS then minCPS else maxCPS,
           minTotal, if maxTotal < minTotal then minTotal else maxTotal)
  }

  /** The floor is applied last, so it wins over a lower ceiling. */
  function Clamp(d: int, lo: int, hi: int): (r: int)
    ensures lo <= r
    ensures lo <= hi && 0 < hi ==> r <= hi
    ensures lo <= d && (0 < hi ==> d <= hi) ==> r == d
    ensures d < lo || 0 < hi < lo ==> r == lo
    ensures 0 < hi && lo <= hi < d ==> r == hi
  {
    var d := if hi > 0 && d > hi then hi else d;
    if d < lo then lo else d
  }
}
