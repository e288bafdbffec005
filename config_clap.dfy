/**
 * Command-line overrides for the configuration (src/config/clap.rs). This
 * generation's top-level configuration also carries the input path.
 * `clap::ArgMatches` is a map from argument names to their values.
 */
module ConfigClap {
  import opened Prim
  import opened Wrappers
  import Text
  import ConfigErr
  import ConfigCheck
  import ConfigIter
  import ConfigSync
  import ConfigPermute

  const INPUT: string := "INPUT"
  const CHECK: string := "check"
  const PERMUTE: string := "permute"
  const SYNC: string := "sync"
  const ITERATIONS: string := "iterations"
  const PERIOD: string := "period"

  /** The values given on the command line, by argument name. */
  type ArgMatches = map<string, string>

  /** `ArgMatches::value_of`. */
  function ValueOf(m: ArgMatches, name: string): (r: Option<string>)
    ensures r.Some? <==> name in m
    ensures r.Some? ==> r.value == m[name]
  {
    if name in m then Some(m[name]) else None
  }

  /** `as_usize`: 0 for no count, else the count. */
  function AsUsize(x: Option<NonZeroUsize>): (r: usize)
    ensures r == 0 <==> x.None?
    ensures x.Some? ==> r == x.value
  {
    match x
    case Some(n) => n
    case None => 0
  }

  /** `parse_or`: the default when there is no string, else the parse of the string. */
  function ParseOr<T, E>(s: Option<string>, default: T, parse: string -> Result<T, E>): (r: Result<T, E>)
    ensures s.None? ==> r == Ok(default)
    ensures s.Some? ==> r == parse(s.value)
  {
    match s
    case None => Ok(default)
    case Some(x) => parse(x)
  }

  /** `parse_or_else`: as `parse_or`, with the default computed only when there is no string. */
  function ParseOrElse<T, E>(s: Option<string>, default: () -> T, parse: string -> Result<T, E>): (r: Result<T, E>)
    ensures r == ParseOr(s, default(), parse)
  {
    match s
    case None => Ok(default())
    case Some(x) => parse(x)
  }

  /** `from_ints` inverts `iterations()` and `period()` read through `as_usize`. */
  lemma FromIntsRoundTrip(s: ConfigIter.Strategy)
    ensures ConfigIter.FromInts(AsUsize(ConfigIter.Iterations(s)), AsUsize(ConfigIter.Period(s))) == s
  {
  }

  /** `Clappable` for the check strategy. */
  function ParseCheck(s: ConfigCheck.Strategy, m: ArgMatches): (r: Result<ConfigCheck.Strategy, ConfigErr.Error>)
    ensures CHECK !in m ==> r == Ok(s)
    ensures CHECK in m ==> r == ConfigCheck.FromStr(m[CHECK])
  {
    ParseOr(ValueOf(m, CHECK), s, ConfigCheck.FromStr)
  }

  /** `Clappable` for the sync strategy. */
  function ParseSync(s: ConfigSync.Strategy, m: ArgMatches): (r: Result<ConfigSync.Strategy, ConfigErr.Error>)
    ensures SYNC !in m ==> r == Ok(s)
    ensures SYNC in m ==> r == ConfigSync.FromStr(m[SYNC])
  {
    ParseOr(ValueOf(m, SYNC), s, ConfigSync.FromStr)
  }

  /** `Clappable` for the permute strategy. */
  function ParsePermute(s: ConfigPermute.Strategy, m: ArgMatches): (r: Result<ConfigPermute.Strategy, ConfigErr.Error>)
    ensures PERMUTE !in m ==> r == Ok(s)
    ensures PERMUTE in m ==> r == ConfigPermute.FromStr(m[PERMUTE])
  {
    ParseOr(ValueOf(m, PERMUTE), s, ConfigPermute.FromStr)
  }

  /**
   * `Clappable` for the iteration strategy: each of the two counts is read
   * from its flag, or else taken from the strategy, and the strategy is
   * rebuilt with `from_ints`. A bad count is reported with its own error.
   */
  function ParseIter(s: ConfigIter.Strategy, m: ArgMatches): (r: Result<ConfigIter.Strategy, ConfigErr.Error>)
    ensures ITERATIONS in m && Text.ParseUsize(m[ITERATIONS]).Err? ==>
      r == Err(ConfigErr.BadIterationCount(Text.ParseUsize(m[ITERATIONS]).error))
    ensures (ITERATIONS !in m || Text.ParseUsize(m[ITERATIONS]).Ok?) && PERIOD in m && Text.ParseUsize(m[PERIOD]).Err? ==>
      r == Err(ConfigErr.BadPeriod(Text.ParseUsize(m[PERIOD]).error))
    ensures r.Ok? ==> r.value == ConfigIter.FromInts(
      if ITERATIONS in m then Text.ParseUsize(m[ITERATIONS]).value else AsUsize(ConfigIter.Iterations(s)),
      if PERIOD in m then Text.ParseUsize(m[PERIOD]).value else AsUsize(ConfigIter.Period(s)))
  {
    var iterations := ParseOrElse(ValueOf(m, ITERATIONS), () => AsUsize(ConfigIter.Iterations(s)), Text.ParseUsize)
      .MapErr(e => ConfigErr.BadIterationCount(e));
    if iterations.Err? then Err(iterations.error)
    else
      var period := ParseOrElse(ValueOf(m, PERIOD), () => AsUsize(ConfigIter.Period(s)), Text.ParseUsize)
        .MapErr(e => ConfigErr.BadPeriod(e));
      if period.Err? then Err(period.error)
      else Ok(ConfigIter.FromInts(iterations.value, period.value))
  }

  /** With neither count given, the iteration strategy comes back unchanged. */
  lemma ParseIterUnchanged(s: ConfigIter.Strategy, m: ArgMatches)
    requires ITERATIONS !in m && PERIOD !in m
    ensures ParseIter(s, m) == Ok(s)
  {
    FromIntsRoundTrip(s);
  }

  /** A count given in decimal on the command line is the one the strategy gets. */
  lemma ParseIterDecimal(s: ConfigIter.Strategy, m: ArgMatches, i: usize, p: usize)
    requires ITERATIONS in m && m[ITERATIONS] == Text.NatToDecimal(i)
    requires PERIOD in m && m[PERIOD] == Text.NatToDecimal(p)
    ensures ParseIter(s, m) == Ok(ConfigIter.FromInts(i, p))
  {
    Text.ParseUsizeDecimal(i);
    Text.ParseUsizeDecimal(p);
  }

  /** This generation's top-level configuration: the input path and the four strategies. */
  datatype Config = Config(
    input: string,
    check: ConfigCheck.Strategy,
    iter: ConfigIter.Strategy,
    sync: ConfigSync.Strategy,
    permute: ConfigPermute.Strategy)

  /**
   * `Clappable` for the top-level configuration: the input is replaced when
   * given, each strategy is merged from its own flag, and the first error (in
   * the order check, iterations, sync, permute) aborts.
   */
  function ParseConfig(c: Config, m: ArgMatches): (r: Result<Config, ConfigErr.Error>)
    ensures r.Ok? <==> ParseCheck(c.check, m).Ok? && ParseIter(c.iter, m).Ok?
                       && ParseSync(c.sync, m).Ok? && ParsePermute(c.permute, m).Ok?
    ensures r.Ok? ==> r.value == Config(
      if INPUT in m then m[INPUT] else c.input,
      ParseCheck(c.check, m).value, ParseIter(c.iter, m).value,
      ParseSync(c.sync, m).value, ParsePermute(c.permute, m).value)
    ensures ParseCheck(c.check, m).Err? ==> r == Err(ParseCheck(c.check, m).error)
    ensures ParseCheck(c.check, m).Ok? && ParseIter(c.iter, m).Err? ==> r == Err(ParseIter(c.iter, m).error)
    ensures ParseCheck(c.check, m).Ok? && ParseIter(c.iter, m).Ok? && ParseSync(c.sync, m).Err? ==>
      r == Err(ParseSync(c.sync, m).error)
    ensures ParseCheck(c.check, m).Ok? && ParseIter(c.iter, m).Ok? && ParseSync(c.sync, m).Ok?
            && ParsePermute(c.permute, m).Err? ==>
      r == Err(ParsePermute(c.permute, m).error)
  {
    var input := ValueOf(m, INPUT).UnwrapOr(c.input);
    var check := ParseCheck(c.check, m);
    if check.Err? then Err(check.error) else
    var iter := ParseIter(c.iter, m);
    if iter.Err? then Err(iter.error) else
    var sync := ParseSync(c.sync, m);
    if sync.Err? then Err(sync.error) else
    var permute := ParsePermute(c.permute, m);
    if permute.Err? then Err(permute.error) else
    Ok(Config(input, check.value, iter.value, sync.value, permute.value))
  }

  /** With no arguments at all, parsing changes nothing. */
  lemma ParseConfigEmpty(c: Config)
    ensures ParseConfig(c, map[]) == Ok(c)
  {
    ParseIterUnchanged(c.iter, map[]);
  }
}
