/**
 * Command-line overrides in the user-experience layer (src/ux/clap.rs):
 * the same merge as the configuration's own command-line module, over the
 * top-level configuration without an input path, plus the output
 * configuration and the action to perform. The Option helpers are the same
 * as there and are shared.
 */
module UxClap {
  import opened Wrappers
  import ConfigErr
  import UxErr
  import OutErr
  import ConfigTop
  import ConfigIter
  import ConfigClap
  import OutConfig

  const OUTPUT_TYPE: string := "input-type"
  const DUMP_CONFIG: string := "dump-config"
  const DUMP_CONFIG_PATH: string := "dump-config-path"
  const CONFIG: string := "config"

  /**
   * An error of this layer: a user-experience error (a configuration error
   * lifted by `From`, or a missing input), or an output error from parsing
   * the outputter choice.
   */
  datatype Error = Ux(e: UxErr.Error) | Out(o: OutErr.Error)

  /** A configuration error, as `?` lifts it. */
  function FromConfig(e: ConfigErr.Error): (r: Error)
    ensures r.Ux? && r.e.Config? && r.e.e == e
  {
    Ux(UxErr.Config(e))
  }

  /**
   * `Clappable` for the top-level configuration: each field from its own
   * parser, the first error (in the order check, iterations, sync, permute)
   * aborting.
   */
  function ParseConfig(c: ConfigTop.Config, m: ConfigClap.ArgMatches): (r: Result<ConfigTop.Config, Error>)
    ensures r.Ok? <==> ConfigClap.ParseCheck(c.check, m).Ok? && ConfigClap.ParseIter(c.iter, m).Ok?
                       && ConfigClap.ParseSync(c.sync, m).Ok? && ConfigClap.ParsePermute(c.permute, m).Ok?
    ensures r.Ok? ==> r.value == ConfigTop.Config(
      ConfigClap.ParsePermute(c.permute, m).value, ConfigClap.ParseSync(c.sync, m).value,
      ConfigClap.ParseCheck(c.check, m).value, ConfigClap.ParseIter(c.iter, m).value)
    ensures ConfigClap.ParseCheck(c.check, m).Err? ==> r == Err(FromConfig(ConfigClap.ParseCheck(c.check, m).error))
    ensures ConfigClap.ParseCheck(c.check, m).Ok? && ConfigClap.ParseIter(c.iter, m).Err? ==>
      r == Err(FromConfig(ConfigClap.ParseIter(c.iter, m).error))
    ensures ConfigClap.ParseCheck(c.check, m).Ok? && ConfigClap.ParseIter(c.iter, m).Ok?
            && ConfigClap.ParseSync(c.sync, m).Err? ==>
      r == Err(FromConfig(ConfigClap.ParseSync(c.sync, m).error))
    ensures ConfigClap.ParseCheck(c.check, m).Ok? && ConfigClap.ParseIter(c.iter, m).Ok?
            && ConfigClap.ParseSync(c.sync, m).Ok? && ConfigClap.ParsePermute(c.permute, m).Err? ==>
      r == Err(FromConfig(ConfigClap.ParsePermute(c.permute, m).error))
  {
    var check := ConfigClap.ParseCheck(c.check, m);
    if check.Err? then Err(FromConfig(check.error)) else
    var iter := ConfigClap.ParseIter(c.iter, m);
    if iter.Err? then Err(FromConfig(iter.error)) else
    var sync := ConfigClap.ParseSync(c.sync, m);
    if sync.Err? then Err(FromConfig(sync.error)) else
    var permute := ConfigClap.ParsePermute(c.permute, m);
    if permute.Err? then Err(FromConfig(permute.error)) else
    Ok(ConfigTop.Config(permute.value, sync.value, check.value, iter.value))
  }

  /** With no arguments, the configuration comes back unchanged. */
  lemma ParseConfigEmpty(c: ConfigTop.Config)
    ensures ParseConfig(c, map[]) == Ok(c)
  {
    ConfigClap.ParseIterUnchanged(c.iter, map[]);
  }

  /** `Clappable` for the outputter choice, from the output-type argument. */
  function ParseChoice(c: OutConfig.Choice, m: ConfigClap.ArgMatches): (r: Result<OutConfig.Choice, Error>)
    ensures OUTPUT_TYPE !in m ==> r == Ok(c)
    ensures OUTPUT_TYPE in m ==> r == OutConfig.FromStr(m[OUTPUT_TYPE]).MapErr(e => Out(e))
  {
    ConfigClap.ParseOr(ConfigClap.ValueOf(m, OUTPUT_TYPE), c, OutConfig.FromStr).MapErr(e => Out(e))
  }

  /** `Clappable` for the output configuration: only the choice changes; the writer is kept. */
  function ParseOutConfig(c: OutConfig.Config, m: ConfigClap.ArgMatches): (r: Result<OutConfig.Config, Error>)
    ensures r.Ok? <==> ParseChoice(c.choice, m).Ok?
    ensures r.Ok? ==> r.value.writer == c.writer && r.value.choice == ParseChoice(c.choice, m).value
    ensures r.Err? ==> r.error == ParseChoice(c.choice, m).error
  {
    match ParseChoice(c.choice, m)
    case Ok(choice) => Ok(c.(choice := choice))
    case Err(e) => Err(e)
  }

  /** `Action`: run a test with an output configuration, or dump the configuration or its path. */
  datatype Action = RunTest(path: string, out: OutConfig.Config) | DumpConfig | DumpConfigPath

  /**
   * `Clappable` for `Action`: dumping the configuration wins over dumping its
   * path, which wins over running; running needs an input, and takes the
   * default output configuration merged with the arguments.
   */
  function ParseAction(m: ConfigClap.ArgMatches, flags: set<string>): (r: Result<Action, Error>)
    ensures DUMP_CONFIG in flags ==> r == Ok(DumpConfig)
    ensures DUMP_CONFIG !in flags && DUMP_CONFIG_PATH in flags ==> r == Ok(DumpConfigPath)
    ensures DUMP_CONFIG !in flags && DUMP_CONFIG_PATH !in flags && ConfigClap.INPUT !in m ==> r == Err(Ux(UxErr.NoInput))
    ensures DUMP_CONFIG !in flags && DUMP_CONFIG_PATH !in flags && ConfigClap.INPUT in m ==>
      r == ParseOutConfig(OutConfig.Default(), m).Map(o => RunTest(m[ConfigClap.INPUT], o))
    ensures r.Ok? && r.value.RunTest? ==>
      && DUMP_CONFIG !in flags && DUMP_CONFIG_PATH !in flags
      && ConfigClap.INPUT in m && r.value.path == m[ConfigClap.INPUT]
      && Ok(r.value.out) == ParseOutConfig(OutConfig.Default(), m)
  {
    if DUMP_CONFIG in flags then Ok(DumpConfig)
    else if DUMP_CONFIG_PATH in flags then Ok(DumpConfigPath)
    else match ConfigClap.ValueOf(m, ConfigClap.INPUT)
      case None => Err(Ux(UxErr.NoInput))
      case Some(input) =>
        match ParseOutConfig(OutConfig.Default(), m)
        case Ok(out) => Ok(RunTest(input, out))
        case Err(e) => Err(e)
  }

  /** With an input and no other arguments, the action runs the test with the default output. */
  lemma ParseActionRunsInput(path: string)
    ensures ParseAction(map[ConfigClap.INPUT := path], {}) == Ok(RunTest(path, OutConfig.Default()))
  {
    assert OUTPUT_TYPE != ConfigClap.INPUT;
  }
}
