/**
 * The two rules of src/main.rs below argument parsing: how the command-line
 * arguments become a configuration source (`Args::collect`), and which log
 * levels `setup_logging` picks from the flags.
 */
module Cli {
  import opened Common
  import Urls

  /** The global arguments; the subcommand is not part of the model. */
  datatype Args = Args(url: Option<Urls.Url>, verbose: bool, timestamps: bool, token: Option<string>)

  /** A value of the configuration map; the arguments only ever give strings. */
  datatype ConfigValue = StringValue(s: string)

  /**
   * `Args::collect`: the URL, in its string form, under "url" and the token under
   * "token", each only when it was given. It never fails.
   */
  method Collect(args: Args) returns (r: Result<map<string, ConfigValue>>)
    ensures r.Ok?
    ensures r.value.Keys <= {"url", "token"}
    ensures "url" in r.value <==> args.url.Some?
    ensures "token" in r.value <==> args.token.Some?
    ensures args.url.Some? ==> r.value["url"] == StringValue(Urls.Serialize(args.url.value))
    ensures args.token.Some? ==> r.value["token"] == StringValue(args.token.value)
  {
    var m: map<string, ConfigValue> := map[];
    if args.url.Some? {
      m := m["url" := StringValue(Urls.Serialize(args.url.value))];
    }
    if args.token.Some? {
      m := m["token" := StringValue(args.token.value)];
    }
    r := Ok(m);
  }

  /** What a later configuration reader finds under a key of the collected map. */
  function Lookup(m: map<string, ConfigValue>, key: string): Option<string> {
    if key in m then Some(m[key].s) else None
  }

  /** Reading the collected map back gives the token and the URL's string form: nothing is lost or invented. */
  method CollectReadsBack(args: Args) returns (url: Option<string>, token: Option<string>)
    ensures url == (if args.url.Some? then Some(Urls.Serialize(args.url.value)) else None)
    ensures token == args.token
  {
    var collected := Collect(args);
    url := Lookup(collected.value, "url");
    token := Lookup(collected.value, "token");
  }

  /** The level filters of the `log` crate, from the quietest to the most verbose. */
  datatype LevelFilter = Off | Error | Warn | Info | Debug | Trace

  /** The levels `setup_logging` hands to the logger. */
  datatype LoggingLevels = LoggingLevels(
    logLevel: LevelFilter, timeLevel: LevelFilter, threadLevel: LevelFilter, targetLevel: LevelFilter)

  /**
   * `setup_logging`: verbose logging lets Debug records through where the default
   * stops at Info; the timestamps flag sets the time level to Error instead of
   * Trace; thread and target levels are always Trace.
   */
  function SetupLogging(args: Args): (r: LoggingLevels)
    ensures r.logLevel == Debug <==> args.verbose
    ensures r.logLevel == Info <==> !args.verbose
    ensures r.timeLevel == Error <==> args.timestamps
    ensures r.timeLevel == Trace <==> !args.timestamps
    ensures r.threadLevel == Trace && r.targetLevel == Trace
  {
    LoggingLevels(
      if args.verbose then LevelFilter.Debug else LevelFilter.Info,
      if args.timestamps then LevelFilter.Error else LevelFilter.Trace,
      LevelFilter.Trace,
      LevelFilter.Trace)
  }
}
