/** The command-line entry points (service/api-service/src/main.ts, service/api-service/index.js
    and app/api-service/index.js): one argument picks a run mode, and any failure ends in `die`. */
module Cli {
  import opened Wrappers
  import opened JsText

  /** The keys of `RunMode`. */
  const RUN_MODES: seq<string> := ["init", "serve"]

  /** `parseCliCommand` over the whole `process.argv`: the arguments after the first two must
      be exactly one key of `RunMode`, which is returned unchanged; otherwise the message
      `die` is called with. */
  function ParseCliCommand(argv: seq<string>): (r: Result<string, string>)
    ensures r.Ok? <==> |argv| == 3 && argv[2] in RUN_MODES
    ensures r.Ok? ==> r.value == argv[2]
    ensures |argv| != 3 ==>
      r == Err("Expected 1 CLI argument, but " + Decimal(if |argv| >= 2 then |argv| - 2 else 0) + " is given.")
  {
    var args := if |argv| >= 2 then argv[2..] else [];
    if |args| != 1 then Err("Expected 1 CLI argument, but " + Decimal(|args|) + " is given.")
    else if args[0] !in RUN_MODES then Err("Expected command 'init' or 'serve', but '" + args[0] + "' is given.")
    else Ok(args[0])
  }

  /** The three programs: the TypeScript service, its JavaScript copy, and the early draft. */
  datatype EntryPoint = TsMain | JsIndex | DraftIndex

  /** What a run mode does: the migrations, the HTTP service, or the draft's `runApp`,
      which only logs. */
  datatype Mode = Migrations | HttpService | LogOnly

  /** `init` runs the migrations in every program; any other mode serves HTTP, except in
      the draft, whose `runApp` only logs. */
  function ModeOf(entry: EntryPoint, command: string): (r: Mode)
    ensures r == Migrations <==> command == "init"
    ensures r == LogOnly <==> entry == DraftIndex && command != "init"
  {
    if command == "init" then Migrations
    else if entry == DraftIndex then LogOnly
    else HttpService
  }

  /** How a run ends: the chosen mode finished, or the process died with a message. */
  datatype Outcome = Finished(mode: Mode) | Died(reason: string)

  /** `run`: parse, look the command up in `RunMode`, await it; a rejected command or an error
      from the mode ends in `die`. `failure` says whether the migrations or the HTTP service
      throw, and with what message; `runApp` cannot throw. */
  function Run(entry: EntryPoint, argv: seq<string>, failure: Mode -> Option<string>): (r: Outcome)
    ensures ParseCliCommand(argv).Err? ==> r == Died(ParseCliCommand(argv).error)
    ensures r.Finished? <==>
      |argv| == 3 && argv[2] in RUN_MODES &&
      (ModeOf(entry, argv[2]) == LogOnly || failure(ModeOf(entry, argv[2])).None?)
    ensures r.Finished? ==>
      r.mode == (if argv[2] == "init" then Migrations else if entry == DraftIndex then LogOnly else HttpService)
  {
    match ParseCliCommand(argv)
    case Err(message) => Died(message)
    case Ok(command) =>
      var mode := ModeOf(entry, command);
      if mode == LogOnly then Finished(mode)
      else
        match failure(mode)
        case Some(message) => Died(message)
        case None => Finished(mode)
  }

  /** The draft's `serve` always finishes, doing nothing but log. */
  lemma DraftServeFinishes(node: string, script: string, failure: Mode -> Option<string>)
    ensures Run(DraftIndex, [node, script, "serve"], failure) == Finished(LogOnly)
  {
    assert [node, script, "serve"][2..] == ["serve"];
  }
}
