/** The entry point's subcommand dispatch and display helpers (main.go).
    main.go's own copies of wildcardMatch, the stale selection and
    getContextDisplay are the functions of module Prune. */
module Cli {
  datatype Command = Discover | Prune | Tui

  /** The subcommand chosen from os.Args (program name first). */
  function Dispatch(args: seq<string>): (r: Command)
    ensures r == Discover <==> |args| > 1 && args[1] == "discover"
    ensures r == Prune <==> |args| > 1 && args[1] == "prune"
    ensures |args| <= 1 ==> r == Tui
  {
    if |args| > 1 && args[1] == "discover" then Discover
    else if |args| > 1 && args[1] == "prune" then Prune
    else Tui
  }

  /** Only the first argument decides; later flags never change the choice. */
  lemma DispatchIgnoresFlags(args: seq<string>, flags: seq<string>)
    requires |args| >= 2
    ensures Dispatch(args + flags) == Dispatch(args)
  {
    assert (args + flags)[1] == args[1];
  }

  /** getOutputDisplay. */
  function GetOutputDisplay(outputFile: string): (r: string)
    ensures r != ""
    ensures outputFile != "" ==> r == outputFile
    ensures outputFile == "" ==> r == "stdout"
  {
    if outputFile == "" then "stdout" else outputFile
  }
}
