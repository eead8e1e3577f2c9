/**
 * `main`: the choice between printing the version, one lookup on the
 * command line, and the interactive session, and what a one-shot lookup
 * writes and exits with.
 */
module Cli {
  import opened Wrappers
  import opened Text
  import opened Styles
  import opened Lookup
  import opened Format

  /** The parsed command line: `--version`, `-w <word>`, and the positional arguments. */
  datatype CommandLine = CommandLine(versionFlag: bool, wordFlag: string, args: seq<string>)

  /** The values stamped into the binary at build time. */
  datatype BuildInfo = BuildInfo(version: string, commit: string, date: string)

  datatype Action = PrintVersion | LookupOnce(word: string) | Interactive

  /** What the program writes and the status it exits with. */
  datatype Output = Output(stdout: string, stderr: string, exitCode: int)

  datatype Outcome = Exited(output: Output) | StartsSession

  /**
   * `--version` wins over everything; otherwise a non-empty `-w` word wins
   * over the first positional argument, and the session starts only when
   * neither was given.
   */
  function ChooseAction(cl: CommandLine): (a: Action)
    ensures a == PrintVersion <==> cl.versionFlag
    ensures a == Interactive <==> !cl.versionFlag && cl.wordFlag == "" && cl.args == []
    ensures a.LookupOnce? ==>
      if cl.wordFlag != "" then a.word == cl.wordFlag else cl.args != [] && a.word == cl.args[0]
  {
    if cl.versionFlag then PrintVersion
    else if cl.wordFlag != "" || |cl.args| > 0 then
      LookupOnce(if cl.wordFlag != "" then cl.wordFlag else cl.args[0])
    else Interactive
  }

  function VersionText(b: BuildInfo): string {
    "dictionary-tui version " + b.version + "\ncommit: " + b.commit + "\nbuilt at: " + b.date + "\n"
  }

  /** The banner above a one-shot definition; it names the word as typed. */
  function Banner(st: Styles, word: string): string {
    "\n" + st.title("Dictionary-TUI: " + word) + "\n\n"
  }

  function ErrorLine(e: LookupError): string {
    "Error: " + Message(e) + "\n"
  }

  /** A one-shot lookup: the banner and panel on success, the error and status 1 otherwise. */
  function LookupOnceOutput(st: Styles, word: string, net: Network): Output {
    match LookupWord(word, net)
    case Success(entries) => Output(Banner(st, word) + st.panel(FormatText(st, entries[0])) + "\n", "", 0)
    case Failure(e) => Output("", ErrorLine(e), 1)
  }

  function Run(cl: CommandLine, b: BuildInfo, st: Styles, net: Network): Outcome {
    match ChooseAction(cl)
    case PrintVersion => Exited(Output(VersionText(b), "", 0))
    case LookupOnce(w) => Exited(LookupOnceOutput(st, w, net))
    case Interactive => StartsSession
  }

  /**
   * A one-shot lookup exits with 0 exactly when the lookup succeeds; then
   * only standard output is written, with the formatted first entry in a
   * panel under the banner; otherwise only standard error is written, with
   * the error's text, and the status is 1.
   */
  lemma OneShotReportsOutcome(st: Styles, word: string, net: Network)
    ensures var o := LookupOnceOutput(st, word, net);
      && (o.exitCode == 0 <==> LookupWord(word, net).Success?)
      && (o.exitCode == 0 ==>
            o == Output(Banner(st, word) + st.panel(FormatText(st, LookupWord(word, net).value[0])) + "\n", "", 0))
      && (o.exitCode != 0 ==> o == Output("", ErrorLine(LookupWord(word, net).error), 1))
  {
  }

  /** A `-w` word decides even when positional arguments follow. */
  lemma WordFlagWins(w: string, args: seq<string>)
    requires w != ""
    ensures ChooseAction(CommandLine(false, w, args)) == LookupOnce(w)
  {
  }

  /**
   * The flag is checked for being empty, not blank: `-w " "` shadows a
   * positional word and the run fails with the empty-input error and status 1.
   */
  lemma BlankWordFlagShadowsArgument(st: Styles, b: BuildInfo, net: Network, arg: string)
    ensures Run(CommandLine(false, " ", [arg]), b, st, net) == Exited(Output("", ErrorLine(EmptyInput), 1))
    ensures ErrorLine(EmptyInput) == "Error: please enter a word to search\n"
  {
    BlankSpace();
    EmptyInputLine();
    assert ChooseAction(CommandLine(false, " ", [arg])) == LookupOnce(" ");
    assert LookupWord(" ", net) == Failure(EmptyInput);
  }

  lemma BlankSpace()
    ensures IsBlank(" ")
  {
    assert IsSpace(" "[0]);
  }

  lemma EmptyInputLine()
    ensures ErrorLine(EmptyInput) == "Error: please enter a word to search\n"
  {
  }

  /** With no flag and no argument the interactive session starts, whatever the build. */
  lemma NoArgumentsStartsSession(b: BuildInfo, st: Styles, net: Network)
    ensures Run(CommandLine(false, "", []), b, st, net) == StartsSession
  {
  }

  /** `--version` prints the build information and never consults the network. */
  lemma VersionIgnoresEverythingElse(w: string, args: seq<string>, b: BuildInfo, st: Styles, net: Network)
    ensures Run(CommandLine(true, w, args), b, st, net) == Exited(Output(VersionText(b), "", 0))
  {
  }
}
