/**
 * The interactive session as a state machine over the fields of `model`
 * that the client itself manages. Each function takes the state before an
 * event and gives the state after it, as `handleKeyMsg`, `handleSearchMode`,
 * `handleHistoryMode` and `Update` do on their copy of the model.
 */
module Machine {
  import opened Wrappers
  import opened Text
  import opened Entries
  import opened Styles
  import opened History
  import opened Lookup
  import opened Format

  datatype Mode = SearchMode | HistoryMode

  /** The keys the client reacts to itself; every other key goes to the widgets. */
  datatype Key = CtrlC | CtrlH | Esc | Enter

  /** The events `Update` receives. */
  datatype Msg =
    | KeyMsg(key: Key)
    | WindowSizeMsg
    | ResultMsg(text: string)     // a lookup finished with this formatted text
    | ErrMsg(message: string)     // a lookup failed with this error text

  /** What `Update` asks the event loop to do next. */
  datatype Cmd =
    | NoCmd
    | Quit
    | LookupDefinition(word: string)  // run a lookup of `word` in the background
    | WidgetCmd                       // whatever the focused widgets asked for

  datatype State = State(
    mode: Mode,
    input: string,         // the text input's value
    focused: bool,         // whether the text input has focus
    word: string,          // the last word searched
    definition: string,    // the text shown in the viewport
    err: Option<string>,   // the last lookup error
    history: seq<string>,  // the history list, newest first
    cursor: nat,           // the index the history list has selected
    ready: bool)           // whether a window size has been received

  const Welcome: string := "Welcome! Search for a word to see its definition here."
  const Searching: string := "Searching..."

  function Reviewing(st: Styles, w: string): string {
    "Reviewing definition for: " + st.keyword(w) + "..."
  }

  function ErrorText(message: string): string {
    "Error fetching definition: " + message + "\nPress Enter to try again."
  }

  /** `initialModel`. */
  function Initial(): State {
    State(SearchMode, "", true, "", Welcome, None, [], 0, false)
  }

  /** The history list's selected item, if its index is within the list. */
  function Selected(s: State): Option<string> {
    if s.cursor < |s.history| then Some(s.history[s.cursor]) else None
  }

  /** What the session keeps true between events. */
  predicate Valid(s: State) {
    && |s.history| <= MaxHistory
    && (forall k :: 0 <= k < |s.history| ==> IsSearchable(s.history[k]))
    && (s.word == "" || IsSearchable(s.word))
  }

  datatype KeyOutcome = KeyOutcome(state: State, cmd: Cmd, handled: bool)
  datatype Outcome = Outcome(state: State, cmd: Cmd)

  /** `handleKeyMsg`: the keys handled in either mode. */
  function HandleKey(s: State, k: Key): KeyOutcome {
    match k
    case CtrlC => KeyOutcome(s, Quit, true)
    case CtrlH =>
      if s.mode == SearchMode then KeyOutcome(s.(mode := HistoryMode, focused := false), NoCmd, true)
      else KeyOutcome(s.(mode := SearchMode, focused := true), NoCmd, true)
    case Esc =>
      if s.mode == HistoryMode then KeyOutcome(s.(mode := SearchMode, focused := true), NoCmd, true)
      else KeyOutcome(s, NoCmd, false)
    case Enter => KeyOutcome(s, NoCmd, false)
  }

  /** `handleSearchMode`: Enter submits the trimmed input if it is not blank. */
  function SearchStep(s: State, msg: Msg): Outcome {
    var w := TrimSpace(s.input);
    if msg == KeyMsg(Enter) && w != "" then
      Outcome(s.(word := w, input := "", focused := false, history := Pushed(s.history, w),
                 definition := Searching),
              LookupDefinition(w))
    else Outcome(s, WidgetCmd)
  }

  /** `handleHistoryMode`: Enter looks up the selected word again, without re-adding it. */
  function HistoryStep(st: Styles, s: State, msg: Msg): Outcome {
    if msg == KeyMsg(Enter) && Selected(s).Some? then
      var w := Selected(s).value;
      Outcome(s.(mode := SearchMode, word := w, focused := true, definition := Reviewing(st, w)),
              LookupDefinition(w))
    else Outcome(s, WidgetCmd)
  }

  function ModeStep(st: Styles, s: State, msg: Msg): Outcome {
    if s.mode == SearchMode then SearchStep(s, msg) else HistoryStep(st, s, msg)
  }

  /** `Update`: handled keys stop here; everything else then goes to the current mode. */
  function Step(st: Styles, s: State, msg: Msg): Outcome {
    match msg
    case KeyMsg(k) =>
      var o := HandleKey(s, k);
      if o.handled then Outcome(o.state, o.cmd) else ModeStep(st, o.state, msg)
    case WindowSizeMsg => ModeStep(st, s.(ready := true), msg)
    case ResultMsg(text) => ModeStep(st, s.(definition := text, focused := true), msg)
    case ErrMsg(m) => ModeStep(st, s.(err := Some(m), definition := ErrorText(m), focused := true), msg)
  }

  /** `lookupDefinitionCmd`: the message a background lookup of `w` posts when it ends. */
  function LookupDefinitionCmd(st: Styles, w: string, net: Network): Msg {
    match LookupWord(w, net)
    case Failure(e) => ErrMsg(Message(e))
    case Success(entries) => ResultMsg(FormatText(st, entries[0]))
  }

  // ---- properties of the session ----

  lemma InitialValid()
    ensures Valid(Initial()) && Initial().mode == SearchMode && Initial().focused
  {
  }

  /** Every event keeps the history bounded and every searched word non-blank and trimmed. */
  lemma StepPreservesValid(st: Styles, s: State, msg: Msg)
    requires Valid(s)
    ensures Valid(Step(st, s, msg).state)
  {
    var t := match msg
      case KeyMsg(k) => HandleKey(s, k).state
      case WindowSizeMsg => s.(ready := true)
      case ResultMsg(text) => s.(definition := text, focused := true)
      case ErrMsg(m) => s.(err := Some(m), definition := ErrorText(m), focused := true);
    assert Valid(t);
    SearchStepPreservesValid(t, msg);
  }

  lemma SearchStepPreservesValid(s: State, msg: Msg)
    requires Valid(s)
    ensures Valid(SearchStep(s, msg).state)
  {
    var w := TrimSpace(s.input);
    if msg == KeyMsg(Enter) && w != "" {
      TrimmedIsSearchable(s.input);
      PushedKeepsSearchable(s.history, w);
    }
  }

  lemma PushedKeepsSearchable(h: seq<string>, w: string)
    requires IsSearchable(w)
    requires forall k :: 0 <= k < |h| ==> IsSearchable(h[k])
    ensures var r := Pushed(h, w); forall k :: 0 <= k < |r| ==> IsSearchable(r[k])
  {
    var r := Pushed(h, w);
    forall k | 0 <= k < |r| ensures IsSearchable(r[k]) {
      if k > 0 { assert r[k] == h[k - 1]; }
    }
  }

  /** Ctrl+C asks to quit and touches nothing. */
  lemma QuitTouchesNothing(st: Styles, s: State)
    ensures Step(st, s, KeyMsg(CtrlC)) == Outcome(s, Quit)
  {
  }

  /** Ctrl+H switches mode; the input has focus exactly in Search mode afterwards. */
  lemma ToggleSwitchesMode(st: Styles, s: State)
    ensures var t := Step(st, s, KeyMsg(CtrlH));
      t.cmd == NoCmd
      && t.state.mode == (if s.mode == SearchMode then HistoryMode else SearchMode)
      && t.state == s.(mode := t.state.mode, focused := t.state.mode == SearchMode)
  {
  }

  /**
   * Ctrl+H twice restores the mode, and restores the whole state whenever
   * focus matched the mode to begin with.
   */
  lemma ToggleTwiceRestores(st: Styles, s: State)
    ensures var t := Step(st, Step(st, s, KeyMsg(CtrlH)).state, KeyMsg(CtrlH)).state;
      t == s.(focused := s.mode == SearchMode)
    ensures s.focused == (s.mode == SearchMode) ==>
      Step(st, Step(st, s, KeyMsg(CtrlH)).state, KeyMsg(CtrlH)).state == s
  {
  }

  /**
   * Focus can get out of step with the mode, and then Ctrl+H twice does
   * not bring the focus back: from the start, Ctrl+H moves to History mode
   * and blurs the input, a lookup result arriving there focuses it again,
   * and after two more Ctrl+H the session is back in History mode but blurred.
   */
  lemma ToggleTwiceCanLoseFocus(st: Styles)
    ensures var s1 := Step(st, Initial(), KeyMsg(CtrlH)).state;
      var s2 := Step(st, s1, ResultMsg("x")).state;
      var s3 := Step(st, Step(st, s2, KeyMsg(CtrlH)).state, KeyMsg(CtrlH)).state;
      && s2.mode == HistoryMode && s2.focused
      && s3.mode == HistoryMode && !s3.focused && s3 != s2
  {
    var s1 := Step(st, Initial(), KeyMsg(CtrlH)).state;
    ToggleSwitchesMode(st, Initial());
    ResultShown(st, s1, "x");
    var s2 := Step(st, s1, ResultMsg("x")).state;
    ToggleTwiceRestores(st, s2);
  }

  /** Esc leaves History mode for Search mode and focuses the input. */
  lemma EscapeLeavesHistory(st: Styles, s: State)
    requires s.mode == HistoryMode
    ensures Step(st, s, KeyMsg(Esc)) == Outcome(s.(mode := SearchMode, focused := true), NoCmd)
  {
  }

  /** Esc in Search mode is not handled and changes nothing. */
  lemma EscapeInSearchIgnored(st: Styles, s: State)
    requires s.mode == SearchMode
    ensures Step(st, s, KeyMsg(Esc)) == Outcome(s, WidgetCmd)
  {
  }

  /**
   * Enter in Search mode with a non-blank input records the trimmed word,
   * clears and blurs the input, pushes the word onto the history, shows the
   * loading text and starts a lookup; the mode stays Search.
   */
  lemma SubmitSearch(st: Styles, s: State)
    requires s.mode == SearchMode && !IsBlank(s.input)
    ensures var w := TrimSpace(s.input);
      Step(st, s, KeyMsg(Enter)) == Outcome(
        s.(word := w, input := "", focused := false, history := Pushed(s.history, w), definition := Searching),
        LookupDefinition(w))
    ensures Step(st, s, KeyMsg(Enter)).state.mode == SearchMode
    ensures Step(st, s, KeyMsg(Enter)).state.history[0] == TrimSpace(s.input)
  {
  }

  /** Enter on a blank input changes nothing. */
  lemma SubmitBlankIgnored(st: Styles, s: State)
    requires s.mode == SearchMode && IsBlank(s.input)
    ensures Step(st, s, KeyMsg(Enter)) == Outcome(s, WidgetCmd)
  {
  }

  /**
   * Enter in History mode on a selected word returns to Search mode with
   * focus, records the word, shows the reviewing text and starts a lookup;
   * the history is left as it was.
   */
  lemma SubmitHistory(st: Styles, s: State)
    requires s.mode == HistoryMode && s.cursor < |s.history|
    ensures var w := s.history[s.cursor];
      Step(st, s, KeyMsg(Enter)) == Outcome(
        s.(mode := SearchMode, word := w, focused := true, definition := Reviewing(st, w)),
        LookupDefinition(w))
    ensures Step(st, s, KeyMsg(Enter)).state.history == s.history
  {
  }

  /** Enter in History mode with nothing selected changes nothing. */
  lemma SubmitNothingSelected(st: Styles, s: State)
    requires s.mode == HistoryMode && s.cursor >= |s.history|
    ensures Step(st, s, KeyMsg(Enter)) == Outcome(s, WidgetCmd)
  {
  }

  /** A finished lookup shows its text and focuses the input, in either mode. */
  lemma ResultShown(st: Styles, s: State, text: string)
    ensures Step(st, s, ResultMsg(text)).state == s.(definition := text, focused := true)
  {
  }

  /**
   * A failed lookup records the error, shows it with the retry hint and
   * focuses the input, in either mode.
   */
  lemma ErrorShown(st: Styles, s: State, m: string)
    ensures Step(st, s, ErrMsg(m)).state == s.(err := Some(m), definition := ErrorText(m), focused := true)
  {
  }

  /** A window size marks the session ready and changes nothing else that is modelled. */
  lemma ResizeMarksReady(st: Styles, s: State)
    ensures Step(st, s, WindowSizeMsg).state == s.(ready := true)
  {
  }

  /** Only a submission from Search mode changes the history. */
  lemma HistoryChangesOnlyOnSubmit(st: Styles, s: State, msg: Msg)
    requires Step(st, s, msg).state.history != s.history
    ensures msg == KeyMsg(Enter) && s.mode == SearchMode && !IsBlank(s.input)
    ensures Step(st, s, msg).state.history == Pushed(s.history, TrimSpace(s.input))
  {
  }

  /**
   * From a valid state, every lookup the session starts is for a word that
   * passes the client's empty-input check, whatever the network answers.
   */
  lemma LookupsPassEmptyCheck(st: Styles, s: State, msg: Msg, net: Network)
    requires Valid(s)
    requires Step(st, s, msg).cmd.LookupDefinition?
    ensures LookupWord(Step(st, s, msg).cmd.word, net) != Failure(EmptyInput)
  {
    var w := Step(st, s, msg).cmd.word;
    if s.mode == SearchMode {
      TrimmedIsSearchable(s.input);
    } else {
      assert w == s.history[s.cursor];
    }
    SearchableIsNotBlank(w);
  }

  /**
   * When a lookup of a non-blank word ends, the input is focused again and
   * the viewport shows the formatted first entry, which begins with the
   * entry's styled word, or the error text; mode and history stay as they were.
   */
  lemma LookupCompletes(st: Styles, s: State, w: string, net: Network)
    requires !IsBlank(w)
    ensures var done := Step(st, s, LookupDefinitionCmd(st, w, net)).state;
      && done.mode == s.mode && done.focused && done.history == s.history
      && (LookupWord(w, net).Success? ==>
            var e := LookupWord(w, net).value[0];
            done.definition == FormatText(st, e) && st.keyword(e.word) <= done.definition)
      && (LookupWord(w, net).Failure? ==>
            var m := Message(LookupWord(w, net).error);
            LookupWord(w, net).error != EmptyInput
            && done.definition == ErrorText(m) && done.err == Some(m))
  {
    var r := LookupWord(w, net);
    if r.Success? {
      var e := r.value[0];
      FormatStartsWithWord(st, e);
      var head := st.keyword(e.word) + (if e.phonetic != "" then " " + st.phonetic(e.phonetic) else "");
      assert st.keyword(e.word) <= head;
      ResultShown(st, s, FormatText(st, e));
    } else {
      ErrorShown(st, s, Message(r.error));
    }
  }

  /**
   * Submitting a word shows the loading text at once and starts its lookup;
   * when that ends, the session is in Search mode with the input focused,
   * showing the formatted entry or the error, and the word heads the history.
   */
  lemma SubmitThenComplete(st: Styles, s: State, net: Network)
    requires s.mode == SearchMode && !IsBlank(s.input)
    ensures var w := TrimSpace(s.input);
      var sent := Step(st, s, KeyMsg(Enter));
      var done := Step(st, sent.state, LookupDefinitionCmd(st, w, net)).state;
      && sent.state.definition == Searching
      && sent.cmd == LookupDefinition(w)
      && done.mode == SearchMode && done.focused && done.history == Pushed(s.history, w)
      && (LookupWord(w, net).Success? ==>
            done.definition == FormatText(st, LookupWord(w, net).value[0]))
      && (LookupWord(w, net).Failure? ==>
            LookupWord(w, net).error != EmptyInput
            && done.definition == ErrorText(Message(LookupWord(w, net).error)))
  {
    var w := TrimSpace(s.input);
    SubmitSearch(st, s);
    TrimmedIsSearchable(s.input);
    SearchableIsNotBlank(w);
    LookupCompletes(st, Step(st, s, KeyMsg(Enter)).state, w, net);
  }
}
