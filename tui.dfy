/**
 * The session model as the client writes it: an object whose handlers
 * assign its fields one by one. Each handler is proved to leave exactly the
 * state, and to return exactly the command, that `Machine` specifies.
 */
module Tui {
  import opened Wrappers
  import opened Text
  import opened Styles
  import opened History
  import opened Machine

  class Model {
    var mode: Mode
    var input: string
    var focused: bool
    var word: string
    var definition: string
    var err: Option<string>
    var history: seq<string>
    var cursor: nat
    var ready: bool

    /** The fields as one value of the specification's state. */
    function Snapshot(): State
      reads this
    {
      State(mode, input, focused, word, definition, err, history, cursor, ready)
    }

    /** `initialModel`. */
    constructor ()
      ensures Snapshot() == Initial()
    {
      mode := SearchMode;
      input := "";
      focused := true;
      word := "";
      definition := Welcome;
      err := None;
      history := [];
      cursor := 0;
      ready := false;
    }

    /** `addToHistory`: only the history changes. */
    method AddToHistory(w: string)
      modifies this
      ensures Snapshot() == old(Snapshot()).(history := Pushed(old(history), w))
    {
      var items := [w] + history;
      if |items| > MaxHistory {
        items := items[..MaxHistory];
      }
      history := items;
    }

    /** `handleKeyMsg`. */
    method HandleKeyMsg(k: Key) returns (cmd: Cmd, handled: bool)
      modifies this
      ensures KeyOutcome(Snapshot(), cmd, handled) == HandleKey(old(Snapshot()), k)
    {
      if k == CtrlC {
        return Quit, true;
      } else if k == CtrlH {
        if mode == SearchMode {
          mode := HistoryMode;
          focused := false;
        } else {
          mode := SearchMode;
          focused := true;
        }
        return NoCmd, true;
      } else if k == Esc && mode == HistoryMode {
        mode := SearchMode;
        focused := true;
        return NoCmd, true;
      }
      return NoCmd, false;
    }

    /** `handleSearchMode`. */
    method HandleSearchMode(msg: Msg) returns (cmd: Cmd)
      modifies this
      ensures Outcome(Snapshot(), cmd) == SearchStep(old(Snapshot()), msg)
    {
      if msg == KeyMsg(Enter) {
        var w := TrimSpace(input);
        if w != "" {
          word := w;
          input := "";
          focused := false;
          AddToHistory(w);
          definition := Searching;
          return LookupDefinition(word);
        }
      }
      return WidgetCmd;
    }

    /** `handleHistoryMode`. */
    method HandleHistoryMode(st: Styles, msg: Msg) returns (cmd: Cmd)
      modifies this
      ensures Outcome(Snapshot(), cmd) == HistoryStep(st, old(Snapshot()), msg)
    {
      if msg == KeyMsg(Enter) {
        var selected := Selected(Snapshot());
        if selected.Some? {
          var w := selected.value;
          mode := SearchMode;
          word := w;
          focused := true;
          definition := Reviewing(st, w);
          return LookupDefinition(w);
        }
      }
      return WidgetCmd;
    }

    /** `Update`, which also keeps the session's invariant. */
    method Update(st: Styles, msg: Msg) returns (cmd: Cmd)
      modifies this
      ensures Outcome(Snapshot(), cmd) == Step(st, old(Snapshot()), msg)
      ensures old(Valid(Snapshot())) ==> Valid(Snapshot())
    {
      if old(Valid(Snapshot())) {
        StepPreservesValid(st, old(Snapshot()), msg);
      }
      match msg {
        case KeyMsg(k) =>
          var handled;
          cmd, handled := HandleKeyMsg(k);
          if handled {
            return;
          }
        case WindowSizeMsg =>
          ready := true;
        case ResultMsg(text) =>
          definition := text;
          focused := true;
        case ErrMsg(m) =>
          err := Some(m);
          definition := ErrorText(m);
          focused := true;
      }
      if mode == SearchMode {
        cmd := HandleSearchMode(msg);
      } else {
        cmd := HandleHistoryMode(st, msg);
      }
    }
  }
}
