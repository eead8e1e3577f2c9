# dictionary-tui, modelled in Dafny

`dt` is a terminal dictionary client. It looks up an English word at
dictionaryapi.dev and shows the formatted definition. It runs either once, on
the command line (`dt word`, `dt -w word`), or as an interactive session. The
session has a Search mode with a text input and a viewport, and a History mode
with a list of the last ten searches. This project models the client's core,
all of it in `cmd/dt/main.go`:

- the bounded search history;
- the session's state machine (key handling, submitting from either mode,
  lookup results and errors arriving);
- the order in which one lookup inspects the HTTP outcome;
- the text layout of a definition;
- how `main` chooses between version output, a one-shot lookup and the
  session.

Modules, in dependency order:

- `Wrappers`: `Option` and `Result`.
- `Text`: Go's `strings.TrimSpace` over `unicode.IsSpace`, lower-casing and
  decimal rendering of integers.
- `Entries`: the decoded JSON records.
- `Styles`: each terminal style is an arbitrary `string -> string`.
- `History`: `Pushed` specifies `addToHistory`.
- `Lookup`: `lookupWord`. The network is a function from URL to the outcome
  of the GET.
- `Format`: `formatDefinition`. The output is given as a list of typed lines
  (`Layout`) and their rendering (`Render`). A parser proves that the line
  list encodes the entry. The builder loop is an imperative method proved
  equal to the rendered layout.
- `Machine`: the session as pure step functions over a `State` record. This
  is the reference specification.
- `Tui`: the class `Model`. Its handlers assign fields step by step as the
  Go handlers do, and each is proved to produce exactly what `Machine`
  specifies.
- `Cli`: `main`'s choice of action and the one-shot output.

Whether the text input has focus does not always match the mode. A lookup
result or error focuses the input even when it arrives in History mode
(`cmd/dt/main.go:306-315`). From that state, Ctrl+H twice returns to History
mode with the input blurred, so the toggle pair does not restore the focus
(`Machine.ToggleTwiceCanLoseFocus`).

## Model

| member | source | states |
|---|---|---|
| Text.TrimSpace | cmd/dt/main.go:406 | the trimmed string is empty exactly when the input is all white space, and otherwise starts and ends with a non-space |
| Text.TrimSpaceIsBlankFramed | cmd/dt/main.go:226 | the trimmed word is the part of the input between a blank prefix and a blank suffix |
| Text.TrimSpaceIdempotent | cmd/dt/main.go:226 | trimming an already trimmed word changes nothing |
| Text.TrimmedIsSearchable | cmd/dt/main.go:226-227 | a non-blank input trims to a non-empty word without surrounding space |
| Text.SearchableIsNotBlank | cmd/dt/main.go:406-409 | a non-empty trimmed word is not blank, so it passes the empty-input check |
| Text.ToLower | cmd/dt/main.go:406 | lower-casing keeps the length and leaves no capital: each capital becomes its small letter, and every other character is unchanged |
| Text.ToLowerIdempotent | cmd/dt/main.go:406 | lower-casing an already lower-cased word changes nothing |
| Text.ToLowerKeepsBlankness | cmd/dt/main.go:406-407 | lower-casing first does not change whether the cleaned word is empty |
| Text.NatToDecimal | cmd/dt/main.go:465 | `%d` of a count is a canonical decimal (digits only, no leading zero) |
| Text.DecimalRoundTrip | cmd/dt/main.go:465 | the rendered decimal reads back as the same number |
| Text.DecimalCanonical | cmd/dt/main.go:468 | every canonical decimal is the rendering of its value, so numbering is a bijection |
| Text.IntToDecimal | cmd/dt/main.go:429 | a status code renders as a minus sign exactly when it is negative, followed by the canonical numeral whose value is the code's magnitude |
| Text.IntToDecimalInjective | cmd/dt/main.go:429 | different status codes render as different texts |
| History.Pushed | cmd/dt/main.go:352-359 | the new word comes first, followed by the old entries in order, and the length is the old length plus one, capped at ten |
| History.PushedDropsOldest | cmd/dt/main.go:355-357 | a full list loses exactly its oldest entry |
| History.PushedKeepsDuplicates | cmd/dt/main.go:353-354 | below capacity nothing is dropped or merged: the multiset grows by the word, duplicates included |
| History.PushedBounded | cmd/dt/main.go:70 | a history never holds more than `maxHistory` (10) entries |
| History.PushedAllNewestFirst | cmd/dt/main.go:352-359 | any sequence of searches leaves the words newest first, cut to ten |
| History.MostRecentSurvive | cmd/dt/main.go:355-357 | after ten or more distinct searches the list is exactly the last ten, newest first, and no older word remains |
| Lookup.Classify | cmd/dt/main.go:413-441 | each outcome of the request maps to its error kind (each an if-and-only-if), with the cause, status or word carried over |
| Lookup.ChecksInOrder | cmd/dt/main.go:419-435 | when several checks would fail, the earlier one wins: an unreadable body is reported whatever the status, a 404 whatever the body holds, and another non-200 status before decoding |
| Lookup.LookupWord | cmd/dt/main.go:405-442 | the empty-input error arises exactly for blank words; otherwise, the answer to one GET of the cleaned word's URL decides; a success is never empty |
| Lookup.BlankWordMakesNoRequest | cmd/dt/main.go:406-409 | a blank word fails before any request, whatever the network would answer |
| Lookup.OnlyTheRequestUrlMatters | cmd/dt/main.go:411-413 | nothing but the answer for the request URL affects the result |
| Lookup.NotFoundQuotesWordAsGiven | cmd/dt/main.go:424-426 | " Xyzzy " is requested as `.../en/xyzzy`, but the not-found error quotes " Xyzzy " as typed |
| Lookup.EmptyArrayIsNoData | cmd/dt/main.go:437-439 | a 200 with an empty array is the no-data error naming the word |
| Format.FormatDefinition | cmd/dt/main.go:455-477 | the builder loop produces exactly the rendering of the entry's layout |
| Format.WriteDefinitions | cmd/dt/main.go:467-472 | the inner loop appends exactly the rendered numbered definitions, each followed by its example when there is one |
| Format.HeadersNumberMeanings | cmd/dt/main.go:464-465 | there is one header per meaning; the k-th is numbered k+1 and carries that meaning's part of speech |
| Format.ItemsNumberDefinitions | cmd/dt/main.go:467-468 | within a meaning, the k-th definition line is numbered k+1 and carries that definition |
| Format.FormatStartsWithWord | cmd/dt/main.go:458-464 | the text is the styled word, then " " and the styled phonetic exactly when there is one, then an empty line, then the meaning blocks |
| Format.ExamplesOfDefinitions | cmd/dt/main.go:467-472 | the example lines of a meaning's definitions are exactly the examples of the definitions that have a non-empty one, in order |
| Format.WithExampleMembers | cmd/dt/main.go:469 | the definitions counted as having an example are exactly those whose example is non-empty |
| Format.ExamplesOnlyWhenGiven | cmd/dt/main.go:469-471 | under each meaning, an example line appears exactly for the definitions with an example, in order, and no example line is empty |
| Format.ParseDefinitionsRoundTrip | cmd/dt/main.go:467-473 | the definition lines of a meaning, up to its blank line, parse back to its definitions |
| Format.ParseMeaningsRoundTrip | cmd/dt/main.go:464-474 | the meaning blocks parse back to the meanings, in order |
| Format.LayoutRoundTrip | cmd/dt/main.go:455-477 | the layout loses nothing shown: it parses back to the word, phonetic and meanings |
| Machine.InitialValid | cmd/dt/main.go:163-184 | the initial session is in Search mode with the input focused, and satisfies the invariant |
| Machine.StepPreservesValid | cmd/dt/main.go:291-322 | every event keeps at most ten history entries, all trimmed and non-blank, and keeps the current word trimmed and non-blank when set |
| Machine.SearchStepPreservesValid | cmd/dt/main.go:221-244 | a Search-mode step keeps that invariant |
| Machine.PushedKeepsSearchable | cmd/dt/main.go:352-359 | pushing a searchable word onto a list of searchable words keeps every entry searchable |
| Machine.QuitTouchesNothing | cmd/dt/main.go:198-199 | Ctrl+C asks to quit and changes nothing |
| Machine.ToggleSwitchesMode | cmd/dt/main.go:201-209 | Ctrl+H switches mode; afterwards the input is focused exactly in Search mode; nothing else changes |
| Machine.ToggleTwiceRestores | cmd/dt/main.go:201-209 | Ctrl+H twice restores the mode, and the whole state when focus matched the mode |
| Machine.ToggleTwiceCanLoseFocus | cmd/dt/main.go:201-209 | from the start, Ctrl+H, then a lookup result, then Ctrl+H twice: the session ends in History mode with the input blurred, although it was focused before the two toggles |
| Machine.EscapeLeavesHistory | cmd/dt/main.go:211-216 | Esc in History mode returns to Search mode with focus |
| Machine.EscapeInSearchIgnored | cmd/dt/main.go:211-218 | Esc in Search mode is passed on to the widgets and changes nothing |
| Machine.SubmitSearch | cmd/dt/main.go:224-236 | Enter on a non-blank input records the trimmed word, clears and blurs the input, pushes the word onto the history, shows "Searching..." and starts its lookup |
| Machine.SubmitBlankIgnored | cmd/dt/main.go:224-243 | Enter on a blank input starts nothing and changes nothing |
| Machine.SubmitHistory | cmd/dt/main.go:248-258 | Enter on a selected history word returns to Search mode, focuses the input, shows the reviewing text and starts its lookup, leaving the history alone |
| Machine.SubmitNothingSelected | cmd/dt/main.go:248-262 | Enter in History mode with nothing selected changes nothing |
| Machine.ResultShown | cmd/dt/main.go:306-309 | a finished lookup shows its text and focuses the input, in either mode |
| Machine.ErrorShown | cmd/dt/main.go:311-315 | a failed lookup records the error, shows it with the retry hint and focuses the input, in either mode |
| Machine.ResizeMarksReady | cmd/dt/main.go:303-304 | a window size marks the session ready and changes nothing else modelled |
| Machine.HistoryChangesOnlyOnSubmit | cmd/dt/main.go:221-262 | only a non-blank submission in Search mode changes the history, and then by pushing the trimmed word |
| Machine.LookupsPassEmptyCheck | cmd/dt/main.go:444-453 | from a valid state, every lookup the session starts passes the empty-input check |
| Machine.LookupCompletes | cmd/dt/main.go:444-453 | when a lookup ends, the viewport shows the formatted first entry (beginning with the styled word) or the error text; the input is focused; mode and history are kept |
| Machine.SubmitThenComplete | cmd/dt/main.go:224-236 | a submission followed by its lookup's message ends in Search mode, with the input focused and the word at the head of history, showing the entry or the error |
| Tui.Model.constructor | cmd/dt/main.go:163-184 | the new model is the initial session state |
| Tui.Model.AddToHistory | cmd/dt/main.go:352-359 | only the history changes, and it becomes `Pushed` of the old one |
| Tui.Model.HandleKeyMsg | cmd/dt/main.go:196-219 | the fields, command and handled flag are exactly those of `Machine.HandleKey` |
| Tui.Model.HandleSearchMode | cmd/dt/main.go:221-244 | the fields and command are exactly those of `Machine.SearchStep` |
| Tui.Model.HandleHistoryMode | cmd/dt/main.go:246-263 | the fields and command are exactly those of `Machine.HistoryStep` |
| Tui.Model.Update | cmd/dt/main.go:291-322 | the fields and command are exactly those of `Machine.Step`, and the session invariant is kept |
| Cli.ChooseAction | cmd/dt/main.go:525-538 | `--version` wins; a non-empty `-w` word wins over the first positional argument; the session starts exactly when neither is given |
| Cli.OneShotReportsOutcome | cmd/dt/main.go:540-547 | a one-shot lookup exits 0 exactly when it succeeds, printing the banner and the panel; otherwise it prints only the error line and exits 1 |
| Cli.WordFlagWins | cmd/dt/main.go:532-538 | a `-w` word decides even when positional arguments follow |
| Cli.BlankWordFlagShadowsArgument | cmd/dt/main.go:532-544 | `-w " "` is non-empty, so it shadows a positional word, and the run fails with the empty-input error |
| Cli.NoArgumentsStartsSession | cmd/dt/main.go:551-554 | with no flag and no argument, the interactive session starts |
| Cli.VersionIgnoresEverythingElse | cmd/dt/main.go:525-530 | `--version` prints the build information whatever else is given |

## Left out

- HTTP, `io.ReadAll` and `encoding/json` are not modelled. The GET with its
  10-second timeout is the function `Network` from URL to outcome. The
  outcome says whether transport failed, whether the body could be read, the
  status, and whether decoding gave entries or an error. The body's bytes and
  the JSON grammar are not modelled.
- Running the lookup command in the background, and the order in which the
  event loop delivers its message, are not modelled. A lemma feeds the
  message straight back into `Step`.
- lipgloss rendering is left out. Each style is an arbitrary
  `string -> string`, so the proofs hold for any styling. Colours, borders,
  padding and widths are not modelled.
- The bubbles widgets are reduced to the fields the client reads or sets: the
  text input's value and focus, the list's items and selected index, and the
  viewport's content. Their own key handling is left out: typing, cursor
  movement, scrolling, list navigation, the 50-character input limit and the
  blinking cursor. Keys other than Ctrl+C, Ctrl+H, Esc and Enter are not in
  `Key`. When the client passes an Enter, Esc or non-key message on to a
  widget, that is modelled as changing none of those fields; the command the
  widget returns becomes the opaque `WidgetCmd`.
- `viewport.GotoTop` and the scroll position are not modelled.
- `handleWindowSize` is reduced to setting `ready`. Its size arithmetic and the
  widgets' new sizes depend on lipgloss measurements, which are not modelled.
- `View`, `headerView`, `footerView`, `formatHelp` and `flag.Usage` produce
  screen text only and are not modelled. The same goes for `init`, which
  reads the version from the binary's build information; the build
  information is a parameter (`BuildInfo`).
- Flag parsing itself and `os.Exit` are not modelled. The parsed flags come in
  as `CommandLine`, and the exit status is a field of `Output`. Running the
  interactive program is the outcome `StartsSession`.
- Text.ToLower: lower-cases ASCII letters only, whereas Go's `strings.ToLower`
  follows Unicode case mapping. `Text.ToLowerKeepsBlankness` shows that the
  difference cannot change the empty-input decision. The request URL of a
  word with non-ASCII capitals differs from the client's.
- Lookup.NotFoundQuotesWordAsGiven: states the cleaned URL and the error
  value, not the exact message text.
- Format.FormatDefinition: the Go loop nests the definition loop inside the
  meaning loop. Here the inner loop is the separate method
  `Format.WriteDefinitions`, called once per meaning; the order of writes is
  the same. `strings.Builder` is a string the loop extends.
- The `phonetics` and `sourceUrls` fields of an entry are decoded but never
  shown by the client, and play no part in the model.
- Only the first entry of a successful lookup is formatted, as in the client.
  The other entries are ignored.
