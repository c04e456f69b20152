# WAT Simulator in Dafny

A model of the core of the WAT (word association test) simulator, a React component
that shows a list of words one at a time for 15 seconds each.

The core has two parts.

- **The word-list parser** (`parseInput`). It turns the text typed into the input box into
  the ordered list of words to show. The text is split into lines and blank lines are
  dropped. Each line loses one leading numbering marker (`1.`, `2)`) and one leading bullet
  (`-`, `•`, `*`), and is trimmed. A line holding a comma contributes its trimmed non-empty
  comma pieces; any other non-empty line contributes itself. When no line contributes
  anything, the whole text is split on commas instead.
- **The session.** The component moves through the screens `input`, `countdown`, `running`
  and `completed`. Its state is `screen`, `inputText`, `words`, `currentIndex`, `timeLeft`
  and `countdownValue`. It changes through these operations:
  - the start button (`startWAT`);
  - the countdown's one-second timeout, and the countdown effect that starts the test at 0;
  - the running interval's one-second update;
  - the Escape key handler, with its exit confirmation;
  - the reset button;
  - the input box's change handler.

Files:

- `Seqs.dfy`: generic `Map`, `Filter` and `FlatMap`. They are the shapes of the source's
  `.map(…)`, `.filter(…)` and `forEach`-with-`push`. Their lemmas are proved once, for any
  function.
- `Text.dfy`: JavaScript string behaviour the parser relies on.
  - `\s` and `trim` use the ECMAScript whitespace and line-terminator code points; `\d` is
    ASCII digits only.
  - `split` on one character keeps empty pieces.
  - `Split` and `Join` are proved to be inverses.
- `WordList.dfy`: `parseInput`, in two forms.
  - `Parse` is a function: the specification.
  - `ParseInput` is the method: a loop that appends each line's words, proved equal to
    `Parse`.
  - The lemmas state what parsing guarantees.
- `Examples.dfy`: the input shapes the input box invites, stated for any words of the
  right shape. They cover one word per line, numbered and bulleted lines, comma-separated
  words, and mixtures of these.
- `Session.dfy`: the session model.
  - Every transition is a function on the `State` datatype.
  - `Consistent` is the invariant every event keeps.
  - The timing and beep counts are proved for a whole session.
  - The `Simulator` class has the component's fields. Each of its methods is proved to make
    exactly the transition its function describes, and to keep the invariant.

A beep is counted, not played: `beeps` is a ghost field of the class, and a plain field of
`State`. One `TimerFired` event stands for one second of wall-clock time, delivered to
whichever timer is armed. After every event, the countdown effect runs as it does after a
re-render: at 0 it starts the test with a beep.

Some of the component's behaviour is easy to misread. The model follows the code in each
case.

- **Beeps.** A session over N words plays 4 beeps during the countdown (3, 2, 1 and START).
  It then plays one beep as each word's time runs out, the last word included: N beeps in
  the running phase. The on-screen note "Beep plays between words"
  (src/components/WATSimulator.jsx:217) reads as N − 1, but the updater at
  src/components/WATSimulator.jsx:123-135 beeps on both of its expiry branches.
  `WholeSession` states the total, 4 + N.
- **Escape.** A confirmed Escape changes only `screen`, back to `input`. The words, the
  index, the time left, the counter and the typed text are kept. A new start resets the
  index, the time and the counter (`RestartAfterEscape`).
- **Fallback.** The source comment at src/components/WATSimulator.jsx:37 ties the comma
  fallback to a text with no newlines. The condition at :38 only asks whether the line
  pass yielded nothing, newlines or not. So a text whose every line is only a marker comes
  back as its own comma pieces, markers included: `"-"` gives `["-"]`
  (`BulletOnlyFallsBack`).
- **Leading whitespace.** Lines are not trimmed before the markers are stripped. A line
  `"  1. Book"` keeps its marker and gives the word `"1. Book"`.

## Model

| member | source | states |
|---|---|---|
| Text.Trim | src/components/WATSimulator.jsx:24 | the result has no whitespace at either end, and is empty exactly when the string is all whitespace |
| Text.TrimOf | src/components/WATSimulator.jsx:24 | trimming whitespace + a trimmed word + whitespace gives exactly that word |
| Text.TrimIdempotent | src/components/WATSimulator.jsx:29 | trimming twice is trimming once |
| Text.TrimIsInfix | src/components/WATSimulator.jsx:24 | what trim keeps is a contiguous run of the original string |
| Text.Split | src/components/WATSimulator.jsx:16 | split yields at least one piece and no piece contains the separator |
| Text.JoinSplit | src/components/WATSimulator.jsx:16 | joining the split pieces with the separator gives back the string, and the first piece is its prefix |
| Text.SplitJoin | src/components/WATSimulator.jsx:28 | splitting separator-free parts joined by the separator gives back exactly those parts |
| Text.SplitPieceIsInfix | src/components/WATSimulator.jsx:39 | every split piece is a contiguous run of the split string |
| Seqs.Map | src/components/WATSimulator.jsx:29 | the result has the input's length and element k is f of input element k |
| Seqs.Filter | src/components/WATSimulator.jsx:16 | `.filter(p)`: keeps at most as many elements as it is given; characterised by `FilterSatisfies`, `FilterKeepsAll`, `FilterEmptyIff` and `FilterAppend` |
| Seqs.FlatMap | src/components/WATSimulator.jsx:19-35 | the `forEach` that pushes each line's words onto one array; no contract of its own, characterised by `FlatMapAppend`, `FlatMapFrom`, `FlatMapEmpty` and `FlatMapOneEach` |
| Seqs.FilterSatisfies | src/components/WATSimulator.jsx:30 | everything filter keeps passes the test and comes from the input |
| Seqs.FilterKeepsAll | src/components/WATSimulator.jsx:30 | filter drops nothing when every element passes |
| Seqs.FilterEmptyIff | src/components/WATSimulator.jsx:30 | filter yields nothing exactly when no element passes |
| Seqs.FilterAppend | src/components/WATSimulator.jsx:16 | filtering a concatenation is concatenating the filtered parts: order is kept |
| Seqs.FlatMapAppend | src/components/WATSimulator.jsx:19-35 | the words of a list of lines are the words of its first lines followed by those of the rest |
| Seqs.FlatMapFrom | src/components/WATSimulator.jsx:19-35 | every collected word comes from the contribution of some line |
| Seqs.FlatMapEmpty | src/components/WATSimulator.jsx:19-35 | lines that contribute nothing collect nothing |
| Seqs.FlatMapOneEach | src/components/WATSimulator.jsx:19-35 | lines that contribute one word each collect exactly those words, in line order |
| WordList.StripNumbering | src/components/WATSimulator.jsx:22 | `replace(/^\d+[.)]\s*/, '')`: never lengthens the line; characterised by `NumberingRemoved`, `NumberingKept` and `StripNumberingKeepsSuffix` |
| WordList.StripBullet | src/components/WATSimulator.jsx:23 | `replace(/^[-•*]\s*/, '')`: never lengthens the line; characterised by `BulletRemoved` and `StripBulletKeepsSuffix` |
| WordList.CleanLine | src/components/WATSimulator.jsx:21-24 | the cleaned line is trimmed and no longer than the line; characterised by `CleanNumberedLine`, `CleanBulletedLine`, `CleanPlainLine` and `StripsAreInfixes` |
| WordList.CommaWords | src/components/WATSimulator.jsx:28-41 | used per line at :28-30 and for the fallback at :39-41: split on commas, trim, drop the empty pieces; no contract of its own, characterised by `WordsAreWords`, `CommaWordsEmptyIff` and `CommaWordsAreInfixes` |
| WordList.LineWords | src/components/WATSimulator.jsx:26-34 | one line's contribution; no contract of its own, characterised by `SingleWordLine`, `LineWordsAreWords`, `LineWordsOfBlankLine` and `LineWordsAreInfixes` |
| WordList.Lines | src/components/WATSimulator.jsx:16 | split on line feeds and drop blank lines; no contract of its own, characterised by `FilterSatisfies` and `ParseOfJoinedLines` |
| WordList.LinePass | src/components/WATSimulator.jsx:17-35 | the words of all lines in line order; no contract of its own, characterised by `FlatMapAppend`, `LinePassWords` and `LinePassAreInfixes` |
| WordList.Parse | src/components/WATSimulator.jsx:13-45 | `parseInput`; no contract of its own, characterised by `ParseInput` (the loop equals it), `ParseGivesWords`, `ParseEmptyIff`, `ParseWordsAreInfixes` and `ParseOfJoinedLines` |
| WordList.DigitRunIsDigits | src/components/WATSimulator.jsx:22 | the measured leading run consists of ASCII digits |
| WordList.NumberingRemoved | src/components/WATSimulator.jsx:22 | digits, then `.` or `)`, then whitespace are removed together, and nothing after them |
| WordList.NumberingKept | src/components/WATSimulator.jsx:22 | a line that does not start with digits followed by `.` or `)` is left unchanged |
| WordList.BulletRemoved | src/components/WATSimulator.jsx:23 | a leading bullet and the whitespace after it are removed, and nothing after them |
| WordList.StripNumberingKeepsSuffix | src/components/WATSimulator.jsx:22 | removing the numbering keeps a suffix of the line |
| WordList.StripBulletKeepsSuffix | src/components/WATSimulator.jsx:23 | removing the bullet keeps a suffix of the line |
| WordList.CleanNumberedLine | src/components/WATSimulator.jsx:21-24 | a numbered line holding one word cleans to that word |
| WordList.CleanBulletedLine | src/components/WATSimulator.jsx:21-24 | a bulleted line holding one word cleans to that word |
| WordList.CleanPlainLine | src/components/WATSimulator.jsx:21-24 | a bare word that starts with neither a digit nor a bullet cleans to itself |
| WordList.SingleWordLine | src/components/WATSimulator.jsx:32-34 | a line that cleans to a comma-free word contributes exactly that word |
| WordList.ParseInput | src/components/WATSimulator.jsx:13-45 | the accumulating loop returns exactly the specified word list, and every item is a non-empty trimmed word |
| WordList.WordsAreWords | src/components/WATSimulator.jsx:28-30 | the trim-and-drop chain yields non-empty trimmed words only |
| WordList.LineWordsAreWords | src/components/WATSimulator.jsx:26-34 | each line contributes non-empty trimmed words only |
| WordList.LinePassWords | src/components/WATSimulator.jsx:19-35 | the line pass collects non-empty trimmed words only |
| WordList.ParseGivesWords | src/components/WATSimulator.jsx:13-45 | no item of the result is empty or has whitespace at either end |
| WordList.ParseOfJoinedLines | src/components/WATSimulator.jsx:16-42 | text made of non-blank lines is parsed as the line pass over exactly those lines, with the comma fallback only when that pass yields nothing |
| WordList.WordsEmptyIff | src/components/WATSimulator.jsx:28-30 | the trim-and-drop chain yields nothing exactly when every piece is whitespace |
| WordList.SplitBlankIff | src/components/WATSimulator.jsx:39 | all pieces are blank exactly when the string holds only whitespace and separators |
| WordList.CommaWordsEmptyIff | src/components/WATSimulator.jsx:39-41 | the comma pieces are all dropped exactly when the text is whitespace and commas |
| WordList.LineWordsOfBlankLine | src/components/WATSimulator.jsx:26-34 | a line of whitespace and commas contributes nothing |
| WordList.ParseEmptyIff | src/components/WATSimulator.jsx:14-42 | parsing yields no word if and only if the text holds nothing but whitespace and commas |
| WordList.StripsAreInfixes | src/components/WATSimulator.jsx:21-24 | the cleaned line is a contiguous run of the original line |
| WordList.WordsAreInfixes | src/components/WATSimulator.jsx:28-30 | trimmed pieces remain runs of the text the pieces came from |
| WordList.CommaWordsAreInfixes | src/components/WATSimulator.jsx:39-41 | every fallback word is a run of the text |
| WordList.LineWordsAreInfixes | src/components/WATSimulator.jsx:26-34 | every word a line contributes is a run of that line |
| WordList.LinePassAreInfixes | src/components/WATSimulator.jsx:19-35 | every word of the line pass is a run of the text its lines came from |
| WordList.ParseWordsAreInfixes | src/components/WATSimulator.jsx:13-45 | parsing invents no text: every word is a run of characters of the input |
| WordListExamples.CleanedNotBlank | src/components/WATSimulator.jsx:16 | a line that cleans to a word is not dropped as blank |
| WordListExamples.ParseOneLine | src/components/WATSimulator.jsx:13-45 | a text without line feeds whose line yields words parses to exactly those words |
| WordListExamples.CleanedLines | src/components/WATSimulator.jsx:13-45 | lines that each clean to one comma-free word parse to those words, in order, duplicates kept |
| WordListExamples.OneWordPerLine | src/components/WATSimulator.jsx:13-45 | one plain word per line gives back exactly the list of words |
| WordListExamples.NumberedAndBulleted | src/components/WATSimulator.jsx:21-24 | lines `1. a`, `2) b` and `- c` parse to `[a, b, c]` |
| WordListExamples.CommaWordsTwo | src/components/WATSimulator.jsx:28-30 | `a, b` splits into `[a, b]` |
| WordListExamples.CommaWordsThree | src/components/WATSimulator.jsx:28-30 | `a, b, c` splits into `[a, b, c]` |
| WordListExamples.CommaSeparatedLine | src/components/WATSimulator.jsx:27-31 | the one-line text `a, b, c` parses to `[a, b, c]` |
| WordListExamples.NumberedLineWithCommas | src/components/WATSimulator.jsx:21-31 | lines `1. a, b` and `2. c` parse to `[a, b, c]`: commas are split per cleaned line |
| WordListExamples.EmptyText | src/components/WATSimulator.jsx:14 | the empty text gives no words |
| WordListExamples.OneMarkerOnly | src/components/WATSimulator.jsx:22 | only one numbering marker is removed: `1. 2. Book` cleans to `2. Book` |
| WordListExamples.SilentLineFallsBack | src/components/WATSimulator.jsx:38-42 | a single non-blank line that contributes no words parses to its comma pieces |
| WordListExamples.BulletOnlyFallsBack | src/components/WATSimulator.jsx:38-42 | a text that is only a bullet falls back to the comma split and yields the bullet itself |
| WordListExamples.SeparatorsOnly | src/components/WATSimulator.jsx:14-42 | the text `" \n , "` (a space, a line feed, a space, a comma, a space) gives no words; the general statement is `WordList.ParseEmptyIff` |
| Session.Initial | src/components/WATSimulator.jsx:4-9 | the `useState` initial values; no contract of its own, characterised by `InitialConsistent` and `Simulator.constructor` |
| Session.EditInput | src/components/WATSimulator.jsx:190 | the text box's change handler; no contract of its own, characterised by `Simulator.SetInputText` |
| Session.Start | src/components/WATSimulator.jsx:47-60 | `startWAT`; no contract of its own, characterised by `StartOutcome`, `StartedSession` and `Simulator.StartWAT` |
| Session.CountdownTick | src/components/WATSimulator.jsx:110-113 | the countdown's timeout callback; no contract of its own, characterised by `CountdownPhase` and `Simulator.CountdownTimer` |
| Session.CountdownSettle | src/components/WATSimulator.jsx:101-108 | the countdown effect's branch at 0; no contract of its own, characterised by `CountdownPhase`, `ApplyKeepsConsistent` and `Simulator.CountdownEffect` |
| Session.RunningTick | src/components/WATSimulator.jsx:122-139 | the running interval's updater; no contract of its own, characterised by `SecondCounts`, `SecondsCount` and `Simulator.RunningTimer` |
| Session.KeyDown | src/components/WATSimulator.jsx:147-153 | the Escape handler; no contract of its own, characterised by `EscapeStops`, `RestartAfterEscape` and `Simulator.HandleKeyDown` |
| Session.Reset | src/components/WATSimulator.jsx:159-166 | `reset`; no contract of its own, characterised by `ResetRestores` and `Simulator.ResetSession` |
| Session.Apply | src/components/WATSimulator.jsx:47-166 | one event: its handler, then the countdown effect as after a re-render; no contract of its own, characterised by `ApplyKeepsConsistent` |
| Session.InitialConsistent | src/components/WATSimulator.jsx:4-9 | the initial state satisfies the invariant |
| Session.ApplyKeepsConsistent | src/components/WATSimulator.jsx:47-166 | every event keeps the invariant: at least one word off the input screen, index in range, 1 to 15 seconds while running, last word and 0 seconds when completed |
| Session.RunKeepsConsistent | src/components/WATSimulator.jsx:47-166 | any sequence of events keeps the invariant |
| Session.ReachableConsistent | src/components/WATSimulator.jsx:4-9 | every state reachable from the initial values satisfies the invariant |
| Session.StartOutcome | src/components/WATSimulator.jsx:47-60 | start begins a countdown exactly when the text holds more than whitespace and commas; the countdown has the parsed words, index 0, 15 seconds and counter 3; otherwise nothing changes |
| Session.ActiveIffRemaining | src/components/WATSimulator.jsx:101-143 | a timer is armed exactly while the test has time remaining |
| Session.SecondCounts | src/components/WATSimulator.jsx:99-143 | each second takes one second off the remaining time and keeps beeps played + beeps ahead constant |
| Session.SecondsCount | src/components/WATSimulator.jsx:99-143 | after n seconds, no more than remain, the time remaining drops by n, the beep total is kept, and the test is complete exactly when n reaches the remaining time |
| Session.IdleSeconds | src/components/WATSimulator.jsx:101-120 | with no timer armed, any number of seconds changes nothing |
| Session.CountdownPhase | src/components/WATSimulator.jsx:99-116 | from 3, three one-second ticks with one beep each, then the test starts on the same tick with a fourth beep |
| Session.StartedSession | src/components/WATSimulator.jsx:47-60 | a start that finds N words leaves the invariant holding, no effect due, 3 + 15N seconds and 4 + N beeps ahead, the parsed words and the beep count unchanged |
| Session.WholeSession | src/components/WATSimulator.jsx:47-143 | N parsed words complete after exactly 3 + 15N seconds, on the last word, with 4 + N beeps; before that the test is still going; afterwards time changes nothing |
| Session.EscapeStops | src/components/WATSimulator.jsx:145-157 | the key handler changes state exactly on a confirmed Escape during countdown or running, then only the screen, and later ticks change nothing |
| Session.RestartAfterEscape | src/components/WATSimulator.jsx:47-60 | starting again after an Escape begins afresh at the first word with full time |
| Session.ResetRestores | src/components/WATSimulator.jsx:159-166 | reset restores every initial value from any state, and is idempotent |
| Session.Simulator.constructor | src/components/WATSimulator.jsx:4-9 | the fields start at the initial values, which satisfy the invariant |
| Session.Simulator.SetInputText | src/components/WATSimulator.jsx:190 | only the typed text changes |
| Session.Simulator.StartWAT | src/components/WATSimulator.jsx:47-60 | makes the start transition, parsing with the loop; reports failure exactly when the text is whitespace and commas |
| Session.Simulator.CountdownTimer | src/components/WATSimulator.jsx:110-113 | makes the countdown tick transition and keeps the invariant |
| Session.Simulator.CountdownEffect | src/components/WATSimulator.jsx:101-108 | makes the start-of-test transition at 0 and keeps the invariant |
| Session.Simulator.RunningTimer | src/components/WATSimulator.jsx:120-139 | makes the running tick transition and keeps the invariant |
| Session.Simulator.HandleKeyDown | src/components/WATSimulator.jsx:147-153 | makes the Escape transition and keeps the invariant |
| Session.Simulator.ResetSession | src/components/WATSimulator.jsx:159-166 | makes the reset transition and keeps the invariant |

## Left out

- Rendering (src/components/WATSimulator.jsx:168-308). The screens, the progress display and
  the buttons are presentation only.
- Audio (src/components/WATSimulator.jsx:63-97). The AudioContext set-up and the oscillator
  in `playBeep` are browser calls with floating-point parameters. A beep is a counter that
  cannot fail.
- Timer scheduling. `setTimeout`, `setInterval` and effect clean-up are reduced to one
  `TimerFired` event per second, delivered to the timer armed for the current screen. The
  running interval is re-created whenever the index changes, which can shift its phase;
  that shift is not modelled.
- React state batching. Each handler is one atomic transition. React's strict mode can run
  an updater function twice in development; the running updater has side effects (a beep
  and two more state updates), and that doubling is not modelled.
- The keydown listener's registration and removal (src/components/WATSimulator.jsx:155-156).
  Only the handler is modelled, as `KeyDown` with the key name as a parameter.
- `confirm()` and `alert()`. The answer to `confirm()` is a boolean parameter. The alert is
  the `false` result of `StartWAT`.
- Start, Reset and Edit outside their screens. The start button and the text box
  (src/components/WATSimulator.jsx:169-190) are only shown on the input screen, and the
  reset button only on the completed screen. `Start`, `Reset` and `EditInput` do not check
  the screen, so the model also allows them elsewhere.
- UTF-16. JavaScript strings are UTF-16 code units; the model's characters are Unicode
  scalar values, so surrogate pairs are not modelled.
- vite.config.js is build configuration and is not part of this model.
