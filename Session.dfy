/** The session of the word association test: the screens `input`, `countdown`, `running`
    and `completed`, and the handlers and timers that move between them. The transitions
    are functions on `State`; the `Simulator` class holds the same fields as the
    component and its methods are proved to make exactly those transitions. A beep is
    counted, not played. */
module Session {
  import opened Text
  import opened WordList

  datatype Screen = Input | Countdown | Running | Completed

  /** Seconds each word is shown. */
  const WordSeconds := 15

  /** The value the countdown starts from: 3, 2, 1, then START. */
  const CountdownStart := 3

  /** The component's state. `beeps` counts the beeps played so far. */
  datatype State = State(
    screen: Screen,
    inputText: String,
    words: seq<String>,
    currentIndex: int,
    timeLeft: int,
    countdownValue: int,
    beeps: nat)

  /** The `useState` initial values. */
  function Initial(): State {
    State(Input, [], [], 0, WordSeconds, CountdownStart, 0)
  }

  // ---------------------------------------------------------------------------
  // Transitions

  /** The text area's change handler. */
  function EditInput(s: State, text: String): State {
    s.(inputText := text)
  }

  /** `startWAT`: parse the text; with no words nothing changes (the alert), otherwise a
      fresh countdown over the parsed words. */
  function Start(s: State): State {
    var parsed := Parse(s.inputText);
    if |parsed| == 0 then s
    else s.(words := parsed, currentIndex := 0, timeLeft := WordSeconds,
            countdownValue := CountdownStart, screen := Countdown)
  }

  /** The countdown's one-second timeout: it exists only on the countdown screen with a
      non-zero value, and beeps and decrements the value. */
  function CountdownTick(s: State): State {
    if s.screen == Countdown && s.countdownValue != 0 then
      s.(countdownValue := s.countdownValue - 1, beeps := s.beeps + 1)
    else s
  }

  /** The countdown effect's immediate branch: on the countdown screen at value 0 it
      beeps and starts the test. */
  function CountdownSettle(s: State): State {
    if s.screen == Countdown && s.countdownValue == 0 then
      s.(screen := Running, beeps := s.beeps + 1)
    else s
  }

  /** The running interval's one-second update of `timeLeft`: count down; when the time
      is up, beep and move to the next word, or after the last word, complete. */
  function RunningTick(s: State): State {
    if s.screen != Running then s
    else if s.timeLeft <= 1 then
      if s.currentIndex < |s.words| - 1 then
        s.(currentIndex := s.currentIndex + 1, timeLeft := WordSeconds, beeps := s.beeps + 1)
      else
        s.(screen := Completed, timeLeft := 0, beeps := s.beeps + 1)
    else s.(timeLeft := s.timeLeft - 1)
  }

  /** The keydown handler: a confirmed Escape during the countdown or the test goes back
      to the input screen and changes nothing else. */
  function KeyDown(s: State, key: String, confirmed: bool): State {
    if key == "Escape" && (s.screen == Running || s.screen == Countdown) && confirmed then
      s.(screen := Input)
    else s
  }

  /** `reset`: back to the initial values, text included. */
  function Reset(s: State): State {
    State(Input, [], [], 0, WordSeconds, CountdownStart, s.beeps)
  }

  /** The screens on which a timer is armed. */
  predicate Active(s: State) {
    s.screen == Countdown || s.screen == Running
  }

  /** Whichever timer is armed fires: the countdown timeout or the running interval. */
  function TimerFires(s: State): State {
    if s.screen == Countdown then CountdownTick(s) else RunningTick(s)
  }

  /** What the user or the browser can do. */
  datatype Event =
    | Edit(text: String)
    | StartClicked
    | TimerFired
    | KeyPressed(key: String, confirmed: bool)
    | ResetClicked

  /** One event, followed by the effects that run after the re-render: of these only the
      countdown effect changes state, when the countdown has reached 0. */
  function Apply(s: State, e: Event): State {
    var t := match e
      case Edit(text) => EditInput(s, text)
      case StartClicked => Start(s)
      case TimerFired => TimerFires(s)
      case KeyPressed(key, confirmed) => KeyDown(s, key, confirmed)
      case ResetClicked => Reset(s);
    CountdownSettle(t)
  }

  function Run(s: State, events: seq<Event>): State
    decreases |events|
  {
    if events == [] then s else Run(Apply(s, events[0]), events[1..])
  }

  /** One second of wall-clock time. */
  function Second(s: State): State {
    Apply(s, TimerFired)
  }

  /** `n` seconds of wall-clock time with no other event. */
  function Seconds(s: State, n: nat): State
    decreases n
  {
    if n == 0 then s else Seconds(Second(s), n - 1)
  }

  // ---------------------------------------------------------------------------
  // Invariant

  /** What holds in every reachable state: outside the input screen there is at least one
      word and every word is displayable; the countdown has not started the test; the
      index stays inside the list; a running word has 1 to 15 seconds left; a completed
      test stopped at the last word with no time left. */
  predicate Consistent(s: State) {
    (s.screen != Input ==> |s.words| >= 1 && AllWords(s.words)) &&
    (s.screen == Countdown ==>
      0 <= s.countdownValue <= CountdownStart && s.currentIndex == 0 && s.timeLeft == WordSeconds) &&
    (s.screen == Running ==>
      0 <= s.currentIndex < |s.words| && 1 <= s.timeLeft <= WordSeconds) &&
    (s.screen == Completed ==> s.currentIndex == |s.words| - 1 && s.timeLeft == 0)
  }

  /** No effect is due: the countdown is not sitting at 0. */
  predicate Settled(s: State) {
    !(s.screen == Countdown && s.countdownValue == 0)
  }

  lemma InitialConsistent()
    ensures Consistent(Initial()) && Settled(Initial())
  {
  }

  /** Every event keeps the invariant and leaves no effect due. */
  lemma ApplyKeepsConsistent(s: State, e: Event)
    requires Consistent(s)
    ensures Consistent(Apply(s, e)) && Settled(Apply(s, e))
  {
    if e == StartClicked && Parse(s.inputText) != [] {
      ParseGivesWords(s.inputText);
    }
  }

  /** Any sequence of events keeps the invariant. */
  lemma {:induction false} RunKeepsConsistent(s: State, events: seq<Event>)
    requires Consistent(s)
    ensures Consistent(Run(s, events))
    decreases |events|
  {
    if events != [] {
      ApplyKeepsConsistent(s, events[0]);
      RunKeepsConsistent(Apply(s, events[0]), events[1..]);
    }
  }

  /** Every state reachable from the initial one is consistent. */
  lemma ReachableConsistent(events: seq<Event>)
    ensures Consistent(Run(Initial(), events))
  {
    RunKeepsConsistent(Initial(), events);
  }

  // ---------------------------------------------------------------------------
  // Starting

  /** From the input screen, the start button begins a countdown exactly when the text
      holds something besides whitespace and commas; the countdown shows the parsed words
      from the first, with full time and the counter at 3. Otherwise nothing changes. */
  lemma StartOutcome(s: State)
    requires s.screen == Input
    ensures Start(s).screen == Countdown <==> !OnlySpaceOr(s.inputText, ',')
    ensures OnlySpaceOr(s.inputText, ',') ==> Start(s) == s
    ensures !OnlySpaceOr(s.inputText, ',') ==>
      Start(s).words == Parse(s.inputText) && |Start(s).words| >= 1 &&
      Start(s).currentIndex == 0 && Start(s).timeLeft == WordSeconds &&
      Start(s).countdownValue == CountdownStart &&
      Start(s).inputText == s.inputText && Start(s).beeps == s.beeps
  {
    ParseEmptyIff(s.inputText);
  }

  // ---------------------------------------------------------------------------
  // Timing and beeps

  /** Seconds until the test completes: the rest of the countdown, then the time left on
      the current word and 15 seconds for each word after it. */
  function Remaining(s: State): int {
    match s.screen
    case Countdown => s.countdownValue + WordSeconds * |s.words|
    case Running => s.timeLeft + WordSeconds * (|s.words| - 1 - s.currentIndex)
    case _ => 0
  }

  /** Beeps still to come: one per remaining countdown value, one at START, and one as
      each remaining word's time runs out. */
  function BeepsAhead(s: State): int {
    match s.screen
    case Countdown => s.countdownValue + 1 + |s.words|
    case Running => |s.words| - s.currentIndex
    case _ => 0
  }

  /** A timer is armed exactly while some time remains. */
  lemma ActiveIffRemaining(s: State)
    requires Consistent(s) && Settled(s)
    ensures Active(s) <==> Remaining(s) >= 1
  {
  }

  /** Each second takes exactly one second off the remaining time, and every beep it
      plays is one fewer beep ahead. */
  lemma SecondCounts(s: State)
    requires Consistent(s) && Settled(s) && Active(s)
    ensures Remaining(Second(s)) == Remaining(s) - 1
    ensures Second(s).beeps + BeepsAhead(Second(s)) == s.beeps + BeepsAhead(s)
    ensures Second(s).words == s.words && Second(s).inputText == s.inputText
    ensures Second(s).screen != Input
  {
  }

  /** Running the clock for `n` seconds, no more than remain, keeps the invariant, takes
      `n` seconds off, and keeps the beep total; the test is still going exactly when
      `n` is short of the remaining time, and otherwise it is complete. */
  lemma {:induction false} SecondsCount(s: State, n: nat)
    requires Consistent(s) && Settled(s) && s.screen != Input && n <= Remaining(s)
    ensures var t := Seconds(s, n);
      Consistent(t) && Settled(t) && Remaining(t) == Remaining(s) - n &&
      t.beeps + BeepsAhead(t) == s.beeps + BeepsAhead(s) &&
      t.words == s.words && t.inputText == s.inputText &&
      (Active(t) <==> n < Remaining(s)) && (!Active(t) ==> t.screen == Completed)
    decreases n
  {
    ActiveIffRemaining(s);
    if n > 0 {
      ApplyKeepsConsistent(s, TimerFired);
      SecondCounts(s);
      SecondsCount(Second(s), n - 1);
    }
  }

  /** Without a timer, time changes nothing: on the input and completed screens any
      number of seconds leaves the state as it is. */
  lemma {:induction false} IdleSeconds(s: State, n: nat)
    requires !Active(s)
    ensures Seconds(s, n) == s
    decreases n
  {
    if n > 0 {
      assert Second(s) == s;
      IdleSeconds(s, n - 1);
    }
  }

  /** The countdown: from 3, three ticks of one beep each; the third brings the counter
      to 0 and the test starts at once with a fourth beep, on the first word with 15
      seconds. Before that the screen stays on the countdown. */
  lemma CountdownPhase(s: State)
    requires Consistent(s) && s.screen == Countdown && s.countdownValue == CountdownStart
    ensures Seconds(s, 1).screen == Countdown && Seconds(s, 2).screen == Countdown
    ensures Seconds(s, 3) == s.(screen := Running, countdownValue := 0, beeps := s.beeps + 4)
  {
    assert Seconds(s, 1) == s.(countdownValue := 2, beeps := s.beeps + 1);
    assert Seconds(s, 2) == Second(Seconds(s, 1)) by {
      assert Seconds(s, 2) == Seconds(Second(s), 1);
    }
    assert Seconds(s, 3) == Second(Seconds(s, 2)) by {
      assert Seconds(s, 3) == Seconds(Second(s), 2);
      assert Seconds(Second(s), 2) == Seconds(Second(Second(s)), 1);
    }
  }

  /** A start that finds words leaves a settled countdown with the whole session ahead. */
  lemma StartedSession(s: State)
    requires s.screen == Input && Parse(s.inputText) != []
    ensures var t0 := Apply(s, StartClicked); var n := |Parse(s.inputText)|;
      Consistent(t0) && Settled(t0) && t0.screen == Countdown &&
      Remaining(t0) == 3 + WordSeconds * n && BeepsAhead(t0) == 4 + n &&
      t0.words == Parse(s.inputText) && t0.beeps == s.beeps
  {
    ParseGivesWords(s.inputText);
  }

  /** A whole session. Starting from the input screen with text that parses to N words,
      the test completes after exactly 3 + 15N seconds, on the last word, with 4 + N
      beeps: 3, 2, 1 and START, then one as each word's time runs out. At every earlier
      second it is still going, and afterwards time changes nothing. */
  lemma WholeSession(s: State, extra: nat)
    requires s.screen == Input && Parse(s.inputText) != []
    ensures var t0 := Apply(s, StartClicked); var n := |Parse(s.inputText)|;
      var t := Seconds(t0, 3 + WordSeconds * n);
      t.screen == Completed && t.words == Parse(s.inputText) && t.currentIndex == n - 1 &&
      t.beeps == s.beeps + 4 + n &&
      (forall k: nat :: k < 3 + WordSeconds * n ==> Active(Seconds(t0, k))) &&
      Seconds(t, extra) == t
  {
    var t0 := Apply(s, StartClicked);
    var n := |Parse(s.inputText)|;
    StartedSession(s);
    SecondsCount(t0, 3 + WordSeconds * n);
    forall k: nat | k < 3 + WordSeconds * n ensures Active(Seconds(t0, k)) {
      SecondsCount(t0, k);
    }
    IdleSeconds(Seconds(t0, 3 + WordSeconds * n), extra);
  }

  // ---------------------------------------------------------------------------
  // Escape and reset

  /** The keydown handler changes the state exactly when the key is Escape, the user
      confirms, and a countdown or a test is under way; then it changes only the screen,
      back to input, and the timers it left stop acting: any number of seconds after it
      changes nothing. */
  lemma EscapeStops(s: State, key: String, confirmed: bool, n: nat)
    ensures KeyDown(s, key, confirmed) != s <==> key == "Escape" && confirmed && Active(s)
    ensures KeyDown(s, key, confirmed) != s ==>
      KeyDown(s, key, confirmed) == s.(screen := Input) &&
      Seconds(Apply(s, KeyPressed(key, confirmed)), n) == s.(screen := Input)
  {
    if key == "Escape" && confirmed && Active(s) {
      IdleSeconds(s.(screen := Input), n);
    }
  }

  /** After an Escape, starting again with the same text begins afresh: first word, full
      time, counter at 3. */
  lemma RestartAfterEscape(s: State)
    requires Active(s) && Parse(s.inputText) != []
    ensures var t := Start(KeyDown(s, "Escape", true));
      t.screen == Countdown && t.words == Parse(s.inputText) && t.currentIndex == 0 &&
      t.timeLeft == WordSeconds && t.countdownValue == CountdownStart
  {
  }

  /** `reset` restores every initial value, text included, whatever the state; so doing
      it twice is the same as doing it once. */
  lemma ResetRestores(s: State)
    ensures Reset(s) == Initial().(beeps := s.beeps)
    ensures Consistent(Reset(s)) && Reset(Reset(s)) == Reset(s)
  {
  }

  // ---------------------------------------------------------------------------
  // The component

  /** The component's state, updated in place by its handlers. */
  class Simulator {
    var screen: Screen
    var inputText: String
    var words: seq<String>
    var currentIndex: int
    var timeLeft: int
    var countdownValue: int
    ghost var beeps: nat

    ghost function Snapshot(): State
      reads this
    {
      State(screen, inputText, words, currentIndex, timeLeft, countdownValue, beeps)
    }

    ghost predicate Valid()
      reads this
    {
      Consistent(Snapshot())
    }

    constructor ()
      ensures Valid() && Snapshot() == Initial()
    {
      screen := Input;
      inputText := [];
      words := [];
      currentIndex := 0;
      timeLeft := WordSeconds;
      countdownValue := CountdownStart;
      beeps := 0;
    }

    /** The text area's `onChange`. */
    method SetInputText(text: String)
      modifies this
      requires Valid()
      ensures Valid() && Snapshot() == EditInput(old(Snapshot()), text)
    {
      inputText := text;
    }

    /** `startWAT`. `started` is false exactly when the alert is shown instead. */
    method StartWAT() returns (started: bool)
      modifies this
      requires Valid()
      ensures Valid() && Snapshot() == Start(old(Snapshot()))
      ensures started <==> !OnlySpaceOr(old(inputText), ',')
    {
      ParseEmptyIff(inputText);
      var parsed := ParseInput(inputText);
      if |parsed| == 0 {
        return false;
      }
      words := parsed;
      currentIndex := 0;
      timeLeft := WordSeconds;
      countdownValue := CountdownStart;
      screen := Countdown;
      started := true;
    }

    /** The countdown's timeout callback. */
    method CountdownTimer()
      modifies this
      requires Valid()
      ensures Valid() && Snapshot() == CountdownTick(old(Snapshot()))
    {
      if screen == Countdown && countdownValue != 0 {
        beeps := beeps + 1;
        countdownValue := countdownValue - 1;
      }
    }

    /** The countdown effect when it finds the counter at 0. */
    method CountdownEffect()
      modifies this
      requires Valid()
      ensures Valid() && Snapshot() == CountdownSettle(old(Snapshot()))
    {
      if screen == Countdown && countdownValue == 0 {
        beeps := beeps + 1;
        screen := Running;
      }
    }

    /** The running interval's callback. */
    method RunningTimer()
      modifies this
      requires Valid()
      ensures Valid() && Snapshot() == RunningTick(old(Snapshot()))
    {
      if screen != Running {
        return;
      }
      if timeLeft <= 1 {
        beeps := beeps + 1;
        if currentIndex < |words| - 1 {
          currentIndex := currentIndex + 1;
          timeLeft := WordSeconds;
        } else {
          screen := Completed;
          timeLeft := 0;
        }
      } else {
        timeLeft := timeLeft - 1;
      }
    }

    /** The keydown listener; `confirmed` is the answer to the exit confirmation. */
    method HandleKeyDown(key: String, confirmed: bool)
      modifies this
      requires Valid()
      ensures Valid() && Snapshot() == KeyDown(old(Snapshot()), key, confirmed)
    {
      if key == "Escape" && (screen == Running || screen == Countdown) {
        if confirmed {
          screen := Input;
        }
      }
    }

    /** `reset`. */
    method ResetSession()
      modifies this
      requires Valid()
      ensures Valid() && Snapshot() == Reset(old(Snapshot()))
    {
      screen := Input;
      inputText := [];
      words := [];
      currentIndex := 0;
      timeLeft := WordSeconds;
      countdownValue := CountdownStart;
    }
  }
}
