/** The platform-edit sheet: a modal opened and closed with a two-phase animation, guarded by
    the `sheetIsAnimating` flag so that no open or close starts while one is under way.
    The `requestAnimationFrame` and 300 ms `setTimeout` callbacks are explicit events. */
module Sheet {
  import opened Wrappers

  /** The callback the running animation is waiting for. Under the guard at most one is
      scheduled at a time. */
  datatype Pending = Idle | AwaitFrame | AwaitOpenTimer | AwaitCloseTimer

  /** `sheetIsAnimating`, `editRow`, the backdrop's `display: block`, the `visible` class on
      the backdrop and on the sheet, and the scheduled callback. */
  datatype SheetState = SheetState(
    animating: bool,
    editRow: Option<int>,
    backdropShown: bool,
    backdropVisible: bool,
    sheetVisible: bool,
    pending: Pending)

  /** The page as loaded: nothing shown, nothing being edited. */
  const Initial: SheetState := SheetState(false, None, false, false, false, Idle)

  /** Exactly the states the page can reach (`RunValid` and `ValidIsReachable`): the guard flag
      is set exactly while a callback is scheduled; the sheet and backdrop classes go together;
      a visible backdrop is displayed; at rest the backdrop is displayed only while visible;
      only an opened sheet displays the backdrop; and each scheduled callback finds the page as
      its phase left it. */
  predicate Valid(s: SheetState) {
    && (s.animating <==> s.pending != Idle)
    && s.sheetVisible == s.backdropVisible
    && (s.backdropVisible ==> s.backdropShown)
    && (s.pending == Idle ==> s.backdropShown == s.backdropVisible)
    && (s.backdropShown ==> s.editRow.Some?)
    && (s.pending == AwaitFrame ==> s.backdropShown)
    && (s.pending == AwaitOpenTimer ==> s.backdropVisible)
    && (s.pending == AwaitCloseTimer ==> !s.backdropVisible)
  }

  /** `openSheet(rowNumber)`: ignored while animating; otherwise remembers the row, displays the
      backdrop and waits for the next frame to reveal the sheet. */
  function OpenSheet(s: SheetState, rowNumber: int): (r: SheetState)
    ensures s.animating ==> r == s
    ensures !s.animating ==>
              && r.animating && r.editRow == Some(rowNumber) && r.backdropShown
              && r.pending == AwaitFrame
              && r.backdropVisible == s.backdropVisible && r.sheetVisible == s.sheetVisible
  {
    if s.animating then s
    else s.(animating := true, editRow := Some(rowNumber), backdropShown := true, pending := AwaitFrame)
  }

  /** `closeSheet()`: ignored while animating; otherwise hides sheet and backdrop at once and
      waits for the settle timer. */
  function CloseSheet(s: SheetState): (r: SheetState)
    ensures s.animating ==> r == s
    ensures !s.animating ==>
              && r.animating && !r.backdropVisible && !r.sheetVisible
              && r.pending == AwaitCloseTimer
              && r.editRow == s.editRow && r.backdropShown == s.backdropShown
  {
    if s.animating then s
    else s.(animating := true, backdropVisible := false, sheetVisible := false, pending := AwaitCloseTimer)
  }

  /** The `requestAnimationFrame` callback of `openSheet`: reveals sheet and backdrop and starts
      the settle timer. Without a scheduled frame callback nothing happens. */
  function FrameFired(s: SheetState): (r: SheetState)
    ensures s.pending != AwaitFrame ==> r == s
    ensures s.pending == AwaitFrame ==>
              r.backdropVisible && r.sheetVisible && r.pending == AwaitOpenTimer
              && r.animating == s.animating && r.editRow == s.editRow
              && r.backdropShown == s.backdropShown
  {
    if s.pending == AwaitFrame
    then s.(backdropVisible := true, sheetVisible := true, pending := AwaitOpenTimer)
    else s
  }

  /** The 300 ms settle timer: clears the guard; after a close it also stops displaying the
      backdrop unless the backdrop is marked visible again. Without a scheduled timer nothing
      happens. */
  function TimerFired(s: SheetState): (r: SheetState)
    ensures s.pending != AwaitOpenTimer && s.pending != AwaitCloseTimer ==> r == s
    ensures s.pending == AwaitOpenTimer || s.pending == AwaitCloseTimer ==>
              !r.animating && r.pending == Idle && r.editRow == s.editRow
              && r.backdropVisible == s.backdropVisible && r.sheetVisible == s.sheetVisible
    ensures s.pending == AwaitOpenTimer ==> r.backdropShown == s.backdropShown
    ensures s.pending == AwaitCloseTimer ==> (r.backdropShown <==> s.backdropShown && s.backdropVisible)
  {
    match s.pending
    case AwaitOpenTimer => s.(animating := false, pending := Idle)
    case AwaitCloseTimer =>
      s.(animating := false, pending := Idle,
         backdropShown := if !s.backdropVisible then false else s.backdropShown)
    case _ => s
  }

  /** What can happen to the sheet: the two calls and the two kinds of callback. */
  datatype Event = Open(rowNumber: int) | Close | Frame | Timer

  function Step(s: SheetState, e: Event): SheetState {
    match e
    case Open(row) => OpenSheet(s, row)
    case Close => CloseSheet(s)
    case Frame => FrameFired(s)
    case Timer => TimerFired(s)
  }

  function Run(s: SheetState, es: seq<Event>): SheetState
    decreases |es|
  {
    if es == [] then s else Run(Step(s, es[0]), es[1..])
  }

  lemma InitialValid()
    ensures Valid(Initial)
  {
  }

  /** Every event keeps the page in a reachable state. */
  lemma StepValid(s: SheetState, e: Event)
    requires Valid(s)
    ensures Valid(Step(s, e))
  {
  }

  lemma {:induction false} RunValid(s: SheetState, es: seq<Event>)
    requires Valid(s)
    ensures Valid(Run(s, es))
    decreases |es|
  {
    if es != [] {
      StepValid(s, es[0]);
      RunValid(Step(s, es[0]), es[1..]);
    }
  }

  /** The events that lead from the initial page to `s`. */
  function Witness(s: SheetState): seq<Event> {
    var row := if s.editRow.Some? then s.editRow.value else 0;
    var shown := [Open(row), Frame, Timer];
    match s.pending
    case Idle =>
      if s.backdropShown then shown
      else if s.editRow.Some? then shown + [Close, Timer]
      else []
    case AwaitFrame => if s.backdropVisible then shown + [Open(row)] else [Open(row)]
    case AwaitOpenTimer => [Open(row), Frame]
    case AwaitCloseTimer =>
      if s.backdropShown then shown + [Close]
      else if s.editRow.Some? then shown + [Close, Timer, Close]
      else [Close]
  }

  lemma {:induction false} RunAppend(s: SheetState, es: seq<Event>, fs: seq<Event>)
    ensures Run(s, es + fs) == Run(Run(s, es), fs)
    decreases |es|
  {
    if es == [] {
      assert es + fs == fs;
    } else {
      assert (es + fs)[1..] == es[1..] + fs;
      RunAppend(Step(s, es[0]), es[1..], fs);
    }
  }

  lemma RunOne(s: SheetState, e: Event)
    ensures Run(s, [e]) == Step(s, e)
  {
    assert [e][1..] == [];
  }

  /** Every valid state is reached from the initial page by some sequence of events, so `Valid`
      holds no state the page cannot be in. */
  lemma ValidIsReachable(s: SheetState)
    requires Valid(s)
    ensures Run(Initial, Witness(s)) == s
  {
    var row := if s.editRow.Some? then s.editRow.value else 0;
    var o1 := OpenSheet(Initial, row);
    var o2 := FrameFired(o1);
    var o3 := TimerFired(o2);
    RunOne(Initial, Open(row));
    RunAppend(Initial, [Open(row)], [Frame]);
    assert [Open(row)] + [Frame] == [Open(row), Frame];
    RunOne(o1, Frame);
    RunAppend(Initial, [Open(row), Frame], [Timer]);
    assert [Open(row), Frame] + [Timer] == [Open(row), Frame, Timer];
    RunOne(o2, Timer);
    assert Run(Initial, [Open(row), Frame, Timer]) == o3;
    var c1 := CloseSheet(o3);
    var c2 := TimerFired(c1);
    match s.pending
    case Idle =>
      if !s.backdropShown && s.editRow.Some? {
        RunAppend(Initial, [Open(row), Frame, Timer], [Close, Timer]);
        RunAppend(o3, [Close], [Timer]);
        assert [Close] + [Timer] == [Close, Timer];
        RunOne(o3, Close);
        RunOne(c1, Timer);
      }
    case AwaitFrame =>
      if s.backdropVisible {
        RunAppend(Initial, [Open(row), Frame, Timer], [Open(row)]);
        RunOne(o3, Open(row));
      }
    case AwaitOpenTimer =>
    case AwaitCloseTimer =>
      if s.backdropShown {
        RunAppend(Initial, [Open(row), Frame, Timer], [Close]);
        RunOne(o3, Close);
      } else if s.editRow.Some? {
        RunAppend(Initial, [Open(row), Frame, Timer], [Close, Timer, Close]);
        RunAppend(o3, [Close], [Timer, Close]);
        assert [Close] + [Timer, Close] == [Close, Timer, Close];
        RunOne(o3, Close);
        RunAppend(c1, [Timer], [Close]);
        assert [Timer] + [Close] == [Timer, Close];
        RunOne(c1, Timer);
        RunOne(c2, Close);
      } else {
        RunOne(Initial, Close);
      }
  }

  /** So the close timer always stops displaying the backdrop: under the guard no open can
      mark it visible while a close is settling. */
  lemma CloseTimerHidesBackdrop(s: SheetState)
    requires Valid(s) && s.pending == AwaitCloseTimer
    ensures !TimerFired(s).backdropShown
  {
  }

  predicate IsCall(e: Event) {
    e.Open? || e.Close?
  }

  /** While an animation runs, any number of open and close calls change nothing, the edit row
      included: taps during the 300 ms window start no second animation. */
  lemma {:induction false} CallsIgnoredWhileAnimating(s: SheetState, es: seq<Event>)
    requires s.animating
    requires forall i :: 0 <= i < |es| ==> IsCall(es[i])
    ensures Run(s, es) == s
    decreases |es|
  {
    if es != [] {
      assert Step(s, es[0]) == s;
      CallsIgnoredWhileAnimating(s, es[1..]);
    }
  }

  /** Opening twice in a row starts one animation, for the first row. */
  lemma DoubleOpen(s: SheetState, row1: int, row2: int)
    requires !s.animating
    ensures Run(s, [Open(row1), Open(row2)]) == OpenSheet(s, row1)
    ensures Run(s, [Open(row1), Open(row2)]).editRow == Some(row1)
  {
    var s1 := OpenSheet(s, row1);
    assert Run(s, [Open(row1), Open(row2)]) == Run(s1, [Open(row2)]);
    assert Run(s1, [Open(row2)]) == Run(OpenSheet(s1, row2), []);
  }

  /** The full open sequence shows the sheet for the row and releases the guard; the full close
      sequence after it hides everything again, still remembering the row. */
  lemma OpenThenClose(s: SheetState, row: int)
    requires Valid(s) && !s.animating
    ensures var shown := Run(s, [Open(row), Frame, Timer]);
            && !shown.animating && shown.editRow == Some(row)
            && shown.backdropShown && shown.backdropVisible && shown.sheetVisible
            && var closed := Run(shown, [Close, Timer]);
               && !closed.animating && closed.editRow == Some(row)
               && !closed.backdropShown && !closed.backdropVisible && !closed.sheetVisible
  {
    var s1 := OpenSheet(s, row);
    var s2 := FrameFired(s1);
    var s3 := TimerFired(s2);
    assert Run(s, [Open(row), Frame, Timer]) == Run(s1, [Frame, Timer]);
    assert Run(s1, [Frame, Timer]) == Run(s2, [Timer]);
    assert Run(s2, [Timer]) == Run(s3, []);
    var c1 := CloseSheet(s3);
    assert Run(s3, [Close, Timer]) == Run(c1, [Timer]);
    assert Run(c1, [Timer]) == Run(TimerFired(c1), []);
  }

  /** From any reachable state, a frame and a timer are enough for the guard to clear. */
  lemma SettlesWithinTwoCallbacks(s: SheetState)
    requires Valid(s)
    ensures !Run(s, [Frame, Timer]).animating
  {
    var s1 := FrameFired(s);
    assert Run(s, [Frame, Timer]) == Run(s1, [Timer]);
    assert Run(s1, [Timer]) == Run(TimerFired(s1), []);
  }
}
