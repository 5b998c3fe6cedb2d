/** The swipe gesture on list rows: a drag session per row, a capped visual offset while
    dragging, and a classification of the finished drag. */
module Swipe {
  import opened Wrappers

  /** Displacement in CSS pixels a drag must exceed before it counts as a swipe rather than a
      tap. Pointer positions (`clientX`) are fractional, so positions and displacements are
      reals. */
  const DeadZone: real := 10.0
  /** Displacement a finished drag must exceed to trigger an action. */
  const ActionThreshold: real := 60.0
  /** Largest displacement the row content is drawn with, and the widest delete indicator. */
  const MaxOffset: real := 80.0

  /** `swipeData[id]`: where the drag started, the last pointer position seen, and whether the
      drag has left the dead zone. */
  datatype Session = Session(startX: real, lastX: real, swiping: bool)

  /** What the row looks like: the content's `translateX` and the delete indicator's width,
      both in pixels. */
  datatype Visual = Visual(offset: real, indicator: real)

  /** What a finished drag asks for. */
  datatype Outcome = OpenSheet(row: int) | ConfirmDelete(row: int) | NoAction

  /** The controller's state over all rows. A session set to `null` by `swipeEnd` is `None`. */
  datatype SwipeState = SwipeState(sessions: map<int, Option<Session>>, visuals: map<int, Visual>)

  const Initial: SwipeState := SwipeState(map[], map[])

  /** `swipeData[id]`, where a missing entry reads as no session. */
  function SessionOf(st: SwipeState, id: int): Option<Session> {
    if id in st.sessions then st.sessions[id] else None
  }

  /** The row's look; a row never dragged is drawn in place with no indicator. */
  function VisualOf(st: SwipeState, id: int): Visual {
    if id in st.visuals then st.visuals[id] else Visual(0.0, 0.0)
  }

  /** Every row is drawn within the cap and with an indicator no wider than the cap. */
  predicate VisualsInRange(st: SwipeState) {
    forall id :: id in st.visuals ==>
      -MaxOffset <= st.visuals[id].offset <= MaxOffset && 0.0 <= st.visuals[id].indicator <= MaxOffset
  }

  /** Rows other than `id` keep their session and their look. */
  ghost predicate OthersUnchanged(st: SwipeState, st': SwipeState, id: int) {
    forall other :: other != id ==>
      SessionOf(st', other) == SessionOf(st, other) && VisualOf(st', other) == VisualOf(st, other)
  }

  /** `swipeStart`: a fresh session at pointer position `x`, replacing any earlier one. */
  function Start(st: SwipeState, id: int, x: real): (st': SwipeState)
    ensures SessionOf(st', id) == Some(Session(x, x, false))
    ensures VisualOf(st', id) == VisualOf(st, id)
    ensures OthersUnchanged(st, st', id)
    ensures VisualsInRange(st) ==> VisualsInRange(st')
  {
    st.(sessions := st.sessions[id := Some(Session(x, x, false))])
  }

  function Abs(n: real): real {
    if n < 0.0 then -n else n
  }

  /** The content offset for displacement `dx`: the displacement capped at `MaxOffset`
      either way. */
  function ContentOffset(dx: real): (r: real)
    ensures -MaxOffset <= r <= MaxOffset
    ensures Abs(r) <= Abs(dx) && (r < 0.0 <==> dx < 0.0) && (r > 0.0 <==> dx > 0.0)
    ensures -MaxOffset <= dx <= MaxOffset ==> r == dx
    ensures dx >= MaxOffset ==> r == MaxOffset
    ensures dx <= -MaxOffset ==> r == -MaxOffset
  {
    if dx > 0.0 then (if dx < MaxOffset then dx else MaxOffset)
    else (if dx > -MaxOffset then dx else -MaxOffset)
  }

  /** `swipeMove`: without a session nothing happens. Otherwise the pointer position is
      recorded, the session becomes a swipe once it leaves the dead zone and stays one, the
      content follows the capped displacement, and only a leftward (or zero) displacement
      resizes the delete indicator. */
  function Move(st: SwipeState, id: int, x: real): (st': SwipeState)
    ensures SessionOf(st, id).None? ==> st' == st
    ensures SessionOf(st, id).Some? ==>
              var s := SessionOf(st, id).value;
              var dx := x - s.startX;
              && SessionOf(st', id) == Some(Session(s.startX, x, s.swiping || Abs(dx) > DeadZone))
              && VisualOf(st', id).offset == ContentOffset(dx)
              && (dx > 0.0 ==> VisualOf(st', id).indicator == VisualOf(st, id).indicator)
              && (dx <= 0.0 ==> VisualOf(st', id).indicator == (if Abs(dx) < MaxOffset then Abs(dx) else MaxOffset))
    ensures OthersUnchanged(st, st', id)
    ensures VisualsInRange(st) ==> VisualsInRange(st')
  {
    match SessionOf(st, id)
    case None => st
    case Some(s) =>
      var dx := x - s.startX;
      var session := Session(s.startX, x, s.swiping || Abs(dx) > DeadZone);
      var width := if dx > 0.0 then VisualOf(st, id).indicator
                   else if Abs(dx) < MaxOffset then Abs(dx) else MaxOffset;
      SwipeState(st.sessions[id := Some(session)], st.visuals[id := Visual(ContentOffset(dx), width)])
  }

  /** The action a finished drag of displacement `dx` on row `id` asks for. */
  function Classify(id: int, dx: real): (o: Outcome)
    ensures o == OpenSheet(id) <==> dx > ActionThreshold
    ensures o == ConfirmDelete(id) <==> dx < -ActionThreshold
    ensures o == NoAction <==> -ActionThreshold <= dx <= ActionThreshold
  {
    if dx > ActionThreshold then OpenSheet(id)
    else if dx < -ActionThreshold then ConfirmDelete(id)
    else NoAction
  }

  /** `swipeEnd`. The pointer position of the end event is not used: the displacement is the
      one of the last move. Without a session nothing happens; otherwise the drag is classified,
      the row is drawn back in place and its session is dropped. */
  function End(st: SwipeState, id: int, x: real): (r: (SwipeState, Outcome))
    ensures SessionOf(st, id).None? ==> r == (st, NoAction)
    ensures SessionOf(st, id).Some? ==>
              && r.1 == Classify(id, SessionOf(st, id).value.lastX - SessionOf(st, id).value.startX)
              && SessionOf(r.0, id) == None
              && VisualOf(r.0, id) == Visual(0.0, 0.0)
    ensures OthersUnchanged(st, r.0, id)
    ensures VisualsInRange(st) ==> VisualsInRange(r.0)
  {
    match SessionOf(st, id)
    case None => (st, NoAction)
    case Some(s) =>
      (SwipeState(st.sessions[id := None], st.visuals[id := Visual(0.0, 0.0)]), Classify(id, s.lastX - s.startX))
  }

  /** The thresholds are strict: 61 pixels, and even 60.5, open the sheet and 60 do nothing;
      -61 and -60.5 ask to delete and -60 does nothing. */
  lemma ThresholdBoundaries(id: int)
    ensures Classify(id, 61.0) == OpenSheet(id) && Classify(id, 60.5) == OpenSheet(id)
    ensures Classify(id, 60.0) == NoAction && Classify(id, -60.0) == NoAction
    ensures Classify(id, -61.0) == ConfirmDelete(id) && Classify(id, -60.5) == ConfirmDelete(id)
  {
  }

  // ---------------------------------------------------------------------------
  // Whole gestures

  /** A sequence of move events on one row. */
  function Drag(st: SwipeState, id: int, xs: seq<real>): SwipeState
    decreases |xs|
  {
    if xs == [] then st else Drag(Move(st, id, xs[0]), id, xs[1..])
  }

  /** During a drag the start stays put, the last position is the last move's, and the session
      is a swipe once any move has left the dead zone. Other rows are not touched. */
  lemma {:induction false} DragSession(st: SwipeState, id: int, xs: seq<real>, s: Session)
    requires SessionOf(st, id) == Some(s)
    ensures SessionOf(Drag(st, id, xs), id) == Some(Session(
              s.startX,
              if xs == [] then s.lastX else xs[|xs| - 1],
              s.swiping || exists i :: 0 <= i < |xs| && Abs(xs[i] - s.startX) > DeadZone))
    ensures OthersUnchanged(st, Drag(st, id, xs), id)
    decreases |xs|
  {
    if xs != [] {
      var st1 := Move(st, id, xs[0]);
      var s1 := SessionOf(st1, id).value;
      DragSession(st1, id, xs[1..], s1);
      var ys := xs[1..];
      if (exists i :: 0 <= i < |ys| && Abs(ys[i] - s.startX) > DeadZone) {
        var i :| 0 <= i < |ys| && Abs(ys[i] - s.startX) > DeadZone;
        assert xs[i + 1] == ys[i];
      }
      if (exists i :: 0 <= i < |xs| && Abs(xs[i] - s.startX) > DeadZone) {
        var i :| 0 <= i < |xs| && Abs(xs[i] - s.startX) > DeadZone;
        if i > 0 { assert ys[i - 1] == xs[i]; }
      }
    }
  }

  /** A whole gesture on a row: press at `x0`, moves `xs`, release. The outcome depends only
      on where the last move was, and nothing at all happens without a move. */
  lemma Gesture(st: SwipeState, id: int, x0: real, xs: seq<real>, xEnd: real)
    ensures var r := End(Drag(Start(st, id, x0), id, xs), id, xEnd);
            && r.1 == (if xs == [] then NoAction else Classify(id, xs[|xs| - 1] - x0))
            && SessionOf(r.0, id) == None
            && VisualOf(r.0, id) == Visual(0.0, 0.0)
  {
    DragSession(Start(st, id, x0), id, xs, Session(x0, x0, false));
  }

  /** Gestures on different rows do not disturb each other. */
  lemma GestureLeavesOthers(st: SwipeState, id: int, x0: real, xs: seq<real>, xEnd: real)
    ensures OthersUnchanged(st, End(Drag(Start(st, id, x0), id, xs), id, xEnd).0, id)
  {
    DragSession(Start(st, id, x0), id, xs, Session(x0, x0, false));
  }
}
