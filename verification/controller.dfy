/** The end of a swipe wired to its consequences: a right swipe calls `openSheet` for the row,
    a left swipe asks for delete confirmation. */
module Controller {
  import opened Wrappers
  import Swipe
  import Sheet

  datatype Controller = Controller(swipe: Swipe.SwipeState, sheet: Sheet.SheetState)

  /** `swipeEnd` with its call of `openSheet` performed. A left swipe is returned as
      `ConfirmDelete`, to be confirmed by the user before any request. Without a session nothing
      happens; with one, the last move's displacement decides, the row is drawn back in place
      and only a right swipe reaches the sheet. */
  function SwipeEnd(c: Controller, id: int, x: real): (r: (Controller, Swipe.Outcome))
    ensures Swipe.SessionOf(c.swipe, id).None? ==> r == (c, Swipe.NoAction)
    ensures Swipe.SessionOf(c.swipe, id).Some? ==>
              var s := Swipe.SessionOf(c.swipe, id).value;
              var dx := s.lastX - s.startX;
              && Swipe.SessionOf(r.0.swipe, id) == None
              && Swipe.VisualOf(r.0.swipe, id) == Swipe.Visual(0.0, 0.0)
              && (dx > Swipe.ActionThreshold ==>
                    r.1 == Swipe.OpenSheet(id) && r.0.sheet == Sheet.OpenSheet(c.sheet, id))
              && (dx < -Swipe.ActionThreshold ==> r.1 == Swipe.ConfirmDelete(id) && r.0.sheet == c.sheet)
              && (-Swipe.ActionThreshold <= dx <= Swipe.ActionThreshold ==>
                    r.1 == Swipe.NoAction && r.0.sheet == c.sheet)
    ensures Swipe.OthersUnchanged(c.swipe, r.0.swipe, id)
  {
    var (swipe', outcome) := Swipe.End(c.swipe, id, x);
    var sheet' := if outcome.OpenSheet? then Sheet.OpenSheet(c.sheet, id) else c.sheet;
    (Controller(swipe', sheet'), outcome)
  }

  /** A right swipe beyond the threshold edits the swiped row, unless an animation is under way,
      in which case the row being edited stays what it was. */
  lemma RightSwipeEditsRow(c: Controller, id: int, x0: real, xs: seq<real>, xEnd: real)
    requires xs != [] && xs[|xs| - 1] - x0 > Swipe.ActionThreshold
    ensures var started := c.(swipe := Swipe.Drag(Swipe.Start(c.swipe, id, x0), id, xs));
            var r := SwipeEnd(started, id, xEnd);
            && r.1 == Swipe.OpenSheet(id)
            && (!c.sheet.animating ==> r.0.sheet.editRow == Some(id) && r.0.sheet.animating)
            && (c.sheet.animating ==> r.0.sheet == c.sheet)
  {
    Swipe.Gesture(c.swipe, id, x0, xs, xEnd);
  }
}
