/** The touch-gesture classifier as a pure state machine over the modal's
    touch fields. Event inputs (coordinates, the content's current
    `scrollTop`, and the time in milliseconds) are parameters. */
module Gesture {
  import opened Wrappers

  /** The touch fields of the modal. `startX`/`startY` are `None` once set
      to `null`; `scrollTimerPending` is the debounced 150 ms scroll timer
      and `resetTimersPending` counts the 100 ms touch-end timers, which are
      never cancelled. */
  datatype Session = Session(
    startX: Option<int>,
    startY: Option<int>,
    isDragging: bool,
    isScrolling: bool,
    startTime: int,
    initialScrollTop: int,
    scrollTimerPending: bool,
    resetTimersPending: nat)

  /** The constructor's values: both start coordinates are 0. */
  const InitialSession: Session := Session(Some(0), Some(0), false, false, 0, 0, false, 0)

  const ScrollEpsilon: int := 5
  const SwipeThreshold: int := 80
  const TopTolerance: int := 10
  const DismissWindowMs: int := 300
  const DismissDistance: int := 200

  /** A touch sample. */
  datatype Move = Move(x: int, y: int, scrollTop: int, now: int)

  /** What a touch-move asks the overlay to do. */
  datatype Action = NoAction | NavigateNext | NavigatePrevious | Dismiss

  function Abs(n: int): nat
  {
    if n < 0 then -n else n
  }

  /** JavaScript falsiness of a coordinate: `null` and `0` are both falsy. */
  predicate Falsy(v: Option<int>)
  {
    v.None? || v.value == 0
  }

  /** The guard of `handleTouchMove`: a move is processed only while both
      start coordinates are truthy. */
  predicate Live(s: Session)
  {
    !Falsy(s.startX) && !Falsy(s.startY)
  }

  /** The scrolling flag after the offset test of a live move. */
  function ScrollingAfter(s: Session, m: Move): bool
  {
    s.isScrolling || Abs(m.scrollTop - s.initialScrollTop) > ScrollEpsilon
  }

  /** `diffX`: start minus current, positive for right-to-left travel. */
  function DiffX(s: Session, m: Move): int
    requires Live(s)
  {
    s.startX.value - m.x
  }

  /** `diffY`: start minus current, positive for upward travel. */
  function DiffY(s: Session, m: Move): int
    requires Live(s)
  {
    s.startY.value - m.y
  }

  /** The classification of a live move that is not a scroll, from the
      travel `dx`, `dy`, the content's current offset and the time since
      the touch started. */
  function Classify(dx: int, dy: int, scrollTop: int, elapsed: int): (a: Action)
    ensures IsNavigation(a) <==> Abs(dx) > Abs(dy) && Abs(dx) > SwipeThreshold
    ensures a == NavigateNext ==> dx > 0
    ensures a == NavigatePrevious ==> dx < 0
    ensures a == Dismiss <==>
      Abs(dx) <= Abs(dy) && scrollTop <= TopTolerance && elapsed < DismissWindowMs && dy > DismissDistance
  {
    if Abs(dx) > Abs(dy) then
      if Abs(dx) > SwipeThreshold then (if dx > 0 then NavigateNext else NavigatePrevious)
      else NoAction
    else if scrollTop <= TopTolerance && elapsed < DismissWindowMs && dy > DismissDistance then
      Dismiss
    else NoAction
  }

  /** The decision of `handleTouchMove`. */
  function MoveAction(s: Session, m: Move): (a: Action)
    ensures a != NoAction ==> Live(s) && !ScrollingAfter(s, m)
  {
    if !Live(s) || ScrollingAfter(s, m) then NoAction
    else Classify(DiffX(s, m), DiffY(s, m), m.scrollTop, m.now - s.startTime)
  }

  predicate IsNavigation(a: Action)
  {
    a == NavigateNext || a == NavigatePrevious
  }

  /** The touch fields after `handleTouchMove`: the offset test may set the
      scrolling flag, and a navigation ends the session by nulling both
      start coordinates. */
  function MoveSession(s: Session, m: Move): (r: Session)
    ensures !Live(s) ==> r == s
    ensures Live(s) ==> r.isScrolling == ScrollingAfter(s, m)
    ensures r.startTime == s.startTime && r.initialScrollTop == s.initialScrollTop
    ensures r.scrollTimerPending == s.scrollTimerPending && r.resetTimersPending == s.resetTimersPending
    ensures Live(r) ==> r.startX == s.startX && r.startY == s.startY && r.isDragging == s.isDragging
  {
    if !Live(s) then s
    else
      var s1 := s.(isScrolling := ScrollingAfter(s, m));
      if IsNavigation(MoveAction(s, m)) then s1.(isDragging := true, startX := None, startY := None)
      else s1
  }

  /** Everything that can happen to the touch fields. */
  datatype TouchEvent =
    | TouchStart(x: int, y: int, scrollTop: int, now: int)
    | TouchMove(move: Move)
    | TouchEnd
    | Scroll
    | ScrollTimerFired
    | ResetTimerFired

  /** One event. A timer event with no timer pending changes nothing. */
  function Step(s: Session, e: TouchEvent): (r: Session)
    ensures !e.TouchStart? ==> r.startTime == s.startTime && r.initialScrollTop == s.initialScrollTop
    ensures !e.TouchEnd? ==> r.resetTimersPending <= s.resetTimersPending
    ensures !e.Scroll? && r.scrollTimerPending ==> s.scrollTimerPending
  {
    match e
    case TouchStart(x, y, scrollTop, now) =>
      s.(startX := Some(x), startY := Some(y), isDragging := false, isScrolling := false,
         startTime := now, initialScrollTop := scrollTop)
    case TouchMove(m) => MoveSession(s, m)
    case TouchEnd => s.(resetTimersPending := s.resetTimersPending + 1)
    case Scroll => s.(isScrolling := true, scrollTimerPending := true)
    case ScrollTimerFired =>
      if s.scrollTimerPending then s.(isScrolling := false, scrollTimerPending := false) else s
    case ResetTimerFired =>
      if s.resetTimersPending > 0 then
        s.(startX := None, startY := None, isDragging := false, isScrolling := false,
           resetTimersPending := s.resetTimersPending - 1)
      else s
  }

  /** The overlay action an event asks for. */
  function EventAction(s: Session, e: TouchEvent): Action
  {
    if e.TouchMove? then MoveAction(s, e.move) else NoAction
  }

  /** The actions of a stream of events, in order. */
  function Actions(s: Session, events: seq<TouchEvent>): (acts: seq<Action>)
    ensures |acts| == |events|
    decreases |events|
  {
    if events == [] then [] else [EventAction(s, events[0])] + Actions(Step(s, events[0]), events[1..])
  }

  /** Scroll always wins: once the flag is set, or the content has moved
      more than 5 from where the touch started, a move neither navigates
      nor dismisses, and the flag stays set. */
  lemma ScrollWins(s: Session, m: Move)
    requires s.isScrolling || Abs(m.scrollTop - s.initialScrollTop) > ScrollEpsilon
    ensures MoveAction(s, m) == NoAction
    ensures Live(s) ==> MoveSession(s, m).isScrolling
  {
  }

  /** A horizontal swipe: navigation happens exactly when the session is
      live, not scrolling, `|dx| > |dy|` and `|dx| > 80`; right-to-left
      travel is next, left-to-right is previous. */
  lemma NavigationRule(s: Session, m: Move)
    ensures IsNavigation(MoveAction(s, m)) <==>
      Live(s) && !ScrollingAfter(s, m) && Abs(DiffX(s, m)) > Abs(DiffY(s, m)) && Abs(DiffX(s, m)) > SwipeThreshold
    ensures MoveAction(s, m) == NavigateNext <==>
      IsNavigation(MoveAction(s, m)) && DiffX(s, m) > 0
  {
  }

  /** A dismiss: it fires exactly when the session is live, not scrolling,
      `|dx| <= |dy|` (a tie counts as vertical), the content's current
      offset is at most 10, less than 300 ms have passed since the touch
      started, and the finger has travelled more than 200 upwards. */
  lemma DismissRule(s: Session, m: Move)
    ensures MoveAction(s, m) == Dismiss <==>
      && Live(s) && !ScrollingAfter(s, m)
      && Abs(DiffX(s, m)) <= Abs(DiffY(s, m))
      && m.scrollTop <= TopTolerance
      && m.now - s.startTime < DismissWindowMs
      && DiffY(s, m) > DismissDistance
  {
  }

  /** A diagonal move with `|dx| == |dy|` is never a navigation. */
  lemma TieIsVertical(s: Session, m: Move)
    requires Live(s) && Abs(DiffX(s, m)) == Abs(DiffY(s, m))
    ensures !IsNavigation(MoveAction(s, m))
  {
  }

  /** A downward swipe never dismisses: the test is on upward travel. */
  lemma DownwardSwipeNeverDismisses(s: Session, m: Move)
    requires Live(s) && m.y >= s.startY.value
    ensures MoveAction(s, m) != Dismiss
  {
  }

  /** Moves are ignored in a dead session, and only a touch start brings
      it back. */
  lemma DeadSessionStaysDead(s: Session, e: TouchEvent)
    requires !Live(s) && !e.TouchStart?
    ensures !Live(Step(s, e)) && EventAction(s, e) == NoAction
  {
  }

  /** A navigation ends the session. */
  lemma NavigationKillsSession(s: Session, m: Move)
    requires IsNavigation(MoveAction(s, m))
    ensures !Live(MoveSession(s, m))
  {
  }

  function CountNavigations(acts: seq<Action>): nat
  {
    if acts == [] then 0 else (if IsNavigation(acts[0]) then 1 else 0) + CountNavigations(acts[1..])
  }

  /** After a dead session, no action until the next touch start. */
  lemma {:induction false} DeadSessionIsSilent(s: Session, events: seq<TouchEvent>)
    requires !Live(s)
    requires forall i :: 0 <= i < |events| ==> !events[i].TouchStart?
    ensures forall i :: 0 <= i < |events| ==> Actions(s, events)[i] == NoAction
    decreases |events|
  {
    if events != [] {
      DeadSessionStaysDead(s, events[0]);
      DeadSessionIsSilent(Step(s, events[0]), events[1..]);
    }
  }

  /** One swipe, one navigation: between two touch starts, at most one
      event navigates, and nothing at all happens after it. */
  lemma {:induction false} OneNavigationPerTouch(s: Session, events: seq<TouchEvent>)
    requires forall i :: 0 <= i < |events| ==> !events[i].TouchStart?
    ensures CountNavigations(Actions(s, events)) <= 1
    ensures forall i, j :: 0 <= i < j < |events| && IsNavigation(Actions(s, events)[i]) ==>
      Actions(s, events)[j] == NoAction
    decreases |events|
  {
    if events != [] {
      var e, rest := events[0], events[1..];
      var acts := Actions(s, events);
      assert acts == [EventAction(s, e)] + Actions(Step(s, e), rest);
      OneNavigationPerTouch(Step(s, e), rest);
      if IsNavigation(EventAction(s, e)) {
        NavigationKillsSession(s, e.move);
        DeadSessionIsSilent(Step(s, e), rest);
        ZeroNavigations(Actions(Step(s, e), rest));
      }
    }
  }

  lemma {:induction false} ZeroNavigations(acts: seq<Action>)
    requires forall i :: 0 <= i < |acts| ==> acts[i] == NoAction
    ensures CountNavigations(acts) == 0
  {
    if acts != [] {
      ZeroNavigations(acts[1..]);
    }
  }

  /** A touch that starts on the screen's left or top edge (coordinate 0)
      never navigates or dismisses. */
  lemma EdgeTouchIsInert(s: Session, x: int, y: int, scrollTop: int, now: int, events: seq<TouchEvent>)
    requires x == 0 || y == 0
    requires forall i :: 0 <= i < |events| ==> !events[i].TouchStart?
    ensures forall i :: 0 <= i < |events| ==> Actions(Step(s, TouchStart(x, y, scrollTop, now)), events)[i] == NoAction
  {
    DeadSessionIsSilent(Step(s, TouchStart(x, y, scrollTop, now)), events);
  }

  /** A touch start opens a fresh session: both flags cleared, the time and
      scroll offset recorded, and live exactly when neither coordinate is 0. */
  lemma TouchStartResets(s: Session, x: int, y: int, scrollTop: int, now: int)
    ensures var t := Step(s, TouchStart(x, y, scrollTop, now));
      && !t.isScrolling && !t.isDragging
      && t.startTime == now && t.initialScrollTop == scrollTop
      && (Live(t) <==> x != 0 && y != 0)
  {
  }

  /** A touch start keeps the pending touch-end timers: they are never
      cancelled. Scroll events keep at most one scroll timer: it is
      restarted, not stacked. */
  lemma TimerDiscipline(s: Session, x: int, y: int, scrollTop: int, now: int)
    ensures Step(s, TouchStart(x, y, scrollTop, now)).resetTimersPending == s.resetTimersPending
    ensures Step(s, TouchEnd).resetTimersPending == s.resetTimersPending + 1
    ensures Step(Step(s, Scroll), Scroll) == Step(s, Scroll)
    ensures !Step(Step(s, Scroll), ScrollTimerFired).isScrolling
    ensures !Step(Step(s, Scroll), ScrollTimerFired).scrollTimerPending
  {
  }

  /** A touch-end timer left over from the previous touch ends a fresh
      session: the touch ends before 90, so its 100 ms timer fires before a
      swipe at 195, which is then ignored; the same swipe at 95, before the
      timer can have fired, navigates. */
  lemma StaleResetTimerSwallowsSwipe()
    ensures var events := [TouchStart(100, 100, 0, 0), TouchEnd, TouchStart(300, 300, 0, 90),
                           ResetTimerFired, TouchMove(Move(100, 300, 0, 195))];
      Actions(InitialSession, events)[4] == NoAction
    ensures var events := [TouchStart(100, 100, 0, 0), TouchEnd, TouchStart(300, 300, 0, 90),
                           TouchMove(Move(100, 300, 0, 95))];
      Actions(InitialSession, events)[3] == NavigateNext
  {
  }

  /** The scroll timer can clear the flag during a touch: gestures are
      evaluated again afterwards, unless the offset test sets it anew. */
  lemma ScrollTimerReenablesGestures(s: Session, m: Move)
    requires Live(s) && s.scrollTimerPending
    requires Abs(m.scrollTop - s.initialScrollTop) <= ScrollEpsilon
    ensures !ScrollingAfter(Step(s, ScrollTimerFired), m)
  {
  }

  /** Concrete samples: a 6-unit scroll overrides an 85-unit swipe; an
      85-by-10 right-to-left swipe is next; a fast, long swipe at the top
      dismisses but the same one after 400 ms does not. */
  lemma GestureExamples()
    ensures var s := Step(InitialSession, TouchStart(200, 400, 0, 1000));
      && MoveAction(s, Move(115, 390, 6, 1050)) == NoAction
      && MoveAction(s, Move(115, 390, 0, 1050)) == NavigateNext
      && MoveAction(s, Move(285, 390, 0, 1050)) == NavigatePrevious
      && MoveAction(s, Move(200, 150, 0, 1200)) == Dismiss
      && MoveAction(s, Move(200, 150, 0, 1400)) == NoAction
      && MoveAction(s, Move(200, 650, 0, 1200)) == NoAction
  {
  }
}
