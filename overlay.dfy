/** The overlay state machine as pure transitions: open, close, next,
    previous, the keyboard handler, and the render step they share. What
    `.modal-content` holds is recorded as the index of the product drawn
    into it last; the class ties that index to the rendered view. Focus and
    the page scroll lock are recorded as requested effects. */
module Overlay {
  import opened Wrappers
  import opened Gesture

  /** Where input focus was last sent. */
  datatype Focus = NotMoved | ModalFocused | TriggerFocused(index: nat)

  /** The overlay's state. `shown` is the product drawn into
      `.modal-content` last, `None` while it still holds the loading
      placeholder written when the overlay is created. */
  datatype OverlayState = OverlayState(
    isOpen: bool,
    index: int,
    shown: Option<int>,
    scrollLocked: bool,
    focus: Focus)

  const InitialOverlay: OverlayState := OverlayState(false, 0, None, false, NotMoved)

  /** What the overlay works over: how many products the page's catalog
      holds, and how many `.read-more-btn` triggers the page has. */
  datatype Page = Page(size: nat, triggerCount: nat)

  predicate InCatalog(p: Page, i: int)
  {
    0 <= i < p.size
  }

  /** `renderProduct`: draws the current product, or does nothing when
      there is no product at the current index. */
  function Rendered(o: OverlayState, p: Page): (r: OverlayState)
    ensures InCatalog(p, o.index) ==> r == o.(shown := Some(o.index))
    ensures !InCatalog(p, o.index) ==> r == o
  {
    if InCatalog(p, o.index) then o.(shown := Some(o.index)) else o
  }

  /** `open(i)`: no range check on `i`. */
  function Open(o: OverlayState, p: Page, i: int): (r: OverlayState)
    ensures r.isOpen && r.index == i && r.scrollLocked && r.focus == ModalFocused
    ensures r.shown == if InCatalog(p, i) then Some(i) else o.shown
  {
    Rendered(o.(index := i, isOpen := true), p).(scrollLocked := true, focus := ModalFocused)
  }

  /** `close()`: no guard on the open flag; focus returns to the trigger at
      the current index when the page has one there. */
  function Close(o: OverlayState, p: Page): (r: OverlayState)
    ensures !r.isOpen && !r.scrollLocked && r.index == o.index && r.shown == o.shown
    ensures 0 <= o.index < p.triggerCount ==> r.focus == TriggerFocused(o.index)
    ensures !(0 <= o.index < p.triggerCount) ==> r.focus == o.focus
  {
    o.(isOpen := false, scrollLocked := false,
       focus := if 0 <= o.index < p.triggerCount then TriggerFocused(o.index) else o.focus)
  }

  /** `nextProduct()`. */
  function Next(o: OverlayState, p: Page): (r: OverlayState)
    ensures r.isOpen == o.isOpen && r.scrollLocked == o.scrollLocked && r.focus == o.focus
    ensures o.index < p.size - 1 ==> r.index == o.index + 1
    ensures o.index >= p.size - 1 ==> r == o
    ensures r.shown != o.shown ==> r.shown == Some(r.index) && InCatalog(p, r.index)
  {
    if o.index < p.size - 1 then Rendered(o.(index := o.index + 1), p) else o
  }

  /** `previousProduct()`. */
  function Previous(o: OverlayState, p: Page): (r: OverlayState)
    ensures r.isOpen == o.isOpen && r.scrollLocked == o.scrollLocked && r.focus == o.focus
    ensures o.index > 0 ==> r.index == o.index - 1
    ensures o.index <= 0 ==> r == o
    ensures r.shown != o.shown ==> r.shown == Some(r.index) && InCatalog(p, r.index)
  {
    if o.index > 0 then Rendered(o.(index := o.index - 1), p) else o
  }

  /** `handleKeydown`: only while open; other keys are ignored. */
  function Keydown(o: OverlayState, p: Page, key: string): (r: OverlayState)
    ensures r.isOpen ==> o.isOpen
    ensures o.index - 1 <= r.index <= o.index + 1
    ensures r.shown != o.shown ==> r.shown == Some(r.index)
  {
    if !o.isOpen then o
    else if key == "Escape" then Close(o, p)
    else if key == "ArrowLeft" then Previous(o, p)
    else if key == "ArrowRight" then Next(o, p)
    else o
  }

  /** The overlay side of a touch-move: the gesture's action, applied
      without any check of the open flag. */
  function Apply(a: Action, o: OverlayState, p: Page): (r: OverlayState)
    ensures r.isOpen ==> o.isOpen
    ensures a != Dismiss ==> r.isOpen == o.isOpen && r.scrollLocked == o.scrollLocked && r.focus == o.focus
    ensures o.index - 1 <= r.index <= o.index + 1
    ensures r.shown != o.shown ==> r.shown == Some(r.index)
  {
    match a
    case NoAction => o
    case NavigateNext => Next(o, p)
    case NavigatePrevious => Previous(o, p)
    case Dismiss => Close(o, p)
  }

  /** What the overlay shows is the current product whenever it is open on
      an index that holds one. */
  predicate ShowsCurrent(o: OverlayState, p: Page)
  {
    o.isOpen && InCatalog(p, o.index) ==> o.shown == Some(o.index)
  }

  /** Only products of the catalog are ever drawn. */
  predicate ShownInCatalog(o: OverlayState, p: Page)
  {
    o.shown.Some? ==> InCatalog(p, o.shown.value)
  }

  /** The page is scroll-locked exactly while the overlay is open. */
  predicate LockMatchesOpen(o: OverlayState)
  {
    o.scrollLocked == o.isOpen
  }

  predicate Consistent(o: OverlayState, p: Page)
  {
    ShowsCurrent(o, p) && ShownInCatalog(o, p) && LockMatchesOpen(o)
  }

  lemma InitialIsConsistent(p: Page)
    ensures Consistent(InitialOverlay, p)
  {
  }

  /** Every transition keeps the overlay consistent. */
  lemma OpenKeepsConsistent(o: OverlayState, p: Page, i: int)
    requires Consistent(o, p)
    ensures Consistent(Open(o, p, i), p)
  {
  }

  lemma CloseKeepsConsistent(o: OverlayState, p: Page)
    requires Consistent(o, p)
    ensures Consistent(Close(o, p), p)
  {
  }

  lemma NextKeepsConsistent(o: OverlayState, p: Page)
    requires Consistent(o, p)
    ensures Consistent(Next(o, p), p)
  {
    if o.index < p.size - 1 {
      RenderedShowsCurrent(o.(index := o.index + 1), p);
    }
  }

  lemma PreviousKeepsConsistent(o: OverlayState, p: Page)
    requires Consistent(o, p)
    ensures Consistent(Previous(o, p), p)
  {
    if o.index > 0 {
      RenderedShowsCurrent(o.(index := o.index - 1), p);
    }
  }

  /** Rendering always leaves the current product on screen, and touches
      neither the open flag nor the lock. */
  lemma RenderedShowsCurrent(o: OverlayState, p: Page)
    ensures ShowsCurrent(Rendered(o, p), p)
    ensures Rendered(o, p).isOpen == o.isOpen && Rendered(o, p).scrollLocked == o.scrollLocked
  {
  }

  lemma KeydownKeepsConsistent(o: OverlayState, p: Page, key: string)
    requires Consistent(o, p)
    ensures Consistent(Keydown(o, p, key), p)
  {
    CloseKeepsConsistent(o, p);
    NextKeepsConsistent(o, p);
    PreviousKeepsConsistent(o, p);
  }

  lemma ApplyKeepsConsistent(a: Action, o: OverlayState, p: Page)
    requires Consistent(o, p)
    ensures Consistent(Apply(a, o, p), p)
  {
    CloseKeepsConsistent(o, p);
    NextKeepsConsistent(o, p);
    PreviousKeepsConsistent(o, p);
  }

  /** Navigation is bounded and does not wrap: on an index inside the
      catalog it stays inside, next never moves back, previous never moves
      forward, and each moves by at most one. */
  lemma NavigationBounded(o: OverlayState, p: Page)
    ensures InCatalog(p, o.index) ==> InCatalog(p, Next(o, p).index) && InCatalog(p, Previous(o, p).index)
    ensures o.index <= Next(o, p).index <= o.index + 1
    ensures o.index - 1 <= Previous(o, p).index <= o.index
    ensures Next(o, p).index == o.index + 1 <==> o.index < p.size - 1
    ensures Previous(o, p).index == o.index - 1 <==> o.index > 0
  {
  }

  /** At the boundaries navigation changes nothing at all. */
  lemma BoundariesAreNoOps(o: OverlayState, p: Page)
    ensures o.index >= p.size - 1 ==> Next(o, p) == o
    ensures o.index <= 0 ==> Previous(o, p) == o
  {
  }

  /** Next followed by previous returns to the same product, redrawn. */
  lemma NextThenPrevious(o: OverlayState, p: Page)
    requires 0 <= o.index < p.size - 1
    ensures Previous(Next(o, p), p) == o.(shown := Some(o.index))
  {
    var ahead := o.(shown := Some(o.index + 1));
    assert Next(o, p) == ahead.(index := o.index + 1);
    assert Previous(Next(o, p), p) == Rendered(ahead, p);
  }

  /** Previous followed by next returns to the same product, redrawn. */
  lemma PreviousThenNext(o: OverlayState, p: Page)
    requires 0 < o.index < p.size
    ensures Next(Previous(o, p), p) == o.(shown := Some(o.index))
  {
    var behind := o.(shown := Some(o.index - 1));
    assert Previous(o, p) == behind.(index := o.index - 1);
    assert Next(Previous(o, p), p) == Rendered(behind, p);
  }

  function NextTimes(o: OverlayState, p: Page, k: nat): OverlayState
  {
    if k == 0 then o else Next(NextTimes(o, p, k - 1), p)
  }

  /** Pressing next `k` times from a product walks forward `k` products and
      then stays on the last one. */
  lemma {:induction false} NextTimesSaturates(o: OverlayState, p: Page, k: nat)
    requires InCatalog(p, o.index)
    ensures NextTimes(o, p, k).index == if o.index + k < p.size then o.index + k else p.size - 1
    ensures NextTimes(o, p, k).isOpen == o.isOpen
  {
    if k > 0 {
      NextTimesSaturates(o, p, k - 1);
      var before := NextTimes(o, p, k - 1);
      assert NextTimes(o, p, k) == Next(before, p);
      NextStep(before, p);
    }
  }

  /** Walking forward keeps the shown content in step with the index. */
  lemma {:induction false} NextTimesShowsCurrent(o: OverlayState, p: Page, k: nat)
    requires ShowsCurrent(o, p)
    ensures ShowsCurrent(NextTimes(o, p, k), p)
  {
    if k > 0 {
      NextTimesShowsCurrent(o, p, k - 1);
      NextStep(NextTimes(o, p, k - 1), p);
    }
  }

  lemma NextStep(o: OverlayState, p: Page)
    ensures Next(o, p).index == if o.index < p.size - 1 then o.index + 1 else o.index
    ensures Next(o, p).isOpen == o.isOpen
    ensures ShowsCurrent(o, p) ==> ShowsCurrent(Next(o, p), p)
  {
  }

  /** `open(i)` on a product in the catalog shows it, locks the page and
      takes focus; `close()` afterwards keeps the index, releases the lock
      and hands focus back to the trigger at `i`. */
  lemma OpenThenClose(o: OverlayState, p: Page, i: int)
    requires InCatalog(p, i) && i < p.triggerCount
    ensures var openedState := Open(o, p, i);
      && openedState.isOpen && openedState.index == i && openedState.scrollLocked && openedState.focus == ModalFocused
      && openedState.shown == Some(i)
      && Close(openedState, p) == openedState.(isOpen := false, scrollLocked := false, focus := TriggerFocused(i))
  {
  }

  /** `open(i)` with no product at `i` still opens, but leaves whatever was
      drawn before on screen. */
  lemma OpenOutsideCatalogKeepsStaleContent(o: OverlayState, p: Page, i: int)
    requires !InCatalog(p, i)
    ensures Open(o, p, i).isOpen && Open(o, p, i).index == i
    ensures Open(o, p, i).shown == o.shown
  {
  }

  /** Closing twice is the same as closing once. */
  lemma CloseIdempotent(o: OverlayState, p: Page)
    ensures Close(Close(o, p), p) == Close(o, p)
  {
  }

  /** Keys act only while the overlay is open. */
  lemma KeyRules(o: OverlayState, p: Page, key: string)
    ensures !o.isOpen ==> Keydown(o, p, key) == o
    ensures o.isOpen && key == "Escape" ==> Keydown(o, p, key) == Close(o, p)
    ensures o.isOpen && key == "ArrowLeft" ==> Keydown(o, p, key) == Previous(o, p)
    ensures o.isOpen && key == "ArrowRight" ==> Keydown(o, p, key) == Next(o, p)
    ensures key !in {"Escape", "ArrowLeft", "ArrowRight"} ==> Keydown(o, p, key) == o
  {
  }

  /** A swipe moves the index even while the overlay is closed (only the
      keyboard checks the open flag). */
  lemma SwipeIgnoresOpenFlag(o: OverlayState, p: Page)
    requires !o.isOpen && 0 <= o.index < p.size - 1
    ensures Apply(NavigateNext, o, p).index == o.index + 1
    ensures Apply(NavigateNext, o, p).isOpen == false
  {
  }
}
