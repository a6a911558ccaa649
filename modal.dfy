/** `UniversalProductModal`: the object whose fields the handlers update in
    place. Each method's postcondition ties the new fields to the pure
    transition of the old ones from the Gesture and Overlay modules. */
module Modal {
  import opened Wrappers
  import opened Registry
  import opened Loader
  import opened Render
  import opened Gesture
  import opened Overlay

  /** `.modal-content` holds the placeholder until a product is drawn,
      and afterwards the view of the product drawn last. */
  ghost predicate Displays(t: ProductType, products: seq<Product>, shown: Option<int>, content: Option<View>)
    requires AllFit(t, products)
  {
    && (shown.None? ==> content.None?)
    && forall i {:trigger RenderProduct(t, products[i])} :: 0 <= i < |products| && shown == Some(i) ==>
         content == Some(RenderProduct(t, products[i]))
  }

  class UniversalProductModal {
    const productType: ProductType
    /** How many `.read-more-btn` triggers the page holds, in catalog order. */
    const triggerCount: nat
    var products: seq<Product>

    var currentProductIndex: int
    var isOpen: bool
    /** What `.modal-content` currently shows; `None` is the spinner. */
    var content: Option<View>
    /** The product drawn into `.modal-content` last. */
    ghost var shown: Option<int>
    /** Requested effects: `body.style.overflow` and the last `.focus()`. */
    ghost var scrollLocked: bool
    ghost var focus: Focus

    var touchStartX: Option<int>
    var touchStartY: Option<int>
    var isDragging: bool
    var isScrolling: bool
    var scrollStartTime: int
    var initialScrollTop: int
    /** The debounced scroll timer (`scrollTimeout`) is pending. */
    var scrollTimerPending: bool
    /** Touch-end reset timers scheduled and not yet fired. */
    var resetTimersPending: nat

    function PageOf(): Page
      reads this`products
    {
      Page(|products|, triggerCount)
    }

    ghost function State(): OverlayState
      reads this`isOpen, this`currentProductIndex, this`shown, this`scrollLocked, this`focus
    {
      OverlayState(isOpen, currentProductIndex, shown, scrollLocked, focus)
    }

    function Touch(): Session
      reads this`touchStartX, this`touchStartY, this`isDragging, this`isScrolling,
            this`scrollStartTime, this`initialScrollTop, this`scrollTimerPending, this`resetTimersPending
    {
      Session(touchStartX, touchStartY, isDragging, isScrolling, scrollStartTime, initialScrollTop,
              scrollTimerPending, resetTimersPending)
    }

    /** The object invariant: every record fits the page's layout, the
        content is the view of the product drawn last, that product is the
        current one while the overlay is open on one, and the page is
        scroll-locked exactly while open. */
    ghost predicate Valid()
      reads this`products, this`isOpen, this`currentProductIndex, this`shown, this`scrollLocked, this`focus,
            this`content
    {
      AllFit(productType, products) && Consistent(State(), PageOf())
      && Displays(productType, products, shown, content)
    }

    /** `new UniversalProductModal(tag)` on a page holding `cards` and
        `triggers` trigger buttons. */
    constructor (tag: string, cards: seq<Card>, triggers: nat)
      ensures Valid()
      ensures productType == ProductTypeOf(tag) && triggerCount == triggers
      ensures |products| == |cards|
      ensures forall i :: 0 <= i < |cards| ==> products[i] == LoadProduct(SiteTables, ProductTypeOf(tag), cards[i])
      ensures State() == InitialOverlay && Touch() == InitialSession
    {
      productType := ProductTypeOf(tag);
      triggerCount := triggers;
      products := [];
      currentProductIndex := 0;
      isOpen := false;
      content := None;
      shown := None;
      scrollLocked := false;
      focus := NotMoved;
      touchStartY := Some(0);
      touchStartX := Some(0);
      isDragging := false;
      isScrolling := false;
      scrollStartTime := 0;
      initialScrollTop := 0;
      scrollTimerPending := false;
      resetTimersPending := 0;
      new;
      LoadProductData(cards);
    }

    /** `loadProductData`: one record per card, in document order, with
        the site's tables. */
    method LoadProductData(cards: seq<Card>)
      modifies this`products
      ensures |products| == |cards|
      ensures forall i :: 0 <= i < |cards| ==> products[i] == LoadProduct(SiteTables, productType, cards[i])
      ensures AllFit(productType, products)
      ensures !isOpen && shown.None? && content.None? && LockMatchesOpen(State()) ==> Valid()
    {
      SiteTablesShaped();
      LoadedCatalogFits(SiteTables, productType, cards);
      products := LoadProducts(SiteTables, productType, cards);
      forall i | 0 <= i < |cards| ensures products[i] == LoadProduct(SiteTables, productType, cards[i]) {
        LoadProductsAt(SiteTables, productType, cards, i);
      }
    }

    /** `renderProduct`. */
    method RenderProduct()
      requires AllFit(productType, products) && Displays(productType, products, shown, content)
      modifies this`content, this`shown
      ensures State() == Rendered(old(State()), PageOf())
      ensures Displays(productType, products, shown, content)
      ensures 0 <= currentProductIndex < |products| ==>
                content == Some(Render.RenderProduct(productType, products[currentProductIndex]))
    {
      if 0 <= currentProductIndex < |products| {
        shown := Some(currentProductIndex);
        content := Some(Render.RenderProduct(productType, products[currentProductIndex]));
      }
    }

    /** `open(productIndex)`. */
    method Open(productIndex: int)
      requires Valid()
      modifies this`currentProductIndex, this`isOpen, this`content, this`shown, this`scrollLocked, this`focus
      ensures Valid()
      ensures State() == Overlay.Open(old(State()), PageOf(), productIndex)
      ensures 0 <= productIndex < |products| ==>
                content == Some(Render.RenderProduct(productType, products[productIndex]))
    {
      currentProductIndex := productIndex;
      isOpen := true;
      RenderProduct();
      scrollLocked := true;
      focus := ModalFocused;
      OpenKeepsConsistent(old(State()), PageOf(), productIndex);
    }

    /** `close()`. */
    method Close()
      requires Valid()
      modifies this`isOpen, this`scrollLocked, this`focus
      ensures Valid()
      ensures State() == Overlay.Close(old(State()), PageOf())
    {
      isOpen := false;
      scrollLocked := false;
      if 0 <= currentProductIndex < triggerCount {
        focus := TriggerFocused(currentProductIndex);
      }
      CloseKeepsConsistent(old(State()), PageOf());
    }

    /** `nextProduct()`. */
    method NextProduct()
      requires Valid()
      modifies this`currentProductIndex, this`content, this`shown
      ensures Valid()
      ensures State() == Next(old(State()), PageOf())
    {
      ghost var before, page := State(), PageOf();
      if currentProductIndex < |products| - 1 {
        currentProductIndex := currentProductIndex + 1;
        ghost var moved := before.(index := before.index + 1);
        assert State() == moved;
        RenderProduct();
        assert State() == Rendered(moved, page);
        assert Next(before, page) == Rendered(moved, page);
      } else {
        assert Next(before, page) == before;
      }
      NextKeepsConsistent(before, page);
    }

    /** `previousProduct()`. */
    method PreviousProduct()
      requires Valid()
      modifies this`currentProductIndex, this`content, this`shown
      ensures Valid()
      ensures State() == Previous(old(State()), PageOf())
    {
      ghost var before, page := State(), PageOf();
      if currentProductIndex > 0 {
        currentProductIndex := currentProductIndex - 1;
        ghost var moved := before.(index := before.index - 1);
        assert State() == moved;
        RenderProduct();
        assert State() == Rendered(moved, page);
        assert Previous(before, page) == Rendered(moved, page);
      } else {
        assert Previous(before, page) == before;
      }
      PreviousKeepsConsistent(before, page);
    }

    /** `handleKeydown(e)` for a key named `key`. */
    method HandleKeydown(key: string)
      requires Valid()
      modifies this`currentProductIndex, this`isOpen, this`content, this`shown, this`scrollLocked, this`focus
      ensures Valid()
      ensures State() == Keydown(old(State()), PageOf(), key)
    {
      if !isOpen {
        return;
      }
      if key == "Escape" {
        Close();
      } else if key == "ArrowLeft" {
        PreviousProduct();
      } else if key == "ArrowRight" {
        NextProduct();
      }
    }

    /** `handleTouchStart(e)` with the first touch at `(x, y)`, the content
        scrolled to `scrollTop`, at time `now`. */
    method HandleTouchStart(x: int, y: int, scrollTop: int, now: int)
      modifies this`touchStartX, this`touchStartY, this`isDragging, this`isScrolling,
               this`scrollStartTime, this`initialScrollTop
      ensures Touch() == Step(old(Touch()), TouchStart(x, y, scrollTop, now))
    {
      touchStartY := Some(y);
      touchStartX := Some(x);
      isDragging := false;
      isScrolling := false;
      scrollStartTime := now;
      initialScrollTop := scrollTop;
    }

    /** `handleTouchMove(e)` with the first touch at `(x, y)`, the content
        scrolled to `scrollTop`, at time `now`. */
    method HandleTouchMove(x: int, y: int, scrollTop: int, now: int)
      requires Valid()
      modifies this
      ensures Valid()
      ensures products == old(products)
      ensures Touch() == MoveSession(old(Touch()), Move(x, y, scrollTop, now))
      ensures State() == Apply(MoveAction(old(Touch()), Move(x, y, scrollTop, now)), old(State()), PageOf())
    {
      if touchStartY.None? || touchStartY.value == 0 || touchStartX.None? || touchStartX.value == 0 {
        return;
      }
      var touchY, touchX := y, x;
      var diffY := touchStartY.value - touchY;
      var diffX := touchStartX.value - touchX;
      var currentScrollTop := scrollTop;

      if Abs(currentScrollTop - initialScrollTop) > ScrollEpsilon {
        isScrolling := true;
      }

      if !isScrolling {
        ActOnMove(diffX, diffY, currentScrollTop, now - scrollStartTime);
      }
    }

    /** The gesture half of `handleTouchMove` once the scroll test has
        passed: a horizontal swipe navigates and ends the session, a fast
        long upward swipe at the top closes the overlay. */
    method ActOnMove(diffX: int, diffY: int, scrollTop: int, elapsed: int)
      requires Valid()
      modifies this`isDragging, this`touchStartX, this`touchStartY, this`currentProductIndex, this`content,
               this`shown, this`isOpen, this`scrollLocked, this`focus
      ensures Valid()
      ensures IsNavigation(Classify(diffX, diffY, scrollTop, elapsed)) ==>
        Touch() == old(Touch()).(isDragging := true, startX := None, startY := None)
      ensures !IsNavigation(Classify(diffX, diffY, scrollTop, elapsed)) ==> Touch() == old(Touch())
      ensures State() == Apply(Classify(diffX, diffY, scrollTop, elapsed), old(State()), PageOf())
    {
      if Abs(diffX) > Abs(diffY) {
        if Abs(diffX) > SwipeThreshold {
          Swipe(diffX > 0);
        }
      } else {
        var isAtTop := scrollTop <= TopTolerance;
        var isFastSwipe := elapsed < DismissWindowMs;
        var isLongSwipe := diffY > DismissDistance;
        if isAtTop && isFastSwipe && isLongSwipe {
          Close();
        }
      }
    }

    /** A horizontal swipe past the threshold: marks the drag, moves one
        product (forward for right-to-left travel) and ends the session. */
    method Swipe(forward: bool)
      requires Valid()
      modifies this`isDragging, this`touchStartX, this`touchStartY, this`currentProductIndex, this`content,
               this`shown
      ensures Valid()
      ensures Touch() == old(Touch()).(isDragging := true, startX := None, startY := None)
      ensures State() == if forward then Next(old(State()), PageOf()) else Previous(old(State()), PageOf())
    {
      isDragging := true;
      if forward {
        NextProduct();
      } else {
        PreviousProduct();
      }
      touchStartX := None;
      touchStartY := None;
    }

    /** `handleTouchEnd(e)`: schedules one more reset timer. */
    method HandleTouchEnd()
      modifies this`resetTimersPending
      ensures Touch() == Step(old(Touch()), TouchEnd)
    {
      resetTimersPending := resetTimersPending + 1;
    }

    /** The `scroll` listener: sets the flag and restarts the scroll timer. */
    method HandleScroll()
      modifies this`isScrolling, this`scrollTimerPending
      ensures Touch() == Step(old(Touch()), Scroll)
    {
      isScrolling := true;
      scrollTimerPending := true;
    }

    /** The 150 ms scroll timer fires. */
    method ScrollTimerFires()
      requires scrollTimerPending
      modifies this`isScrolling, this`scrollTimerPending
      ensures Touch() == Step(old(Touch()), ScrollTimerFired)
    {
      isScrolling := false;
      scrollTimerPending := false;
    }

    /** One 100 ms touch-end timer fires. */
    method ResetTimerFires()
      requires resetTimersPending > 0
      modifies this`touchStartX, this`touchStartY, this`isDragging, this`isScrolling, this`resetTimersPending
      ensures Touch() == Step(old(Touch()), ResetTimerFired)
    {
      touchStartY := None;
      touchStartX := None;
      isDragging := false;
      isScrolling := false;
      resetTimersPending := resetTimersPending - 1;
    }
  }

  /** A client: with the modal open on the first of at least three
      products, swipe right-to-left once, keep dragging, then press Escape. */
  method SwipeThenEscape(modal: UniversalProductModal)
    requires modal.Valid() && modal.isOpen && modal.currentProductIndex == 0
    requires |modal.products| >= 3 && modal.triggerCount == |modal.products|
    modifies modal
  {
    modal.HandleTouchStart(300, 400, 0, 1000);
    assert Live(modal.Touch()) && !modal.isScrolling;
    modal.HandleTouchMove(200, 395, 0, 1050);
    assert modal.currentProductIndex == 1 && modal.touchStartX == None;
    modal.HandleTouchMove(20, 395, 0, 1080);
    assert modal.currentProductIndex == 1;
    modal.HandleKeydown("Escape");
    assert !modal.isOpen && modal.focus == TriggerFocused(1) && !modal.scrollLocked;
  }

  /** A page built from `cards`, one trigger per card: open the first
      product and run the scenario above. */
  method OpenFirst(tag: string, cards: seq<Card>)
    requires |cards| >= 3
  {
    var modal := new UniversalProductModal(tag, cards, |cards|);
    modal.Open(0);
    SwipeThenEscape(modal);
  }
}
