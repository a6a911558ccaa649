# Universal product modal — a verified model

This project models the product detail overlay of a table-tennis shop's
front end: the class `UniversalProductModal` of
`scripts/universal-modal.js`. One object per catalog page reads the
product cards, opens an overlay on the product whose "read more" button
was pressed, and lets the shopper step through the catalog with the
arrow keys, the on-screen arrows or a horizontal swipe. The overlay
closes on Escape, on its close button, on a click on the backdrop
outside the dialog, or on a fast upward swipe made while the content is
scrolled to within 10 of its top. What the overlay shows depends on
the page's product type (rubber, bat, blade or accessory): the spec
fields and their order, whether the colour and thickness line appears,
and the tables the texts come from.

Modules, one file each:

- `Wrappers` (`wrappers.dfy`): `Option`.
- `Text` (`text.dfy`): the JavaScript string operations the source
  relies on.
  - `trim`, over the ECMAScript white-space and line-terminator set.
  - `toUpperCase`, for ASCII letters.
  - `split('\n\n')` and the matching `join`.
  - The "keep the segments whose trim is non-empty" filter.
- `Registry` (`registry.dfy`): the product type and the spec record of
  each type.
  - The description, spec, colour and thickness tables, each a function
    from a product name to an optional entry, gathered in a `Tables`
    record; `SiteTables` holds the site's own entries.
  - The four lookups with their defaults, the JavaScript `||` fallback
    included. They take the tables as a parameter, so their general
    properties hold for any tables and the sample lemmas use
    `SiteTables`.
- `Loader` (`loader.dfy`): a product card is a record of optional parts.
  `loadProductData` turns each card into a product record.
- `Render` (`render.dfy`): what `renderProduct` and `getSpecFieldsHTML`
  decide, as a structured `View` rather than markup. It holds the image,
  the title, the spec fields in order, the price block, the optional
  colours line, the description title and the paragraphs.
- `Gesture` (`gesture.dfy`): the touch fields as a pure state machine.
  - Events: touch start, touch move, touch end, scroll, and the two
    timers firing.
  - `MoveAction` chooses between doing nothing, next, previous and
    dismiss.
- `Overlay` (`overlay.dfy`): the overlay as a pure state machine.
  - State: open flag, current index, what is shown, and the requested
    scroll lock and focus.
  - Transitions: `open`, `close`, `nextProduct`, `previousProduct` and
    `handleKeydown`.
  - `Consistent`, the invariant they keep.
- `Modal` (`modal.dfy`): the class `UniversalProductModal` with the
  source's fields and one method per handler.
  - Each method updates the fields in place.
  - Each method states that the new fields are the pure transition
    (`Overlay`, `Gesture`) of the old ones, and keeps `Valid()`.

Event inputs are parameters.
- Touch coordinates are integers.
- `scrollTop` is the content's scroll offset when the event arrives.
- `now` stands for `Date.now()`.
- The pressed key is the key's name.

Requested DOM effects are ghost fields. `scrollLocked` stands for
`document.body.style.overflow`, and `focus` for the last `.focus()`
call.

The two timers are explicit events:
- the 150 ms scroll timer is a pending flag, because it is restarted on
  every scroll event;
- the 100 ms touch-end timers are a pending count, because they are
  never cancelled.

Quirks of the code that the model keeps:

- `open(i)` does not check `i`. It sets the index and the open flag
  whatever `i` is. `renderProduct` then returns without change when no
  product exists at `i`, and the overlay keeps what it showed before.
- `close()` has no open guard. It returns focus to the trigger at the
  current index when such a trigger exists.
- Dismiss fires on upward finger travel, not downward. The test is
  `startY - y > 200`, with screen `y` growing downwards.
- Touch navigation and dismiss act on the fields whether or not the
  overlay is open. They do not check `isOpen`.
- A start coordinate of 0 reads as "no session", because the guard
  tests JavaScript truthiness. A touch that starts on the left or top
  edge never swipes.
- Reset timers left over from an earlier touch can end a later touch's
  session.
- A page type outside the four falls back to the rubber tables. It then
  has no default spec record (`undefined`), no spec fields, no colours
  line, and thickness `N/A`.
- When a pricing element has no current price, the single price
  element is ignored. Price and current price are then both empty.

## Model

| member | source | states |
|---|---|---|
| Text.Trim | scripts/universal-modal.js:790-791 | the result is no longer than the input and neither starts nor ends with white space |
| Text.TrimStartIsSuffix | scripts/universal-modal.js:791 | dropping leading white space keeps a suffix of the input, and what it drops is all white space |
| Text.TrimEndIsPrefix | scripts/universal-modal.js:791 | dropping trailing white space keeps a prefix of the input, and what it drops is all white space |
| Text.TrimIsSlice | scripts/universal-modal.js:791 | the trimmed string is the slice of the input between a white-space prefix and a white-space suffix |
| Text.TrimFixesTrimmed | scripts/universal-modal.js:790-791 | trimming leaves a string unchanged exactly when it has no white space at either end |
| Text.TrimEmptyIffBlank | scripts/universal-modal.js:790-791 | a segment trims to empty exactly when it is all white space |
| Text.TrimIdempotent | scripts/universal-modal.js:790-791 | trimming twice is trimming once |
| Text.ToUpper | scripts/universal-modal.js:366-369 | the fallback title is as long as the name, with each character mapped to its upper case |
| Text.ToUpperHasNoLowerCase | scripts/universal-modal.js:366-369 | the fallback title has no lower-case ASCII letter |
| Text.ToUpperIdempotent | scripts/universal-modal.js:366-369 | upper-casing an upper-cased title changes nothing |
| Text.Split | scripts/universal-modal.js:790 | splitting on a blank line gives at least one piece; the first piece is a prefix of the content; joining the pieces back with the separator gives the content; no piece holds the separator |
| Text.SplitJoin | scripts/universal-modal.js:790 | splitting is the inverse of joining: separator-free pieces, none but the last ending in a newline, are recovered exactly |
| Text.SplitCutsLeftmost | scripts/universal-modal.js:790 | every cut is at the leftmost separator: no piece but the last ends in a line feed, and an empty first piece of several means the content starts with a blank line |
| Text.SplitCharacterised | scripts/universal-modal.js:790 | the split of a content is exactly the one sequence of pieces that holds no separator, has no piece but the last ending in a line feed, and joins back to the content |
| Text.SplitAfterPiece | scripts/universal-modal.js:790 | a separator-free piece followed by the separator is cut off as the first piece |
| Text.SplitOfPiece | scripts/universal-modal.js:790 | a string without the separator splits into itself alone |
| Text.TrimKeepsNoSeparator | scripts/universal-modal.js:790-791 | trimming a separator-free segment cannot create a separator |
| Text.KeepNonBlank | scripts/universal-modal.js:790-792 | the kept paragraphs are no more than the segments, and each is non-empty and trimmed |
| Text.KeepNonBlankAppend | scripts/universal-modal.js:790-792 | the paragraph filter works segment by segment, so it distributes over concatenation and keeps order |
| Text.KeepNonBlankCount | scripts/universal-modal.js:790-792 | the number of paragraphs is the number of segments whose trim is non-empty |
| Text.KeepNonBlankNoSeparator | scripts/universal-modal.js:790-792 | paragraphs kept from separator-free segments are separator-free |
| Text.KeepNonBlankKeepsParagraphs | scripts/universal-modal.js:790-792 | segments already non-empty and trimmed pass the filter unchanged |
| Registry.ProductTypeOf | scripts/universal-modal.js:359-363 | each of the tags `rubber`, `bat`, `blade` and `accessory` selects its own type and only that tag does; any other tag is the fallback case |
| Registry.RubberDescriptions | scripts/universal-modal.js:154-240 | no contract: the rubber `descriptions` table key for key with exact titles, each body cut to its opening sentence |
| Registry.BatDescriptions | scripts/universal-modal.js:243-295 | no contract: the bat `descriptions` table key for key with exact titles, each body cut to its opening sentence |
| Registry.BladeDescriptions | scripts/universal-modal.js:298-349 | no contract: the blade `descriptions` table key for key with exact titles, each body cut to its opening sentence |
| Registry.AccessoryDescriptions | scripts/universal-modal.js:352-355 | the accessory `descriptions` table is empty |
| Registry.ColourTable | scripts/universal-modal.js:491-507 | the shared `colors` table key for key and value for value; every entry is non-empty, so the `||` fallback never hides one |
| Registry.ThicknessTable | scripts/universal-modal.js:518-534 | the shared `thickness` table key for key and value for value; every entry is non-empty |
| Registry.DefaultColours | scripts/universal-modal.js:508 | no contract: the colours fallback `Red, Black` |
| Registry.SiteTables | scripts/universal-modal.js:152-536 | no contract: the site's description, spec, colour and thickness tables gathered in one record, with the generic description body |
| Registry.RubberSpecTable | scripts/universal-modal.js:381-407 | every entry of the rubber spec table is a rubber record |
| Registry.BatSpecTable | scripts/universal-modal.js:410-436 | every entry of the bat spec table is a bat record |
| Registry.BladeSpecTable | scripts/universal-modal.js:439-456 | every entry of the blade spec table is a blade record |
| Registry.AccessorySpecTable | scripts/universal-modal.js:459-462 | the accessory spec table has no entries of another shape (it is empty) |
| Registry.SiteTablesShaped | scripts/universal-modal.js:379-464 | each of the site's spec tables holds only records of its own type |
| Registry.DescriptionTable | scripts/universal-modal.js:359-363 | the description table is the bat, blade or accessory one for those types, and the rubber one for rubber and any other tag |
| Registry.SpecTable | scripts/universal-modal.js:466-471 | the spec table is the bat, blade or accessory one for those types, and the rubber one for rubber and any other tag |
| Registry.FullDescription | scripts/universal-modal.js:152-370 | a name in the type's table gets that entry; any other name gets its upper-cased self as title and the generic text |
| Registry.DefaultSpecs | scripts/universal-modal.js:474-481 | each of the four types has a default record of its own shape with every field `N/A`; an unknown tag has none |
| Registry.SpecTableFits | scripts/universal-modal.js:379-464 | in shaped tables every spec-table entry has the field set of its type |
| Registry.ProductSpecs | scripts/universal-modal.js:379-482 | the spec lookup returns the table entry when the name is listed and the type's default otherwise, and with shaped tables its result always has the type's field set |
| Registry.LookupOr | scripts/universal-modal.js:508 | a listed name with a non-empty value gets that value; anything else gets the fallback |
| Registry.ProductColours | scripts/universal-modal.js:490-509 | colours come from the one shared table and default to `Red, Black`, never empty |
| Registry.ProductThickness | scripts/universal-modal.js:517-536 | thickness comes from the shared table when it lists the name with a non-empty value, and is otherwise `2.0mm and Max` for the rubber type and `N/A` for every other type; never empty |
| Registry.ThicknessTableIsShared | scripts/universal-modal.js:517-536 | the thickness of a listed name does not depend on the type; an unlisted name's thickness differs between rubber and the other types |
| Registry.UnrecognisedUsesRubberTables | scripts/universal-modal.js:466-481 | an unknown page type reads the rubber tables, but an unlisted name then has no spec record and thickness `N/A` |
| Registry.AccessoryAlwaysDefaults | scripts/universal-modal.js:352-462 | the accessory tables are empty, so every accessory gets the generic description and the all-`N/A` accessory record |
| Registry.KnownRubberEntries | scripts/universal-modal.js:381-384 | sample entries: `Tibhar K3 Pro` has speed 125, spin 130, control 90, strategy OFF+, hardness 55°, and its own title |
| Registry.UnknownRubberFallsBack | scripts/universal-modal.js:366-369 | an unlisted rubber gets the upper-cased title over the generic text and the all-`N/A` rubber record |
| Registry.UnknownNameSharedDefaults | scripts/universal-modal.js:490-536 | an unlisted name gets the colours `Red, Black`, thickness `2.0mm and Max` on a rubber page and `N/A` on a blade page |
| Registry.SharedTablesCrossTypes | scripts/universal-modal.js:490-536 | colours ignore the page; a rubber page sees a bat's thickness row and a blade page a rubber's |
| Loader.TrimmedText | scripts/universal-modal.js:132-140 | a missing element reads as the empty string, a present one as its trimmed text |
| Loader.CardPrices | scripts/universal-modal.js:112-127 | price and current price are always equal; with a pricing element the old and current prices are its trimmed parts, otherwise the old price is empty and the current price is the trimmed single price (empty when absent) |
| Loader.LoadProduct | scripts/universal-modal.js:102-143 | a loaded product's spec record fits its page type |
| Loader.LoadProducts | scripts/universal-modal.js:104 | one product per card |
| Loader.LoadProductsAt | scripts/universal-modal.js:104-143 | the product at position i is loaded from the card at position i |
| Loader.LoadedCatalogFits | scripts/universal-modal.js:104-143 | every loaded product's spec record fits the page type |
| Loader.PriceRules | scripts/universal-modal.js:112-130 | a pricing element supplies the old and current prices and the price equals the current one; otherwise a single price supplies both price and current price and the old price is empty; otherwise all three are empty |
| Loader.PriceIsCurrentPrice | scripts/universal-modal.js:112-130 | for every card the price equals the current price, and an old price only ever comes from a pricing element |
| Loader.MissingPartsAreEmpty | scripts/universal-modal.js:132-143 | a missing name, image or description reads as the empty string, and the four lookups are keyed on the loaded (trimmed) name |
| Loader.TextIsTrimmed | scripts/universal-modal.js:132-136 | names and descriptions are trimmed; the image source is taken as it is |
| Loader.PricingWithoutCurrentHidesSinglePrice | scripts/universal-modal.js:115-125 | a pricing element without a current price blanks the price even when a single price element exists |
| Render.SpecLayout | scripts/universal-modal.js:547-631 | each known type has a non-empty list of captions with no caption repeated; an unknown type has none |
| Render.SpecValues | scripts/universal-modal.js:547-631 | a record supplies one value per caption of the layout of each known type it fits |
| Render.SpecFields | scripts/universal-modal.js:544-634 | the spec captions are exactly the type's fixed list in order, and the values are the record's fields in the same order |
| Render.SpecLabelsFixedPerType | scripts/universal-modal.js:547-631 | two products of one type show the same captions in the same order |
| Render.PriceBlock | scripts/universal-modal.js:780-783 | the block shows old and current price exactly when the old price is non-empty, and the single price otherwise |
| Render.ColoursBlock | scripts/universal-modal.js:762-766 | the colours line appears exactly on rubber pages and shows the product's colours and thickness |
| Render.Paragraphs | scripts/universal-modal.js:790-792 | every paragraph is non-empty, trimmed and free of blank lines |
| Render.ParagraphCount | scripts/universal-modal.js:790-792 | there is one paragraph per segment of the split whose trim is non-empty |
| Render.ParagraphsStable | scripts/universal-modal.js:790-792 | re-joining the paragraphs and formatting again gives the same paragraphs |
| Render.SplitTwo | scripts/universal-modal.js:790 | two separator-free pieces joined by a blank line, the first not ending in a line feed, split back into exactly those two |
| Render.KeepTwo | scripts/universal-modal.js:790-792 | two trimmed non-empty segments are both kept, in order |
| Render.TwoParagraphs | scripts/universal-modal.js:790-792 | two trimmed paragraphs joined by a blank line are shown as exactly those two paragraphs, in order |
| Render.SplitThree | scripts/universal-modal.js:790 | three separator-free pieces joined by blank lines, none but the last ending in a line feed, split back into exactly those three |
| Render.KeepMiddleBlank | scripts/universal-modal.js:790-792 | a white-space-only segment after a kept one is dropped |
| Render.KeepOne | scripts/universal-modal.js:791-792 | a single segment is kept trimmed unless it trims to empty |
| Render.BlankSegmentDropped | scripts/universal-modal.js:790-792 | a white-space-only segment between two others gives no paragraph, and the last segment shows trimmed unless it is blank too |
| Render.EmptyContentHasNoParagraphs | scripts/universal-modal.js:790-792 | an empty description gives no paragraph |
| Render.RenderProduct | scripts/universal-modal.js:753-795 | the view shows the type's spec captions, two prices exactly when the old price is non-empty, the colours line exactly on rubber pages, the product's name and description title, and the formatted paragraphs |
| Render.LoadedPriceView | scripts/universal-modal.js:780-783 | for a loaded card, the view shows old and current price exactly when the card has a pricing element with a non-empty old price, and the single price otherwise |
| Render.RenderKnownRubber | scripts/universal-modal.js:753-795 | the `Tibhar K3 Pro` view shows the fields SPEED 125, SPIN 130, CONTROL 90, STRATEGY OFF+, HARDNESS 55° in that order, and the colours line `Red, Black` with `2.0mm and Max` |
| Render.RenderUnknownBat | scripts/universal-modal.js:753-795 | an unlisted bat shows four `N/A` fields, RUBBERS first, and no colours line |
| Gesture.Classify | scripts/universal-modal.js:662-684 | a live, non-scrolling move navigates exactly when its horizontal travel beats the vertical and exceeds 80, next for positive `diffX` and previous for negative; it dismisses exactly when vertical travel is not beaten, the offset is at most 10, less than 300 ms have passed and `diffY` exceeds 200 |
| Gesture.MoveAction | scripts/universal-modal.js:646-687 | a move asks for an action only in a live session that the offset test does not mark as scrolling |
| Gesture.MoveSession | scripts/universal-modal.js:646-687 | a dead session is untouched; a live one gets the scrolling flag of the offset test; the start time, the initial offset and both timers never change; a session still live afterwards keeps its start coordinates and drag flag |
| Gesture.Step | scripts/universal-modal.js:637-697 | only a touch start records the start time and offset, only a touch end adds a reset timer, and only a scroll event starts the scroll timer |
| Gesture.Actions | scripts/universal-modal.js:646-696 | a stream of events yields one overlay action per event |
| Gesture.TouchStartResets | scripts/universal-modal.js:637-644 | a touch start clears both flags, records the time and scroll offset, and opens a live session exactly when neither coordinate is 0 |
| Gesture.ScrollWins | scripts/universal-modal.js:656-661 | while scrolling, or once the content moved more than 5, a move neither navigates nor dismisses, and the scrolling flag is left set |
| Gesture.NavigationRule | scripts/universal-modal.js:662-673 | a move navigates exactly when the session is live, not scrolling, and the horizontal travel beats the vertical and exceeds 80; right-to-left travel is next |
| Gesture.DismissRule | scripts/universal-modal.js:674-684 | a move dismisses exactly when the session is live, not scrolling, vertical travel is not beaten by horizontal, the content is within 10 of the top, less than 300 ms have passed and the finger rose more than 200 |
| Gesture.TieIsVertical | scripts/universal-modal.js:662 | equal horizontal and vertical travel never navigates |
| Gesture.DownwardSwipeNeverDismisses | scripts/universal-modal.js:651-679 | a finger that moved down, or not at all, never dismisses |
| Gesture.DeadSessionStaysDead | scripts/universal-modal.js:647 | without a new touch start, an ended session stays ended and asks for nothing |
| Gesture.NavigationKillsSession | scripts/universal-modal.js:670-671 | a navigation ends the session |
| Gesture.DeadSessionIsSilent | scripts/universal-modal.js:647 | every event of a stream without touch starts does nothing once the session has ended |
| Gesture.OneNavigationPerTouch | scripts/universal-modal.js:662-673 | within one touch there is at most one navigation, and every event after it does nothing |
| Gesture.EdgeTouchIsInert | scripts/universal-modal.js:638-647 | a touch that starts at coordinate 0 never navigates or dismisses |
| Gesture.TimerDiscipline | scripts/universal-modal.js:81-88 | scroll events restart the single scroll timer rather than stack it, and its firing clears the flag; touch ends stack reset timers that a touch start does not cancel |
| Gesture.StaleResetTimerSwallowsSwipe | scripts/universal-modal.js:689-696 | with timestamps that can occur, a reset timer from the previous touch fires inside the next touch and swallows a swipe that navigates when it comes before the timer can fire |
| Gesture.ScrollTimerReenablesGestures | scripts/universal-modal.js:85-87 | once the scroll timer fires, a move with a small scroll offset is classified again |
| Gesture.GestureExamples | scripts/universal-modal.js:646-687 | samples: a 6-unit scroll beats an 85-unit swipe; 85 by 10 right-to-left is next; a fast long swipe at the top dismisses, a slow one or a downward one does not |
| Overlay.Open | scripts/universal-modal.js:716-726 | opening at `i` sets the index to `i` unchecked, opens, locks the page and focuses the overlay; it shows product `i` when it exists and keeps the old content otherwise |
| Overlay.Close | scripts/universal-modal.js:728-737 | closing clears the open flag and the lock, keeps index and content, and hands focus to the trigger at the index when there is one |
| Overlay.Next | scripts/universal-modal.js:739-744 | next moves one product forward unless at the last, where nothing changes; it never touches the open flag, lock or focus, and any new content is the product now current |
| Overlay.Previous | scripts/universal-modal.js:746-751 | previous moves one product back unless at the first, where nothing changes; it never touches the open flag, lock or focus, and any new content is the product now current |
| Overlay.Keydown | scripts/universal-modal.js:699-714 | a key never opens the overlay, moves the index by at most one, and any new content is the product now current |
| Overlay.Apply | scripts/universal-modal.js:662-684 | a gesture's action never opens the overlay, only a dismiss changes the open flag, lock or focus, the index moves by at most one, and any new content is the product now current |
| Overlay.Rendered | scripts/universal-modal.js:753-755 | rendering shows the current product when it exists and changes nothing otherwise |
| Overlay.InitialIsConsistent | scripts/universal-modal.js:13-28 | the freshly built overlay is closed, unlocked and consistent |
| Overlay.OpenKeepsConsistent | scripts/universal-modal.js:716-726 | opening keeps the invariant |
| Overlay.CloseKeepsConsistent | scripts/universal-modal.js:728-737 | closing keeps the invariant |
| Overlay.NextKeepsConsistent | scripts/universal-modal.js:739-744 | stepping forward keeps the invariant |
| Overlay.PreviousKeepsConsistent | scripts/universal-modal.js:746-751 | stepping back keeps the invariant |
| Overlay.KeydownKeepsConsistent | scripts/universal-modal.js:699-714 | a key press keeps the invariant |
| Overlay.ApplyKeepsConsistent | scripts/universal-modal.js:662-684 | a gesture's action keeps the invariant |
| Overlay.NavigationBounded | scripts/universal-modal.js:739-751 | next and previous move the index by at most one, stay in the catalog, and move exactly when not at the last or first product |
| Overlay.BoundariesAreNoOps | scripts/universal-modal.js:739-751 | at the last product next changes nothing, and at the first previous changes nothing: no wrap |
| Overlay.NextThenPrevious | scripts/universal-modal.js:739-751 | away from the end, next then previous returns to the same product, shown afresh |
| Overlay.PreviousThenNext | scripts/universal-modal.js:739-751 | away from the start, previous then next returns to the same product, shown afresh |
| Overlay.NextTimesSaturates | scripts/universal-modal.js:739-744 | k presses of next advance by k but stop at the last product, and leave the open flag alone |
| Overlay.NextTimesShowsCurrent | scripts/universal-modal.js:739-744 | after any number of presses of next the overlay shows the current product |
| Overlay.OpenThenClose | scripts/universal-modal.js:716-737 | opening a product and closing leaves the overlay closed and unlocked on that index, focused on its trigger and showing that product |
| Overlay.OpenOutsideCatalogKeepsStaleContent | scripts/universal-modal.js:716-720 | opening at an index with no product opens the overlay but leaves the earlier content in place |
| Overlay.CloseIdempotent | scripts/universal-modal.js:728-737 | closing twice is closing once |
| Overlay.KeyRules | scripts/universal-modal.js:699-714 | keys act only while open: Escape closes, ArrowLeft steps back, ArrowRight steps forward, every other key changes nothing |
| Overlay.SwipeIgnoresOpenFlag | scripts/universal-modal.js:662-669 | a swipe steps the index even while the overlay is closed, and does not open it |
| Modal.UniversalProductModal.constructor | scripts/universal-modal.js:13-34 | a new modal holds, at each position, the product loaded from the card at that position; it is closed on index 0 with a spinner, and has both touch coordinates at 0 |
| Modal.UniversalProductModal.LoadProductData | scripts/universal-modal.js:102-143 | one product per card, the product at each position loaded from the card at that position with the site's tables, all fitting the page type |
| Modal.UniversalProductModal.RenderProduct | scripts/universal-modal.js:753-795 | the content becomes the current product's view when one exists, otherwise nothing changes |
| Modal.UniversalProductModal.Open | scripts/universal-modal.js:716-726 | the fields become the overlay's open transition (index set unchecked, rendered, locked, focused) and the invariant holds |
| Modal.UniversalProductModal.Close | scripts/universal-modal.js:728-737 | the fields become the overlay's close transition and the invariant holds |
| Modal.UniversalProductModal.NextProduct | scripts/universal-modal.js:739-744 | the fields become the overlay's next transition and the invariant holds |
| Modal.UniversalProductModal.PreviousProduct | scripts/universal-modal.js:746-751 | the fields become the overlay's previous transition and the invariant holds |
| Modal.UniversalProductModal.HandleKeydown | scripts/universal-modal.js:699-714 | the fields become the overlay's key transition and the invariant holds |
| Modal.UniversalProductModal.HandleTouchStart | scripts/universal-modal.js:637-644 | the touch fields take the touch-start step; nothing else changes |
| Modal.UniversalProductModal.HandleTouchMove | scripts/universal-modal.js:646-687 | the touch fields take the move step, the overlay takes the action the old touch fields and the sample call for, the products are unchanged, and the invariant holds |
| Modal.UniversalProductModal.ActOnMove | scripts/universal-modal.js:662-685 | once the scroll test passed, the overlay takes the classified action; a navigation marks the drag and nulls both start coordinates, any other outcome leaves the touch fields alone |
| Modal.UniversalProductModal.Swipe | scripts/universal-modal.js:665-672 | a swipe marks the drag, nulls both start coordinates, and moves the overlay one product forward or back |
| Modal.UniversalProductModal.HandleTouchEnd | scripts/universal-modal.js:689-697 | one more reset timer is pending; nothing else changes |
| Modal.UniversalProductModal.HandleScroll | scripts/universal-modal.js:81-88 | the scrolling flag is set and the scroll timer is pending |
| Modal.UniversalProductModal.ScrollTimerFires | scripts/universal-modal.js:85-87 | the scrolling flag clears and no scroll timer is pending |
| Modal.UniversalProductModal.ResetTimerFires | scripts/universal-modal.js:691-696 | the session ends, both flags clear, and one fewer reset timer is pending |

## Left out

- DOM construction and queries (`createModalHTML`, `querySelector`) are left out. The cards reach the constructor as values.
- `bindEvents` wiring is left out. Each listener is the method it calls, and backdrop and button clicks are `Close`, `PreviousProduct` and `NextProduct`.
- `classList` toggles are left out. The overlay's visibility is `isOpen`.
- The scroll lock and `.focus()` are requested effects kept in ghost fields. The model does not check that the browser carried them out.
- Real timers, `setTimeout`, `clearTimeout` and `Date.now()` are not modelled. Time is the `now` parameter, and each timer's firing is an explicit event method.
- Browser coordinates are floats; the model uses integers.
- Touches beyond the first finger are left out.
- The HTML markup is left out. Escaping, spacing, and the colon after each spec caption are not modelled. The view is structured data.
- The marketing text of the description tables is cut down to each body's opening sentence, so no body of the site's tables keeps a paragraph break. The keys and titles are kept exactly.
- Registry.FullDescription: does not reproduce the full description bodies, because they are copy, not logic. Every lemma about paragraphs holds for any content.
- Text.ToUpper: upper-cases ASCII letters only. JavaScript's `toUpperCase` also maps other Unicode letters, and can lengthen a string (`ß` becomes `SS`), so "as long as the name" holds for the model only.
- Registry.ProductSpecs, Registry.FullDescription, Registry.ProductColours, Registry.ProductThickness: all four look a name up as an object key (lines 365, 481, 508, 535). A name that is an inherited object property, such as `constructor`, finds a value on the table's prototype in the source: the colours line then shows a function's text, and `renderProduct` throws at `fullDesc.content.split` (line 790) because that value has no `content`. The tables here are functions from a name to an optional entry, with no prototype chain, so the model never crashes there.
- Render.RenderProduct: requires the product's spec record to fit the page type. The loader guarantees this (`Loader.LoadedCatalogFits`), and the class keeps it as part of `Valid()`.
- Modal.UniversalProductModal.RenderProduct: the view is computed whenever a product exists at the index. The `.modal-content` element is assumed to exist.
- Default arguments are left out: the constructor's `productType = 'rubber'` (line 13) and `open(productIndex = 0)` (line 716). The caller always passes the tag and the index.
- `initializeModal`, its DOMContentLoaded handling and the global instance are page plumbing, and are left out.
- `components/navbar-component.js` and `components/footer-component.js` are static markup injection, and are not part of this model.
