# Game-mode gallery page, modelled in Dafny

A model of the logic in `script.js`, the one script of a static page that
shows a catalogue of game modes. The page shows the modes as cards in an
endless carousel, opens a details modal with an image gallery when a card is
clicked, and filters the cards by a name search. The DOM plumbing is lifted
out. What remains is abstract state and the operations the event handlers
perform on it:

- `Catalog` (catalog.dfy): the mode records, the cards `createCards` renders
  (the data once, or twice back to back), and the click lookup, which
  resolves a card's name key against the full catalogue with a first-match
  `find`.
- `Search` (search.dfy): query normalisation (lower-case, then trim), the
  order-preserving name filter, the render decision of `performSearch`, and
  the `input` listener that restores the full list when the box is cleared.
- `Gallery` (gallery.dfy): a `Gallery` class for the state `setupGallery`
  keeps in closures. It holds the current index, the thumbnails' `active`
  flags (an array toggled in place), the main picture and the arrows'
  visibility. Index cycling is given as the functions `NextIndex` and
  `PrevIndex`.
- `Carousel` (carousel.dfy): a `Carousel` class for the carousel's closure
  variables (`isScrolling`, `scrollSpeed`, `isDragging`, `startX`,
  `scrollLeftStart`) and the container's `scrollLeft`. Each event handler is
  a method, and one `smoothScroll` animation frame is one call. Offsets and
  widths are exact `real`s, and layout values (`getBoundingClientRect`,
  `offsetLeft`, `scrollWidth`) are parameters.
- `Page` (page.dfy): a `Page` class for the shared state: `gameModesData`,
  the rendered cards, the modal's open flag (the body's `modal-open` class),
  the details shown, and the current gallery. Its methods are the fetch
  callback, `createCards`, card clicks, `openModal`/`closeModal`, the
  overlay and Escape listeners, and the two search listeners.
- `Scenarios` (scenarios.dfy): small concrete walk-throughs. Three modes A,
  B, C render as six cards, and both B cards open B. A search for "cla" runs
  on three names. Two client methods drive the classes through a click, an
  Escape and the gallery arrows.

Three consequences of the code worth stating:

- The carousel offset is kept in the closed range `[0, W]`, where `W` is
  half the scrollable width. It is not the half-open `[0, W)`: the `<= 0`
  correction turns an offset of exactly 0 into `W`.
- The search compares lower-cased names by plain substring. There is no
  accent folding, so "cla" does not match "Clássico" (`Scenarios.SearchCla`).
- Re-rendering the cards does not reset the scroll offset or the carousel
  state. The carousel's correction keeps using half the scrollable width even
  after a filtered render, which is not duplicated.

## Model

| member | source | states |
|---|---|---|
| `Catalog.RenderList` | script.js:26 | the rendered list has 2N entries when duplicated and N otherwise; entry k is record k mod N; a non-duplicated render is the data unchanged |
| `Catalog.CardsOf` | script.js:28-37 | one card per record, in order, each (`CardOf`) keyed by its record's `nome` and showing the record's first image as its cover, or none when the record has no image |
| `Catalog.Find` | script.js:42 | nothing is found exactly when no record has the name; otherwise the result is the record at the first index whose name matches |
| `Catalog.DuplicatedKeys` | script.js:26-32 | the keys of a duplicated render are the catalogue's names followed by the same names again |
| `Catalog.SingleKeys` | script.js:26-32 | the keys of a non-duplicated render are exactly the records' names in order |
| `Catalog.ClickResolvesToRecord` | script.js:40-45 | when every rendered record is in the full catalogue, a click on any card finds a record with that card's name, and with unique names it finds the card's own record |
| `Catalog.BothCopiesOpenSameRecord` | script.js:26-45 | card k and card k+N of a duplicated render carry the same key and so open the same record |
| `Search.LowerChar` | script.js:245 | an upper-case letter becomes its lower-case partner (code point + 0x20), every other character is unchanged, the result is never upper-case, and white space is preserved both ways |
| `Search.LowerIdempotent` | script.js:245 | lower-casing an already lower-cased string changes nothing |
| `Search.Lower` | script.js:245 | the lower-cased string has the same length and is lower-cased character by character |
| `Search.TrimIsTrimmedSlice` | script.js:245 | `Trim`: the trimmed string is a contiguous slice of the input with only white space cut from each end and none left at its ends |
| `Search.TrimEmptyIff` | script.js:266 | `Trim`: a string trims to empty exactly when every character is white space |
| `Search.NormalizeEmptyIff` | script.js:245 | `Normalize` (lower-case, then trim): the normalised query is empty exactly when the raw input trims to empty |
| `Search.ContainsIff` | script.js:247 | `Contains`, the model of `includes`, holds exactly when the query occurs at some index of the name |
| `Search.FilterByName` | script.js:246-248 | a record is kept exactly when it is in the catalogue and it satisfies `NameMatches` (its lower-cased name `Contains` the query); the result is a subsequence of the catalogue, so it keeps catalogue order; it is empty exactly when no record matches |
| `Search.FilterKeepsEveryCopy` | script.js:246-248 | the filter keeps every copy of a matching record and no copy of any other record: each record occurs in the result as often as it occurs in the catalogue when it matches, and not at all otherwise |
| `Search.PerformSearch` | script.js:244-255 | a duplicated render is always the full catalogue; a single render is non-empty and in catalogue order; the render is duplicated exactly when the input is blank or no name matches |
| `Search.OnInput` | script.js:265-269 | the listener re-renders exactly when the value is all white space, and then it renders the full catalogue duplicated |
| `Search.BlankSearchShowsAll` | script.js:250-253 | an empty or blank query renders the full duplicated catalogue |
| `Search.NoMatchShowsAll` | script.js:250-253 | a query no name contains renders the full duplicated catalogue, never an empty list |
| `Search.MatchShowsExactlyMatches` | script.js:246-251 | a non-blank query with a match renders, without duplication, exactly the matching records, in catalogue order, each as many times as the catalogue holds it |
| `Search.SearchIgnoresCase` | script.js:245-250 | lower-casing the input first does not change what a search renders |
| `Search.SearchNeverRendersNothing` | script.js:244-255 | with a non-empty catalogue every search renders at least one card |
| `Search.ClearingAgreesWithSearch` | script.js:250-253 | when the input listener re-renders, it renders what a search for the same text would render |
| `Gallery.NextIndex` | script.js:229 | the next arrow keeps the index in `[0, len)` and moves it to `(i + 1) mod len` |
| `Gallery.PrevIndex` | script.js:225 | the previous arrow keeps the index in `[0, len)` and moves it to `(i - 1) mod len` |
| `Gallery.WrapAtEnds` | script.js:225-229 | next from the last image gives the first, and previous from the first gives the last |
| `Gallery.PrevUndoesNext` | script.js:225-229 | previous undoes next and next undoes previous |
| `Gallery.NextTimesIsModular` | script.js:229 | n presses of next move the index to `(i + n) mod len` |
| `Gallery.FullCycleReturns` | script.js:229 | pressing next once per image returns to the starting image |
| `Gallery.ExactlyOneActive` | script.js:209-215 | flags set exactly at the current index have exactly one flag set |
| `Gallery.DisplayedShowsOne` | script.js:204-215 | a displayed gallery shows the current image as the main picture and has exactly one active thumbnail |
| `Gallery.Gallery.constructor` | script.js:175-202 | opening a gallery gives one thumbnail per image, index 0, and the display for index 0 |
| `Gallery.Gallery.UpdateGallery` | script.js:204-221 | the main picture is the current image, only the current thumbnail is active, and the two arrows are shown together exactly when there is more than one image |
| `Gallery.Gallery.ClickThumbnail` | script.js:197-200 | clicking thumbnail i makes i the current index and redraws |
| `Gallery.Gallery.Prev` | script.js:224-227 | the previous arrow moves the index by `PrevIndex` and redraws |
| `Gallery.Gallery.Next` | script.js:228-231 | the next arrow moves the index by `NextIndex` and redraws |
| `Carousel.HoverAt` | script.js:57-71 | a pointer in the left fifth gives speed -0.5 with scrolling on, in the right fifth +0.5 with scrolling on, and in the middle speed 0 with scrolling off; scrolling is on exactly when the speed is non-zero |
| `Carousel.DragTarget` | script.js:99-101 | the drag moves the offset against the finger, by 1.5 times its travel |
| `Carousel.DragCorrect` | script.js:104-110 | the correction shifts the offset by one copy width or not at all; from within one copy either side it lands in `[0, W]`; an offset already inside `(0, W)` is untouched |
| `Carousel.FrameStep` | script.js:115-128 | a frame adds the speed and corrects only in the direction of motion; from `[0, W]` with a step narrower than W it stays in `[0, W]` |
| `Carousel.FramesStayInRange` | script.js:115-130 | any run of frames whose steps are each narrower than W keeps the offset in `[0, W]` |
| `Carousel.Carousel.constructor` | script.js:6-11 | auto-scroll and dragging start off, with speed 0 |
| `Carousel.Carousel.SmoothScroll` | script.js:114-128 | a frame does nothing when auto-scroll is off, else applies `FrameStep`; it keeps the offset in `[0, W]` |
| `Carousel.Carousel.MouseMove` | script.js:54-72 | the zone decision sets scrolling and speed, and in a hot zone one frame runs at once; the drag state is unchanged |
| `Carousel.Carousel.MouseLeave` | script.js:74-77 | leaving stops auto-scroll with speed 0 |
| `Carousel.Carousel.TouchStart` | script.js:80-88 | dragging starts from the finger position and the current offset, and auto-scroll stops |
| `Carousel.Carousel.TouchEnd` | script.js:90-93 | dragging stops |
| `Carousel.Carousel.TouchMove` | script.js:95-111 | ignored unless dragging; otherwise the offset becomes the corrected drag target |
| `Page.Page.constructor` | script.js:5 | nothing is loaded or rendered and the modal is closed |
| `Page.Page.Load` | script.js:14-20 | the fetched catalogue is kept and rendered duplicated |
| `Page.Page.CreateCards` | script.js:22-49 | the container holds exactly the cards of the data, or of the data twice over |
| `Page.Page.ClickCard` | script.js:40-46 | a click opens the modal on the first catalogue record carrying the card's key, with a fresh gallery at index 0; a key with no record changes nothing |
| `Page.Page.OpenModal` | script.js:142-154 | the modal opens on the record's details with a fresh gallery of its images at index 0 |
| `Page.Page.CloseModal` | script.js:156-159 | the modal is closed |
| `Page.Page.OverlayClick` | script.js:163-167 | a click closes the modal exactly when it lands on the backdrop |
| `Page.Page.KeyDown` | script.js:168-172 | Escape closes an open modal; any other key changes nothing |
| `Page.Page.PerformSearch` | script.js:244-255 | the cards become those of the search's render request |
| `Page.Page.Input` | script.js:265-269 | a blank value re-renders the full duplicated catalogue; any other value leaves the cards unchanged |
| `Page.EveryRenderedCardOpens` | script.js:40-45 | after any search, every rendered card's key resolves to a catalogue record |
| `Scenarios.ThreeModes` | script.js:26-45 | three modes render as six cards A B C A B C, and the second B card opens the same record B as the first |
| `Scenarios.SearchCla` | script.js:244-251 | "cla" against "Clássico", "Classic Duo" and "Ranked" renders only "Classic Duo", once |

## Left out

- Fetching `data.json` and parsing it (script.js:14-20) are network I/O. The catalogue is a parameter of `Page.Page.Load`, and a failed fetch is not modelled.
- DOM construction is left out: `innerHTML`, `createElement`, `appendChild`, `querySelector`, styles, the cursor and `scrollIntoView`. Only the abstract effect is kept: the card keys and covers, the active flags, and the arrows' visibility.
- The `requestAnimationFrame` rescheduling (script.js:130) is left out. Each mousemove in a hot zone starts another chain of frames, so several chains can overlap. One frame is one `SmoothScroll` call, and how many chains run is not modelled.
- The browser clamps `scrollLeft` to the scrollable range, and this is not modelled. JavaScript numbers are doubles, while the model uses exact reals for 0.2, 0.5, 1.5 and every offset.
- `updateCenteredCard` (script.js:133-139) is dead code with no effect. `e.preventDefault()` (script.js:97) is a browser side effect only.
- Search.LowerChar: lower-cases only ASCII and Latin-1 upper-case letters, because full Unicode case mapping is not modelled.
- Carousel.Carousel.TouchMove: gives no range bound for the new offset. One correction only brings it into `[0, W]` when the raw drag target is within one copy width of that range, which `Carousel.DragCorrect` states. A longer drag is left to the browser's clamping, which is not modelled.
- Gallery.Gallery.Prev: requires at least one image, because the arrows are hidden unless there are two or more. With no images the handler would set the index to -1.
- Gallery.Gallery.Next: requires at least one image, for the same reason as `Prev`.
- `startX` and `scrollLeftStart` start at 0 instead of `undefined`. Only `touchmove` reads them, and it returns early unless a `touchstart` has set them.
