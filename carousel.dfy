/** The endless card carousel (initializeCarousel and smoothScroll in
    script.js): hover zones that set an auto-scroll speed, touch dragging
    with an amplified pointer delta, and the correction that keeps the
    scroll offset inside the first of the two rendered copies. Offsets and
    widths are exact reals. */
module Carousel {

  /** Auto-scroll speed, in pixels per frame, in either hot zone. */
  const EdgeSpeed: real := 0.5
  /** Share of the container width taken by each hot zone. */
  const HotZoneShare: real := 0.2
  /** Factor applied to the finger's travel while dragging. */
  const DragFactor: real := 1.5

  /** What a pointer move inside the container decides. */
  datatype Hover = Hover(scrolling: bool, speed: real)

  /** The mousemove handler's zoning: the outer fifth of the width on the
      left scrolls back, the outer fifth on the right scrolls forward, the
      middle stops auto-scroll. */
  function HoverAt(mouseX: real, width: real): (h: Hover)
    ensures h.scrolling <==> h.speed != 0.0
    ensures h.speed == -EdgeSpeed || h.speed == 0.0 || h.speed == EdgeSpeed
    ensures mouseX < width / 5.0 ==> h == Hover(true, -EdgeSpeed)
    ensures width >= 0.0 && mouseX > 4.0 * width / 5.0 ==> h == Hover(true, EdgeSpeed)
    ensures width / 5.0 <= mouseX <= 4.0 * width / 5.0 ==> h == Hover(false, 0.0)
  {
    var hotZone := width * HotZoneShare;
    if mouseX < hotZone then Hover(true, -EdgeSpeed)
    else if mouseX > width - hotZone then Hover(true, EdgeSpeed)
    else Hover(false, 0.0)
  }

  /** The scroll offset a drag asks for: the offset at touch start, moved
      against the finger by one and a half times its travel. */
  function DragTarget(scrollLeftStart: real, startX: real, x: real): (v: real)
    ensures x > startX ==> v < scrollLeftStart
    ensures x < startX ==> v > scrollLeftStart
    ensures scrollLeftStart - v == DragFactor * (x - startX)
  {
    var walk := (x - startX) * DragFactor;
    scrollLeftStart - walk
  }

  /** The touchmove loop correction: one copy's width back when the offset
      reaches the second copy, one copy forward when it reaches the start.
      It moves the offset by a whole copy or not at all, so the picture does
      not jump; from anywhere within one copy either side it lands in
      [0, half] (half itself is reachable, from an offset of exactly 0). */
  function DragCorrect(v: real, half: real): (r: real)
    ensures r == v || r == v - half || r == v + half
    ensures half > 0.0 && -half < v < 2.0 * half ==> 0.0 <= r <= half
    ensures half > 0.0 && 0.0 < v < half ==> r == v
  {
    if v >= half then v - half
    else if v <= 0.0 then v + half
    else v
  }

  /** One smoothScroll frame while scrolling: add the speed, then correct
      only in the direction of motion. */
  function FrameStep(offset: real, speed: real, half: real): (r: real)
    ensures speed > 0.0 ==> r == offset + speed || r == offset + speed - half
    ensures speed < 0.0 ==> r == offset + speed || r == offset + speed + half
    ensures speed == 0.0 ==> r == offset
    ensures 0.0 <= offset <= half && -half < speed < half ==> 0.0 <= r <= half
  {
    var o := offset + speed;
    if speed > 0.0 && o >= half then o - half
    else if speed < 0.0 && o <= 0.0 then o + half
    else o
  }

  /** The offset after a run of auto-scroll frames with the given speeds. */
  function Frames(offset: real, speeds: seq<real>, half: real): real
    decreases |speeds|
  {
    if |speeds| == 0 then offset else Frames(FrameStep(offset, speeds[0], half), speeds[1..], half)
  }

  /** However many frames run, the offset stays within the first copy as
      long as no single step is a whole copy wide. */
  lemma {:induction false} FramesStayInRange(offset: real, speeds: seq<real>, half: real)
    requires 0.0 <= offset <= half
    requires forall k :: 0 <= k < |speeds| ==> -half < speeds[k] < half
    ensures 0.0 <= Frames(offset, speeds, half) <= half
    decreases |speeds|
  {
    if |speeds| > 0 {
      FramesStayInRange(FrameStep(offset, speeds[0], half), speeds[1..], half);
    }
  }

  /** The carousel's closure-level state. startX and scrollLeftStart are
      undefined in the browser until the first touchstart; nothing reads
      them before then, and here they start at 0. */
  class Carousel {
    var isScrolling: bool
    var scrollSpeed: real
    var isDragging: bool
    var startX: real
    var scrollLeftStart: real
    /** cardContainer.scrollLeft */
    var scrollLeft: real

    /** The speed is one of the three the handlers set, and auto-scroll is
        only on with a non-zero speed. */
    ghost predicate Valid()
      reads this
    {
      (scrollSpeed == -EdgeSpeed || scrollSpeed == 0.0 || scrollSpeed == EdgeSpeed) &&
      (isScrolling ==> scrollSpeed != 0.0)
    }

    constructor ()
      ensures Valid()
      ensures !isScrolling && scrollSpeed == 0.0 && !isDragging && scrollLeft == 0.0
    {
      isScrolling, scrollSpeed, isDragging := false, 0.0, false;
      startX, scrollLeftStart, scrollLeft := 0.0, 0.0, 0.0;
    }

    /** smoothScroll, one animation frame: nothing when auto-scroll is off,
        otherwise one FrameStep against half the scrollable width. */
    method SmoothScroll(scrollWidth: real)
      modifies this`scrollLeft
      ensures scrollLeft == if isScrolling then FrameStep(old(scrollLeft), scrollSpeed, scrollWidth / 2.0) else old(scrollLeft)
      ensures Valid() && 0.5 < scrollWidth / 2.0 && 0.0 <= old(scrollLeft) <= scrollWidth / 2.0 ==>
        0.0 <= scrollLeft <= scrollWidth / 2.0
    {
      if !isScrolling {
        return;
      }
      var singleSetWidth := scrollWidth / 2.0;
      scrollLeft := scrollLeft + scrollSpeed;
      if scrollSpeed > 0.0 && scrollLeft >= singleSetWidth {
        scrollLeft := scrollLeft - singleSetWidth;
      } else if scrollSpeed < 0.0 && scrollLeft <= 0.0 {
        scrollLeft := scrollLeft + singleSetWidth;
      }
    }

    /** mousemove: the pointer's zone sets auto-scroll, and in a hot zone
        the handler runs one frame at once. */
    method MouseMove(clientX: real, rectLeft: real, rectWidth: real, scrollWidth: real)
      requires Valid()
      modifies this
      ensures Valid()
      ensures Hover(isScrolling, scrollSpeed) == HoverAt(clientX - rectLeft, rectWidth)
      ensures scrollLeft == if isScrolling then FrameStep(old(scrollLeft), scrollSpeed, scrollWidth / 2.0) else old(scrollLeft)
      ensures isDragging == old(isDragging) && startX == old(startX) && scrollLeftStart == old(scrollLeftStart)
    {
      var mouseX := clientX - rectLeft;
      var hotZone := rectWidth * HotZoneShare;
      if mouseX < hotZone {
        isScrolling := true;
        scrollSpeed := -EdgeSpeed;
        SmoothScroll(scrollWidth);
      } else if mouseX > rectWidth - hotZone {
        isScrolling := true;
        scrollSpeed := EdgeSpeed;
        SmoothScroll(scrollWidth);
      } else {
        isScrolling := false;
        scrollSpeed := 0.0;
      }
    }

    /** mouseleave: auto-scroll stops. */
    method MouseLeave()
      modifies this`isScrolling, this`scrollSpeed
      ensures Valid()
      ensures !isScrolling && scrollSpeed == 0.0
    {
      isScrolling := false;
      scrollSpeed := 0.0;
    }

    /** touchstart: dragging starts from the finger's position and the
        current offset, and auto-scroll stops (the speed is left as it was). */
    method TouchStart(pageX: real, offsetLeft: real)
      requires Valid()
      modifies this
      ensures Valid()
      ensures isDragging && !isScrolling
      ensures startX == pageX - offsetLeft && scrollLeftStart == scrollLeft
      ensures scrollLeft == old(scrollLeft) && scrollSpeed == old(scrollSpeed)
    {
      isDragging := true;
      isScrolling := false;
      startX := pageX - offsetLeft;
      scrollLeftStart := scrollLeft;
    }

    /** touchend: dragging stops. */
    method TouchEnd()
      modifies this`isDragging
      ensures !isDragging
    {
      isDragging := false;
    }

    /** touchmove: ignored unless dragging; otherwise the offset becomes the
        drag target, corrected once for the endless loop. */
    method TouchMove(pageX: real, offsetLeft: real, scrollWidth: real)
      modifies this`scrollLeft
      ensures scrollLeft == if isDragging then DragCorrect(DragTarget(scrollLeftStart, startX, pageX - offsetLeft), scrollWidth / 2.0)
                            else old(scrollLeft)
    {
      if !isDragging {
        return;
      }
      var x := pageX - offsetLeft;
      var walk := (x - startX) * DragFactor;
      scrollLeft := scrollLeftStart - walk;
      var singleSetWidth := scrollWidth / 2.0;
      if scrollLeft >= singleSetWidth {
        scrollLeft := scrollLeft - singleSetWidth;
      } else if scrollLeft <= 0.0 {
        scrollLeft := scrollLeft + singleSetWidth;
      }
    }
  }
}
