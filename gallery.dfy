/** The modal's image gallery (setupGallery and updateGallery in script.js):
    the current image index, cycled by the arrows and set by the thumbnails,
    and what the gallery displays for it. */
module Gallery {
  import opened Catalog

  /** The next arrow: one step forward, back to the first image after the last. */
  function NextIndex(i: int, len: int): (r: int)
    requires 0 <= i < len
    ensures 0 <= r < len
    ensures r == (i + 1) % len
  {
    if i < len - 1 then i + 1 else 0
  }

  /** The previous arrow: one step back, to the last image before the first. */
  function PrevIndex(i: int, len: int): (r: int)
    requires 0 <= i < len
    ensures 0 <= r < len
    ensures r == (i - 1) % len
  {
    if i > 0 then i - 1 else len - 1
  }

  /** The index after n presses of the next arrow. */
  function NextTimes(i: int, len: int, n: nat): (r: int)
    requires 0 <= i < len
    ensures 0 <= r < len
  {
    if n == 0 then i else NextIndex(NextTimes(i, len, n - 1), len)
  }

  /** The arrows wrap at the ends. */
  lemma WrapAtEnds(len: int)
    requires len >= 1
    ensures NextIndex(len - 1, len) == 0
    ensures PrevIndex(0, len) == len - 1
  {
  }

  /** The previous arrow undoes the next arrow, and the other way round. */
  lemma PrevUndoesNext(i: int, len: int)
    requires 0 <= i < len
    ensures PrevIndex(NextIndex(i, len), len) == i
    ensures NextIndex(PrevIndex(i, len), len) == i
  {
  }

  /** n presses of the next arrow move n places forward, modulo the count. */
  lemma {:induction false} NextTimesIsModular(i: int, len: int, n: nat)
    requires 0 <= i < len
    ensures NextTimes(i, len, n) == (i + n) % len
  {
    if n > 0 {
      NextTimesIsModular(i, len, n - 1);
      ModSucc(i + n - 1, len);
    }
  }

  lemma ModSucc(a: int, len: int)
    requires len > 0
    ensures ((a % len) + 1) % len == (a + 1) % len
  {
    var k, r := a / len, a % len;
    assert a == k * len + r;
    if r + 1 < len {
      ModUnique(a + 1, len, k, r + 1);
      ModUnique(r + 1, len, 0, r + 1);
    } else {
      MulSucc(k, len);
      ModUnique(a + 1, len, k + 1, 0);
      ModUnique(len, len, 1, 0);
    }
  }

  lemma MulSucc(k: int, len: int)
    ensures (k + 1) * len == k * len + len
  {
  }

  lemma ModUnique(a: int, len: int, k: int, r: int)
    requires len > 0 && 0 <= r < len && a == k * len + r
    ensures a % len == r
  {
    var k', r' := a / len, a % len;
    assert a == k' * len + r';
    MulDiff(k, k', len);
    if k > k' {
      MulAtLeast(k - k', len);
    } else if k < k' {
      MulAtLeast(k' - k, len);
    }
  }

  lemma MulDiff(k: int, k': int, len: int)
    ensures (k - k') * len == k * len - k' * len
    ensures (k' - k) * len == k' * len - k * len
  {
  }

  lemma MulAtLeast(d: int, len: int)
    requires len > 0 && d >= 1
    ensures d * len >= len
  {
  }

  /** Pressing the next arrow once per image returns to the starting image. */
  lemma FullCycleReturns(i: int, len: int)
    requires 0 <= i < len
    ensures NextTimes(i, len, len) == i
  {
    NextTimesIsModular(i, len, len);
    ModUnique(i + len, len, 1, i);
  }

  /** The number of set flags. */
  function CountActive(flags: seq<bool>): (n: nat)
    ensures n <= |flags|
  {
    if |flags| == 0 then 0 else (if flags[0] then 1 else 0) + CountActive(flags[1..])
  }

  /** When the flags are set exactly at index c, exactly one flag is set. */
  lemma {:induction false} ExactlyOneActive(flags: seq<bool>, c: int)
    requires 0 <= c < |flags|
    requires forall k :: 0 <= k < |flags| ==> flags[k] == (k == c)
    ensures CountActive(flags) == 1
  {
    if c == 0 {
      NoneActive(flags[1..]);
    } else {
      ExactlyOneActive(flags[1..], c - 1);
    }
  }

  lemma {:induction false} NoneActive(flags: seq<bool>)
    requires forall k :: 0 <= k < |flags| ==> !flags[k]
    ensures CountActive(flags) == 0
  {
    if |flags| > 0 {
      NoneActive(flags[1..]);
    }
  }

  /** The gallery built by setupGallery for one record's images. */
  class Gallery {
    const images: seq<string>
    /** The thumbnail strip: one picture per image, in order. */
    var thumbnails: seq<string>
    /** The 'active' class of each thumbnail, toggled in place. */
    const active: array<bool>
    var currentIndex: int
    /** The main picture's source; None stands for `undefined`, which only
        an empty image list produces. */
    var mainImage: Option<string>
    var prevVisible: bool
    var nextVisible: bool

    ghost predicate Valid()
      reads this
    {
      active.Length == |images| && thumbnails == images &&
      (if |images| == 0 then currentIndex == 0 else 0 <= currentIndex < |images|)
    }

    /** What updateGallery shows: the main picture is the current image,
        exactly the current thumbnail is active, and the two arrows are shown
        together, only when there is more than one image. */
    ghost predicate Displayed()
      reads this, active
    {
      active.Length == |images| &&
      mainImage == (if 0 <= currentIndex < |images| then Some(images[currentIndex]) else None) &&
      (forall k :: 0 <= k < active.Length ==> active[k] == (k == currentIndex)) &&
      prevVisible == nextVisible == (|images| > 1)
    }

    /** setupGallery: thumbnails for every image, the first image shown. */
    constructor (imgs: seq<string>)
      ensures Valid() && Displayed()
      ensures images == imgs && currentIndex == 0 && fresh(active)
    {
      images := imgs;
      active := new bool[|imgs|];
      currentIndex := 0;
      var strip: seq<string> := [];
      var i := 0;
      while i < |imgs|
        invariant 0 <= i <= |imgs|
        invariant strip == imgs[..i]
      {
        strip := strip + [imgs[i]];
        i := i + 1;
      }
      thumbnails := strip;
      new;
      UpdateGallery();
    }

    /** updateGallery: redraws the display for the current index. */
    method UpdateGallery()
      requires active.Length == |images|
      modifies this`mainImage, this`prevVisible, this`nextVisible, active
      ensures Displayed()
    {
      mainImage := if 0 <= currentIndex < |images| then Some(images[currentIndex]) else None;
      var k := 0;
      while k < active.Length
        invariant 0 <= k <= active.Length
        invariant forall j :: 0 <= j < k ==> active[j] == (j == currentIndex)
        invariant mainImage == if 0 <= currentIndex < |images| then Some(images[currentIndex]) else None
      {
        active[k] := k == currentIndex;
        k := k + 1;
      }
      var showButtons := |images| > 1;
      prevVisible := showButtons;
      nextVisible := showButtons;
    }

    /** A click on thumbnail `index` shows that image. */
    method ClickThumbnail(index: int)
      requires Valid() && 0 <= index < |images|
      modifies this, active
      ensures Valid() && Displayed()
      ensures currentIndex == index && thumbnails == old(thumbnails)
    {
      currentIndex := index;
      UpdateGallery();
    }

    /** The previous arrow. */
    method Prev()
      requires Valid() && |images| > 0
      modifies this, active
      ensures Valid() && Displayed()
      ensures currentIndex == PrevIndex(old(currentIndex), |images|) && thumbnails == old(thumbnails)
    {
      currentIndex := if currentIndex > 0 then currentIndex - 1 else |images| - 1;
      UpdateGallery();
    }

    /** The next arrow. */
    method Next()
      requires Valid() && |images| > 0
      modifies this, active
      ensures Valid() && Displayed()
      ensures currentIndex == NextIndex(old(currentIndex), |images|) && thumbnails == old(thumbnails)
    {
      currentIndex := if currentIndex < |images| - 1 then currentIndex + 1 else 0;
      UpdateGallery();
    }
  }

  /** A displayed gallery shows the current image as the main picture, with
      exactly one active thumbnail. */
  lemma DisplayedShowsOne(g: Gallery)
    requires g.Valid() && g.Displayed() && |g.images| > 0
    ensures g.mainImage == Some(g.images[g.currentIndex])
    ensures CountActive(g.active[..]) == 1
  {
    ExactlyOneActive(g.active[..], g.currentIndex);
  }
}
