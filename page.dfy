/** The page's shared state in script.js: the catalogue loaded at start-up,
    the cards currently rendered, and the details modal with its gallery.
    Each event listener that touches this state is one method. */
module Page {
  import opened Catalog
  import Search
  import Gallery

  class Page {
    /** gameModesData: the full catalogue every click resolves against. */
    var gameModesData: seq<ModeRecord>
    /** The children of the card container, in order. */
    var cards: seq<Card>
    /** The `modal-open` class on the page body: the modal is showing. */
    var modalOpen: bool
    /** The record whose name, description and link the modal shows. */
    var details: Option<ModeRecord>
    /** The gallery of the most recent openModal; each opening replaces it. */
    var gallery: Gallery.Gallery?

    /** Before the catalogue arrives: nothing loaded, nothing rendered. */
    constructor ()
      ensures gameModesData == [] && cards == [] && !modalOpen && details == None && gallery == null
    {
      gameModesData, cards := [], [];
      modalOpen, details, gallery := false, None, null;
    }

    /** The fetch callback: keep the catalogue and render it duplicated. */
    method Load(data: seq<ModeRecord>)
      modifies this
      ensures gameModesData == data && cards == CardsOf(data + data)
      ensures modalOpen == old(modalOpen) && details == old(details) && gallery == old(gallery)
    {
      gameModesData := data;
      CreateCards(data, true);
    }

    /** createCards: empty the container, then append one card per record of
        the data, or of the data twice over. */
    method CreateCards(data: seq<ModeRecord>, duplicateForCarousel: bool)
      modifies this`cards
      ensures cards == CardsOf(RenderList(data, duplicateForCarousel))
    {
      cards := [];
      var allItems := if duplicateForCarousel then data + data else data;
      var i := 0;
      while i < |allItems|
        invariant 0 <= i <= |allItems|
        invariant cards == CardsOf(allItems[..i])
      {
        cards := cards + [CardOf(allItems[i])];
        i := i + 1;
        assert allItems[..i] == allItems[..i - 1] + [allItems[i - 1]];
      }
      assert allItems[..i] == allItems;
    }

    /** A click on card k: look its key up in the full catalogue and open the
        modal on the record found; a key that no record carries does nothing. */
    method ClickCard(k: int)
      requires 0 <= k < |cards|
      modifies this
      ensures gameModesData == old(gameModesData) && cards == old(cards)
      ensures match Find(gameModesData, cards[k].modeName)
        case Some(m) => modalOpen && details == Some(m) && gallery != null && fresh(gallery) &&
                        gallery.images == m.imagens && gallery.currentIndex == 0 &&
                        gallery.Valid() && gallery.Displayed()
        case None => modalOpen == old(modalOpen) && details == old(details) && gallery == old(gallery)
    {
      var modeName := cards[k].modeName;
      var modeData := Find(gameModesData, modeName);
      if modeData.Some? {
        OpenModal(modeData.value);
      }
    }

    /** openModal: show the record's details, start a fresh gallery on its
        first image, and show the modal. */
    method OpenModal(modeData: ModeRecord)
      modifies this
      ensures modalOpen && details == Some(modeData)
      ensures gallery != null && fresh(gallery) && fresh(gallery.active)
      ensures gallery.images == modeData.imagens && gallery.currentIndex == 0
      ensures gallery.Valid() && gallery.Displayed()
      ensures gameModesData == old(gameModesData) && cards == old(cards)
    {
      details := Some(modeData);
      gallery := new Gallery.Gallery(modeData.imagens);
      modalOpen := true;
    }

    /** closeModal: hide the modal. */
    method CloseModal()
      modifies this`modalOpen
      ensures !modalOpen
    {
      modalOpen := false;
    }

    /** A click on the overlay closes the modal only when it lands on the
        backdrop itself, not on the modal's content. */
    method OverlayClick(onBackdrop: bool)
      modifies this`modalOpen
      ensures modalOpen == (old(modalOpen) && !onBackdrop)
    {
      if onBackdrop {
        CloseModal();
      }
    }

    /** keydown: Escape closes the modal when it is open; any other key, or
        Escape with the modal closed, changes nothing. */
    method KeyDown(key: string)
      modifies this`modalOpen
      ensures modalOpen == (old(modalOpen) && key != "Escape")
    {
      if key == "Escape" && modalOpen {
        CloseModal();
      }
    }

    /** performSearch, from the search button or Enter in the search box. */
    method PerformSearch(input: string)
      modifies this`cards
      ensures var request := Search.PerformSearch(input, gameModesData);
        cards == CardsOf(RenderList(request.items, request.duplicate))
    {
      var request := Search.PerformSearch(input, gameModesData);
      CreateCards(request.items, request.duplicate);
    }

    /** The search box's `input` listener: a value that trims to nothing
        restores the full duplicated catalogue; anything else leaves the
        cards as they are. */
    method Input(value: string)
      modifies this`cards
      ensures Search.OnInput(value, gameModesData).Some? ==> cards == CardsOf(gameModesData + gameModesData)
      ensures Search.OnInput(value, gameModesData).None? ==> cards == old(cards)
    {
      var request := Search.OnInput(value, gameModesData);
      if request.Some? {
        CreateCards(request.value.items, request.value.duplicate);
      }
    }
  }

  /** Whatever is rendered, every card opens a record carrying its name:
      a search only ever renders records of the full catalogue. */
  lemma EveryRenderedCardOpens(data: seq<ModeRecord>, input: string)
    ensures var r := Search.PerformSearch(input, data);
      forall k :: 0 <= k < |CardsOf(RenderList(r.items, r.duplicate))| ==>
        Find(data, CardsOf(RenderList(r.items, r.duplicate))[k].modeName).Some?
  {
    var r := Search.PerformSearch(input, data);
    var items := RenderList(r.items, r.duplicate);
    if !r.duplicate {
      Search.SubsequenceMembers(r.items, data);
    }
    assert forall m :: m in items ==> m in data;
    forall k | 0 <= k < |CardsOf(items)|
      ensures Find(data, CardsOf(items)[k].modeName).Some?
    {
      ClickResolvesToRecord(data, items, k);
    }
  }
}
