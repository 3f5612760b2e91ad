/** Concrete walk-throughs of the page's behaviour on small catalogues. */
module Scenarios {
  import opened Catalog
  import Search
  import Gallery
  import Page

  /** Three modes A, B, C load as six cards A B C A B C, and a click on the
      second B card opens the same record as a click on the first. */
  lemma ThreeModes(a: ModeRecord, b: ModeRecord, c: ModeRecord)
    requires a.nome != b.nome && b.nome != c.nome && a.nome != c.nome
    ensures Keys(CardsOf(RenderList([a, b, c], true))) == [a.nome, b.nome, c.nome, a.nome, b.nome, c.nome]
    ensures Find([a, b, c], CardsOf(RenderList([a, b, c], true))[4].modeName) == Some(b)
    ensures Find([a, b, c], CardsOf(RenderList([a, b, c], true))[1].modeName) == Some(b)
  {
    var data := [a, b, c];
    DuplicatedKeys(data);
    assert Names(data) == [a.nome, b.nome, c.nome];
    BothCopiesOpenSameRecord(data, 1);
    ClickResolvesToRecord(data, data, 1);
  }

  /** "cla" matches "Classic Duo" but neither "Ranked" nor "Clássico":
      lower-casing keeps the accent, so "clássico" does not contain "cla".
      The one match is rendered once. */
  lemma SearchCla()
    ensures Search.PerformSearch("cla", [ModeRecord("Clássico", "", "", []), ModeRecord("Classic Duo", "", "", []), ModeRecord("Ranked", "", "", [])])
         == Search.RenderRequest([ModeRecord("Classic Duo", "", "", [])], false)
  {
    var m1, m2, m3 := ModeRecord("Clássico", "", "", []), ModeRecord("Classic Duo", "", "", []), ModeRecord("Ranked", "", "", []);
    NormalizeCla();
    FilterCla();
  }

  /** Filtering the three names by "cla" keeps only "Classic Duo". */
  lemma FilterCla()
    ensures Search.FilterByName([ModeRecord("Clássico", "", "", []), ModeRecord("Classic Duo", "", "", []), ModeRecord("Ranked", "", "", [])], "cla")
         == [ModeRecord("Classic Duo", "", "", [])]
  {
    var m1, m2, m3 := ModeRecord("Clássico", "", "", []), ModeRecord("Classic Duo", "", "", []), ModeRecord("Ranked", "", "", []);
    ClassicoAndRankedMiss();
    ClassicDuoMatches();
    assert Search.FilterByName([m3], "cla") == [];
    assert Search.FilterByName([m2, m3], "cla") == [m2] by {
      assert [m2, m3][1..] == [m3];
    }
    assert [m1, m2, m3][1..] == [m2, m3];
  }

  lemma NormalizeCla()
    ensures Search.Normalize("cla") == "cla"
  {
    var l := Search.Lower("cla");
    assert l[0] == 'c' && l[1] == 'l' && l[2] == 'a';
    assert l == "cla";
    assert !Search.IsSpace('c') && !Search.IsSpace('a');
    assert Search.TrimStart(l) == l;
    assert Search.TrimEnd(l) == l;
  }

  /** Neither "Clássico" nor "Ranked" contains "cla" once lower-cased. */
  lemma ClassicoAndRankedMiss()
    ensures !Search.NameMatches(ModeRecord("Clássico", "", "", []), "cla")
    ensures !Search.NameMatches(ModeRecord("Ranked", "", "", []), "cla")
  {
    var l1 := Search.Lower("Clássico");
    assert l1 == "clássico";
    NoLa(l1);
    var l3 := Search.Lower("Ranked");
    assert l3 == "ranked";
    NoLa(l3);
  }

  lemma ClassicDuoMatches()
    ensures Search.NameMatches(ModeRecord("Classic Duo", "", "", []), "cla")
  {
    var l := Search.Lower("Classic Duo");
    assert l[0] == 'c' && l[1] == 'l' && l[2] == 'a';
    assert "cla" <= l;
  }

  /** A string in which no "l" is followed by "a" does not contain "cla". */
  lemma NoLa(s: string)
    requires forall k :: 0 <= k < |s| - 1 && s[k] == 'l' ==> s[k + 1] != 'a'
    ensures !Search.Contains(s, "cla")
  {
    Search.ContainsIff(s, "cla");
    forall i | 0 <= i && i + 3 <= |s|
      ensures !Search.OccursAt(s, "cla", i)
    {
      assert s[i..i + 3][1] == s[i + 1] && s[i..i + 3][2] == s[i + 2];
    }
  }
  /** Loading A, B, C and clicking the second B card opens B's modal on B's
      first image, with one thumbnail per image of B; Escape then closes it. */
  method ClickSecondCopyOfB(a: ModeRecord, b: ModeRecord, c: ModeRecord)
    requires a.nome != b.nome && b.nome != c.nome && a.nome != c.nome
    requires |b.imagens| > 0
  {
    var page := new Page.Page();
    page.Load([a, b, c]);
    assert |page.cards| == 6;
    ThreeModes(a, b, c);
    page.ClickCard(4);
    assert page.modalOpen && page.details == Some(b);
    assert page.gallery.mainImage == Some(b.imagens[0]);
    assert |page.gallery.thumbnails| == |b.imagens|;
    page.KeyDown("Escape");
    assert !page.modalOpen;
  }

  /** One image hides both arrows; two show both. */
  method ArrowsFollowImageCount(x: string, y: string)
  {
    var one := new Gallery.Gallery([x]);
    assert !one.prevVisible && !one.nextVisible;
    var two := new Gallery.Gallery([x, y]);
    assert two.prevVisible && two.nextVisible;
    two.Next();
    assert two.currentIndex == 1 && two.mainImage == Some(y);
    two.Next();
    assert two.currentIndex == 0 && two.mainImage == Some(x);
    two.Prev();
    assert two.currentIndex == 1;
  }
}
