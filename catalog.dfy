/** The catalogue of game modes, the cards rendered from it and the lookup a
    card click performs (createCards in script.js). */
module Catalog {

  datatype Option<T> = None | Some(value: T)

  /** One record of the catalogue, with the field names of the data file. */
  datatype ModeRecord = ModeRecord(nome: string, descricao: string, link: string, imagens: seq<string>)

  /** A rendered card: the record's name stored as the card's identity key,
      and the cover picture (the record's first image; None where the record
      has no image and the browser would show `undefined`). */
  datatype Card = Card(modeName: string, cover: Option<string>)

  function CardOf(m: ModeRecord): (c: Card)
    ensures c.modeName == m.nome
    ensures c.cover == if |m.imagens| > 0 then Some(m.imagens[0]) else None
  {
    Card(m.nome, if |m.imagens| > 0 then Some(m.imagens[0]) else None)
  }

  /** The list createCards walks: the data once, or twice back to back for
      the endless carousel. Card k of either copy shows record k mod N. */
  function RenderList(data: seq<ModeRecord>, duplicate: bool): (r: seq<ModeRecord>)
    ensures |r| == if duplicate then 2 * |data| else |data|
    ensures forall k :: 0 <= k < |r| ==> r[k] == data[k % |data|]
    ensures !duplicate ==> r == data
  {
    if duplicate then data + data else data
  }

  /** The cards rendered for a list of records, one per record, in order. */
  function CardsOf(items: seq<ModeRecord>): (cs: seq<Card>)
    ensures |cs| == |items|
    ensures forall k :: 0 <= k < |cs| ==> cs[k].modeName == items[k].nome
    ensures forall k :: 0 <= k < |cs| ==>
      cs[k].cover == if |items[k].imagens| > 0 then Some(items[k].imagens[0]) else None
  {
    seq(|items|, k requires 0 <= k < |items| => CardOf(items[k]))
  }

  /** The identity keys of a list of cards. */
  function Keys(cs: seq<Card>): (ks: seq<string>)
    ensures |ks| == |cs|
  {
    seq(|cs|, k requires 0 <= k < |cs| => cs[k].modeName)
  }

  /** The names of a list of records. */
  function Names(data: seq<ModeRecord>): (ns: seq<string>)
    ensures |ns| == |data|
  {
    seq(|data|, k requires 0 <= k < |data| => data[k].nome)
  }

  /** Array.prototype.find with the predicate `m.nome === name`: the first
      record carrying that name, or nothing when no record does. */
  function Find(data: seq<ModeRecord>, name: string): (r: Option<ModeRecord>)
    ensures r.None? <==> forall i :: 0 <= i < |data| ==> data[i].nome != name
    ensures r.Some? ==> exists i :: 0 <= i < |data| && data[i] == r.value && IsFirstNamed(data, name, i)
  {
    if |data| == 0 then None
    else if data[0].nome == name then
      assert IsFirstNamed(data, name, 0);
      Some(data[0])
    else
      var rest := Find(data[1..], name);
      assert rest.Some? ==> exists i :: 0 <= i < |data| && data[i] == rest.value && IsFirstNamed(data, name, i) by {
        if rest.Some? {
          var i :| 0 <= i < |data[1..]| && data[1..][i] == rest.value && IsFirstNamed(data[1..], name, i);
          assert IsFirstNamed(data, name, i + 1);
        }
      }
      rest
  }

  /** Index i holds the first record named `name`. */
  ghost predicate IsFirstNamed(data: seq<ModeRecord>, name: string, i: int)
  {
    0 <= i < |data| && data[i].nome == name &&
    forall j :: 0 <= j < i ==> data[j].nome != name
  }

  /** Names are unique in the catalogue (assumed, never enforced). */
  ghost predicate UniqueNames(data: seq<ModeRecord>)
  {
    forall i, j :: 0 <= i < j < |data| ==> data[i].nome != data[j].nome
  }

  /** A duplicated render is 2N cards whose keys are the N names twice over. */
  lemma DuplicatedKeys(data: seq<ModeRecord>)
    ensures Keys(CardsOf(RenderList(data, true))) == Names(data) + Names(data)
  {
    var ks := Keys(CardsOf(RenderList(data, true)));
    var ns := Names(data) + Names(data);
    forall k | 0 <= k < |ks|
      ensures ks[k] == ns[k]
    {
      if k >= |data| {
        assert k % |data| == k - |data|;
      }
    }
  }

  /** A render without duplication has exactly the records' names, in order. */
  lemma SingleKeys(data: seq<ModeRecord>)
    ensures Keys(CardsOf(RenderList(data, false))) == Names(data)
  {
  }

  /** Whatever list was rendered, a click on a card whose record is still in
      the full catalogue opens a record of that name; when names are unique
      it is the very record the card was built from. */
  lemma ClickResolvesToRecord(data: seq<ModeRecord>, items: seq<ModeRecord>, k: int)
    requires forall m :: m in items ==> m in data
    requires 0 <= k < |items|
    ensures Find(data, CardsOf(items)[k].modeName).Some?
    ensures Find(data, CardsOf(items)[k].modeName).value.nome == items[k].nome
    ensures UniqueNames(data) ==> Find(data, CardsOf(items)[k].modeName) == Some(items[k])
  {
    var name := CardsOf(items)[k].modeName;
    assert items[k] in data;
    var w :| 0 <= w < |data| && data[w] == items[k];
    var r := Find(data, name);
    var i :| 0 <= i < |data| && data[i] == r.value && IsFirstNamed(data, name, i);
    if UniqueNames(data) {
      assert i == w;
    }
  }

  /** Both copies of a card in the duplicated carousel open the same record. */
  lemma BothCopiesOpenSameRecord(data: seq<ModeRecord>, k: int)
    requires 0 <= k < |data|
    ensures CardsOf(RenderList(data, true))[k].modeName == CardsOf(RenderList(data, true))[k + |data|].modeName
    ensures Find(data, CardsOf(RenderList(data, true))[k + |data|].modeName) == Find(data, data[k].nome)
  {
    assert (k + |data|) % |data| == k;
  }
}
