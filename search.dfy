/** Client-side search (performSearch and the search input's `input`
    listener in script.js): normalise the query, filter the catalogue by
    name, and decide what createCards is asked to render. */
module Search {
  import opened Catalog

  /** ECMAScript white space and line terminators, the characters
      String.prototype.trim strips. */
  predicate IsSpace(c: char)
  {
    var n := c as int;
    n == 0x20 || 0x09 <= n <= 0x0D || n == 0xA0 || n == 0x1680 ||
    0x2000 <= n <= 0x200A || n == 0x2028 || n == 0x2029 || n == 0x202F ||
    n == 0x205F || n == 0x3000 || n == 0xFEFF
  }

  /** The upper-case letters toLowerCase maps here: A-Z and the Latin-1
      letters À-Þ except ×. */
  predicate IsUpper(c: char)
  {
    var n := c as int;
    0x41 <= n <= 0x5A || (0xC0 <= n <= 0xDE && n != 0xD7)
  }

  /** toLowerCase on one character: an upper-case letter becomes its
      lower-case partner, 0x20 code points up; every other character is
      kept. The result is never upper-case. */
  function LowerChar(c: char): (d: char)
    ensures IsUpper(c) ==> d as int == c as int + 0x20
    ensures !IsUpper(c) ==> d == c
    ensures !IsUpper(d)
    ensures IsSpace(d) <==> IsSpace(c)
  {
    if IsUpper(c) then (c as int + 0x20) as char else c
  }

  function Lower(s: string): (t: string)
    ensures |t| == |s|
    ensures forall i :: 0 <= i < |s| ==> t[i] == LowerChar(s[i])
  {
    seq(|s|, i requires 0 <= i < |s| => LowerChar(s[i]))
  }

  /** Lower-casing twice is lower-casing once. */
  lemma LowerIdempotent(s: string)
    ensures Lower(Lower(s)) == Lower(s)
  {
    var t := Lower(s);
    forall i | 0 <= i < |s|
      ensures Lower(t)[i] == t[i]
    {
      assert t[i] == LowerChar(s[i]);
    }
  }

  function TrimStart(s: string): (t: string)
    ensures |t| <= |s| && t == s[|s| - |t|..]
    ensures forall i :: 0 <= i < |s| - |t| ==> IsSpace(s[i])
    ensures |t| > 0 ==> !IsSpace(t[0])
  {
    if |s| > 0 && IsSpace(s[0]) then TrimStart(s[1..]) else s
  }

  function TrimEnd(s: string): (t: string)
    ensures |t| <= |s| && t == s[..|t|]
    ensures forall i :: |t| <= i < |s| ==> IsSpace(s[i])
    ensures |t| > 0 ==> !IsSpace(t[|t| - 1])
  {
    if |s| > 0 && IsSpace(s[|s| - 1]) then TrimEnd(s[..|s| - 1]) else s
  }

  /** String.prototype.trim: leading and trailing white space removed. */
  function Trim(s: string): string
  {
    TrimEnd(TrimStart(s))
  }

  /** The query performSearch filters with: lower-cased, then trimmed. */
  function Normalize(s: string): string
  {
    Trim(Lower(s))
  }

  /** t is s[i..j], and everything cut off on either side is white space. */
  ghost predicate CutAtSpaces(s: string, t: string, i: int, j: int)
  {
    0 <= i <= j <= |s| && t == s[i..j] &&
    (forall k :: 0 <= k < i ==> IsSpace(s[k])) &&
    (forall k :: j <= k < |s| ==> IsSpace(s[k]))
  }

  /** Trim yields a contiguous piece of its input, cut only at white space,
      with no white space left at either end. */
  lemma TrimIsTrimmedSlice(s: string)
    ensures exists i, j :: CutAtSpaces(s, Trim(s), i, j)
    ensures |Trim(s)| > 0 ==> !IsSpace(Trim(s)[0]) && !IsSpace(Trim(s)[|Trim(s)| - 1])
  {
    var u := TrimStart(s);
    var t := TrimEnd(u);
    var i := |s| - |u|;
    var j := i + |t|;
    assert u == s[i..];
    assert t == u[..|t|];
    assert t == s[i..j];
    forall k | j <= k < |s| ensures IsSpace(s[k]) {
      assert s[k] == u[k - i];
    }
    assert t == Trim(s);
    assert CutAtSpaces(s, Trim(s), i, j);
    if |t| > 0 {
      assert t[0] == u[0];
    }
  }

  /** A string trims to nothing exactly when every character is white space. */
  lemma {:induction false} TrimEmptyIff(s: string)
    ensures Trim(s) == [] <==> forall k :: 0 <= k < |s| ==> IsSpace(s[k])
  {
    var u := TrimStart(s);
    if forall k :: 0 <= k < |s| ==> IsSpace(s[k]) {
      BlankTrimsStartToEmpty(s);
    } else if |u| == 0 {
    } else {
      assert !IsSpace(u[0]);
      assert |TrimEnd(u)| > 0;
    }
  }

  lemma {:induction false} BlankTrimsStartToEmpty(s: string)
    requires forall k :: 0 <= k < |s| ==> IsSpace(s[k])
    ensures TrimStart(s) == []
    decreases |s|
  {
    if |s| > 0 {
      assert IsSpace(s[0]);
      BlankTrimsStartToEmpty(s[1..]);
    }
  }

  /** Lower-casing does not change whether a string is blank, so the
      normalised query is empty exactly when the raw input trims to empty. */
  lemma NormalizeEmptyIff(s: string)
    ensures Normalize(s) == [] <==> Trim(s) == []
  {
    TrimEmptyIff(s);
    TrimEmptyIff(Lower(s));
  }

  /** String.prototype.includes: q occurs somewhere in s (the empty string
      occurs everywhere). */
  function Contains(s: string, q: string): bool
  {
    q <= s || (|s| > 0 && Contains(s[1..], q))
  }

  /** q occurs in s starting at index i. */
  ghost predicate OccursAt(s: string, q: string, i: int)
  {
    0 <= i && i + |q| <= |s| && s[i..i + |q|] == q
  }

  /** Contains agrees with the definition by an occurrence index. */
  lemma ContainsIff(s: string, q: string)
    ensures Contains(s, q) <==> exists i :: OccursAt(s, q, i)
  {
    if Contains(s, q) {
      ContainsHasOccurrence(s, q);
    }
    forall i | OccursAt(s, q, i)
      ensures Contains(s, q)
    {
      OccurrenceIsContained(s, q, i);
    }
  }

  lemma {:induction false} ContainsHasOccurrence(s: string, q: string)
    requires Contains(s, q)
    ensures exists i :: OccursAt(s, q, i)
  {
    if q <= s {
      assert OccursAt(s, q, 0);
    } else {
      ContainsHasOccurrence(s[1..], q);
      var i :| OccursAt(s[1..], q, i);
      SliceOfTail(s, i + 1, |q|);
      assert OccursAt(s, q, i + 1);
    }
  }

  lemma {:induction false} OccurrenceIsContained(s: string, q: string, i: int)
    requires OccursAt(s, q, i)
    ensures Contains(s, q)
    decreases i
  {
    if i > 0 {
      SliceOfTail(s, i, |q|);
      OccurrenceIsContained(s[1..], q, i - 1);
    } else {
      assert s[..|q|] == q;
    }
  }

  lemma SliceOfTail(s: string, i: int, n: int)
    requires 1 <= i && 0 <= n && i + n <= |s|
    ensures s[1..][i - 1..i - 1 + n] == s[i..i + n]
  {
  }

  /** The filter predicate of performSearch: the lower-cased name contains
      the query. */
  predicate NameMatches(m: ModeRecord, q: string)
  {
    Contains(Lower(m.nome), q)
  }

  /** a is a subsequence of b: the filter keeps the catalogue's order. */
  predicate IsSubsequence<T(==)>(a: seq<T>, b: seq<T>)
  {
    if |a| == 0 then true
    else if |b| == 0 then false
    else if a[0] == b[0] then IsSubsequence(a[1..], b[1..])
    else IsSubsequence(a, b[1..])
  }

  /** Every element of a subsequence is an element of the whole. */
  lemma {:induction false} SubsequenceMembers<T>(a: seq<T>, b: seq<T>)
    requires IsSubsequence(a, b)
    ensures forall x :: x in a ==> x in b
  {
    if |a| > 0 && |b| > 0 {
      if a[0] == b[0] {
        SubsequenceMembers(a[1..], b[1..]);
        assert forall x :: x in a ==> x == a[0] || x in a[1..];
      } else {
        SubsequenceMembers(a, b[1..]);
      }
    }
  }

  /** Array.prototype.filter with NameMatches: the matching records, in
      catalogue order, and no other. */
  function FilterByName(data: seq<ModeRecord>, q: string): (r: seq<ModeRecord>)
    ensures forall m :: m in r <==> m in data && NameMatches(m, q)
    ensures IsSubsequence(r, data)
    ensures |r| == 0 <==> forall i :: 0 <= i < |data| ==> !NameMatches(data[i], q)
  {
    if |data| == 0 then []
    else
      var rest := FilterByName(data[1..], q);
      assert forall m :: m in data <==> m == data[0] || m in data[1..];
      if NameMatches(data[0], q) then [data[0]] + rest else rest
  }

  /** The filter keeps every copy of a matching record, as many times as
      the catalogue holds it, and no copy of any other record. */
  lemma {:induction false} FilterKeepsEveryCopy(data: seq<ModeRecord>, q: string)
    ensures forall m :: multiset(FilterByName(data, q))[m] == if NameMatches(m, q) then multiset(data)[m] else 0
  {
    if |data| > 0 {
      FilterKeepsEveryCopy(data[1..], q);
      assert data == [data[0]] + data[1..];
    }
  }

  /** What performSearch and the input listener ask createCards to do. */
  datatype RenderRequest = RenderRequest(items: seq<ModeRecord>, duplicate: bool)

  /** performSearch: a non-empty query with at least one match renders the
      matches once; anything else renders the whole catalogue duplicated. */
  function PerformSearch(input: string, data: seq<ModeRecord>): (r: RenderRequest)
    ensures r.duplicate ==> r.items == data
    ensures !r.duplicate ==> |r.items| > 0 && IsSubsequence(r.items, data)
    ensures r.duplicate <==> Trim(input) == [] || forall i :: 0 <= i < |data| ==> !NameMatches(data[i], Normalize(input))
  {
    NormalizeEmptyIff(input);
    var q := Normalize(input);
    var filtered := FilterByName(data, q);
    if q != [] && |filtered| > 0 then RenderRequest(filtered, false)
    else RenderRequest(data, true)
  }

  /** The `input` listener: a value that trims to nothing re-renders the
      whole catalogue duplicated; any other value leaves the cards alone. */
  function OnInput(value: string, data: seq<ModeRecord>): (r: Option<RenderRequest>)
    ensures r.Some? <==> forall k :: 0 <= k < |value| ==> IsSpace(value[k])
    ensures r.Some? ==> r.value == RenderRequest(data, true)
  {
    TrimEmptyIff(value);
    if Trim(value) == [] then Some(RenderRequest(data, true)) else None
  }

  /** An empty or blank query always shows the full duplicated catalogue,
      whatever was shown before. */
  lemma BlankSearchShowsAll(input: string, data: seq<ModeRecord>)
    requires forall k :: 0 <= k < |input| ==> IsSpace(input[k])
    ensures PerformSearch(input, data) == RenderRequest(data, true)
  {
    TrimEmptyIff(input);
  }

  /** A query that no name contains shows the full duplicated catalogue,
      never an empty list. */
  lemma NoMatchShowsAll(input: string, data: seq<ModeRecord>)
    requires forall m :: m in data ==> !Contains(Lower(m.nome), Normalize(input))
    ensures PerformSearch(input, data) == RenderRequest(data, true)
  {
  }

  /** A non-blank query that some name contains shows exactly the matching
      records, in catalogue order, once. */
  lemma MatchShowsExactlyMatches(input: string, data: seq<ModeRecord>, i: int)
    requires Trim(input) != []
    requires 0 <= i < |data| && NameMatches(data[i], Normalize(input))
    ensures !PerformSearch(input, data).duplicate
    ensures forall m :: m in PerformSearch(input, data).items <==> m in data && NameMatches(m, Normalize(input))
    ensures forall m :: multiset(PerformSearch(input, data).items)[m] ==
                        if NameMatches(m, Normalize(input)) then multiset(data)[m] else 0
    ensures IsSubsequence(PerformSearch(input, data).items, data)
  {
    NormalizeEmptyIff(input);
    FilterKeepsEveryCopy(data, Normalize(input));
  }

  /** The search ignores case: typing the query in upper or lower case
      renders the same cards. */
  lemma SearchIgnoresCase(input: string, data: seq<ModeRecord>)
    ensures PerformSearch(Lower(input), data) == PerformSearch(input, data)
  {
    LowerIdempotent(input);
    assert Normalize(Lower(input)) == Normalize(input);
  }

  /** Every search renders something unless the catalogue itself is empty. */
  lemma SearchNeverRendersNothing(input: string, data: seq<ModeRecord>)
    requires |data| > 0
    ensures |CardsOf(RenderList(PerformSearch(input, data).items, PerformSearch(input, data).duplicate))| > 0
  {
  }

  /** Clearing the input renders just what a search for the cleared text
      would render. */
  lemma ClearingAgreesWithSearch(value: string, data: seq<ModeRecord>)
    requires OnInput(value, data).Some?
    ensures OnInput(value, data).value == PerformSearch(value, data)
  {
    TrimEmptyIff(value);
  }
}
