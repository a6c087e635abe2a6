/**
 * The content store's two derived operations: the visible list for a
 * selection, and deletion by id (which hands the state holder a new,
 * filtered array rather than changing the old one).
 */
module Store {
  import opened Seqs
  import opened Content

  /** Whether an item is shown under a selection. */
  predicate Selects(sel: Selection, x: ContentItem) {
    match sel
    case All => true
    case Only(t) => x.kind == t
  }

  /** The filter callback `item => item.type === t`. */
  function HasKind(t: ContentType): ContentItem -> bool {
    (x: ContentItem) => x.kind == t
  }

  /** The filter callback `item => item.id !== id`. */
  function IdIsNot(id: string): ContentItem -> bool {
    (x: ContentItem) => x.id != id
  }

  /**
   * The visible list: the store itself under "all", otherwise the store
   * filtered by content type.
   */
  function Visible(s: seq<ContentItem>, sel: Selection): (r: seq<ContentItem>)
    ensures sel == All ==> r == s
    ensures forall i :: 0 <= i < |r| ==> r[i] in s && Selects(sel, r[i])
    ensures forall i :: 0 <= i < |s| && Selects(sel, s[i]) ==> s[i] in r
  {
    if sel == All then s else Filter(s, HasKind(sel.kind))
  }

  /**
   * The visible list is exactly the selected part of the store: an
   * order-preserving subsequence holding every selected item as often as
   * the store does, and nothing else.
   */
  lemma VisibleExact(s: seq<ContentItem>, sel: Selection)
    ensures SubsequenceOf(Visible(s, sel), s)
    ensures forall x :: multiset(Visible(s, sel))[x] == if Selects(sel, x) then multiset(s)[x] else 0
  {
    if sel == All {
      SubsequenceOfSelf(s);
    } else {
      FilterIsSubsequence(s, HasKind(sel.kind));
      FilterMultiplicity(s, HasKind(sel.kind));
    }
  }

  /** Applying the same selection to the visible list changes nothing. */
  lemma VisibleIdempotent(s: seq<ContentItem>, sel: Selection)
    ensures Visible(Visible(s, sel), sel) == Visible(s, sel)
  {
    if sel.Only? {
      FilterIdempotent(s, HasKind(sel.kind));
    }
  }

  /** Deleting an id: every item carrying that id goes, all others stay in order. */
  function Delete(s: seq<ContentItem>, id: string): (r: seq<ContentItem>)
    ensures forall i :: 0 <= i < |r| ==> r[i] in s && r[i].id != id
    ensures forall i :: 0 <= i < |s| && s[i].id != id ==> s[i] in r
  {
    Filter(s, IdIsNot(id))
  }

  /** How many items of `s` carry `id`. */
  function Occurrences(s: seq<ContentItem>, id: string): nat {
    if s == [] then 0 else (if s[0].id == id then 1 else 0) + Occurrences(s[1..], id)
  }

  /**
   * Deletion shortens the store by the number of items carrying the id,
   * keeps the survivors in order and drops only items with that id.
   */
  lemma {:induction false} DeleteExact(s: seq<ContentItem>, id: string)
    ensures |Delete(s, id)| == |s| - Occurrences(s, id)
    ensures SubsequenceOf(Delete(s, id), s)
    ensures forall x :: multiset(Delete(s, id))[x] == if x.id != id then multiset(s)[x] else 0
    decreases |s|
  {
    FilterIsSubsequence(s, IdIsNot(id));
    FilterMultiplicity(s, IdIsNot(id));
    if s != [] {
      DeleteExact(s[1..], id);
    }
  }

  /** The filter callback `item => item.id === id`: the items a delete removes. */
  function IdIs(id: string): ContentItem -> bool {
    (x: ContentItem) => x.id == id
  }

  /** Every item either survives a delete or is one of the items carrying the id. */
  lemma DeleteSplit(s: seq<ContentItem>, id: string)
    ensures |Delete(s, id)| + |Filter(s, IdIs(id))| == |s|
    ensures forall i :: 0 <= i < |Filter(s, IdIs(id))| ==> Filter(s, IdIs(id))[i].id == id
  {
    FilterPartition(s, IdIsNot(id), IdIs(id));
  }

  /** Deleting an id that no item carries leaves the store identical. */
  lemma DeleteAbsent(s: seq<ContentItem>, id: string)
    requires forall i :: 0 <= i < |s| ==> s[i].id != id
    ensures Delete(s, id) == s
  {
    FilterKeepsAll(s, IdIsNot(id));
  }

  /** Deleting twice is deleting once. */
  lemma DeleteIdempotent(s: seq<ContentItem>, id: string)
    ensures Delete(Delete(s, id), id) == Delete(s, id)
  {
    FilterIdempotent(s, IdIsNot(id));
  }

  /**
   * In a store with unique ids, deleting the id of item `i` removes exactly
   * that item: the store shrinks by one and everything else is kept in order.
   */
  lemma DeleteUnique(s: seq<ContentItem>, i: nat)
    requires DistinctIds(s)
    requires i < |s|
    ensures Delete(s, s[i].id) == s[..i] + s[i + 1..]
    ensures |Delete(s, s[i].id)| == |s| - 1
  {
    var id := s[i].id;
    assert s == s[..i] + ([s[i]] + s[i + 1..]);
    FilterAppend(s[..i], [s[i]] + s[i + 1..], IdIsNot(id));
    FilterAppend([s[i]], s[i + 1..], IdIsNot(id));
    DeleteAbsent(s[..i], id);
    DeleteAbsent(s[i + 1..], id);
    assert Filter([s[i]], IdIsNot(id)) == [];
  }

  /** Deletion keeps ids unique. */
  lemma {:induction false} DeleteKeepsDistinct(s: seq<ContentItem>, id: string)
    requires DistinctIds(s)
    ensures DistinctIds(Delete(s, id))
    decreases |s|
  {
    if s != [] {
      DeleteKeepsDistinct(s[1..], id);
      var rest := Delete(s[1..], id);
      var r := Delete(s, id);
      if s[0].id != id {
        assert r == [s[0]] + rest;
        forall j | 0 <= j < |rest| ensures rest[j].id != s[0].id {
          var k :| 0 <= k < |s[1..]| && s[1..][k] == rest[j];
          assert s[k + 1] == rest[j];
        }
        forall a, b | 0 <= a < b < |r| ensures r[a].id != r[b].id {
          if a > 0 {
            assert r[a] == rest[a - 1] && r[b] == rest[b - 1];
          } else {
            assert r[b] == rest[b - 1];
          }
        }
      }
    }
  }

  /** Deleting and then filtering is filtering and then deleting. */
  lemma VisibleAfterDelete(s: seq<ContentItem>, id: string, sel: Selection)
    ensures Visible(Delete(s, id), sel) == Delete(Visible(s, sel), id)
  {
    if sel.Only? {
      FilterCommutes(s, IdIsNot(id), HasKind(sel.kind));
    }
  }

  /** A six-item store typed like the seed keeps its first and last item under "article". */
  lemma ArticlesOfSeedShape(s: seq<ContentItem>)
    requires |s| == 6
    requires s[0].kind == Article && s[1].kind == Tweet && s[2].kind == Video
    requires s[3].kind == Audio && s[4].kind == Bookmark && s[5].kind == Article
    ensures Visible(s, Only(Article)) == [s[0], s[5]]
  {
    var p := HasKind(Article);
    assert s[5..][1..] == [];
    assert Filter(s[5..], p) == [s[5]];
    assert s[4..][1..] == s[5..];
    assert Filter(s[4..], p) == [s[5]];
    assert s[3..][1..] == s[4..];
    assert Filter(s[3..], p) == [s[5]];
    assert s[2..][1..] == s[3..];
    assert Filter(s[2..], p) == [s[5]];
    assert s[1..][1..] == s[2..];
    assert Filter(s[1..], p) == [s[5]];
  }

  /** Under the seed store, selecting "article" shows ids "1" and "6", in that order. */
  lemma SeedArticles()
    ensures Ids(Visible(MockContent(), Only(Article))) == ["1", "6"]
  {
    MockContentIds();
    MockContentKinds();
    var s := MockContent();
    ArticlesOfSeedShape(s);
  }

  /** In a store with ids "1" to "6", deleting "3" leaves the other five, in order. */
  lemma DeleteThreeOfSeedShape(s: seq<ContentItem>)
    requires |s| == 6
    requires s[0].id == "1" && s[1].id == "2" && s[2].id == "3"
    requires s[3].id == "4" && s[4].id == "5" && s[5].id == "6"
    ensures Delete(s, "3") == [s[0], s[1], s[3], s[4], s[5]]
  {
    assert DistinctIds(s);
    DeleteUnique(s, 2);
    assert s[..2] + s[3..] == [s[0], s[1], s[3], s[4], s[5]];
  }

  /**
   * Deleting id "3" from the seed store leaves the other five seed items
   * (ids "1", "2", "4", "5", "6"), in their original order.
   */
  lemma SeedDeleteThree()
    ensures var s := MockContent();
      Delete(s, "3") == [s[0], s[1], s[3], s[4], s[5]]
  {
    var s := MockContent();
    assert s[0].id == "1" && s[1].id == "2" && s[2].id == "3";
    assert s[3].id == "4" && s[4].id == "5" && s[5].id == "6";
    DeleteThreeOfSeedShape(s);
  }
}
