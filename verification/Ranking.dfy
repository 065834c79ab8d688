/**
 The sorted set a leaf keeps its ads in: one entry per id, in the order of
 (CreatedAt, id), read by rank.
 */
module Ranking {
  import opened AdModel

  predicate Before(a: Ad, b: Ad) {
    a.createdAt < b.createdAt || (a.createdAt == b.createdAt && a.id < b.id)
  }

  ghost predicate Sorted(s: seq<Ad>) {
    forall i, j | 0 <= i < j < |s| :: Before(s[i], s[j])
  }

  ghost predicate UniqueIds(S: set<Ad>) {
    forall a, b | a in S && b in S && a.id == b.id :: a == b
  }

  ghost function Elems(s: seq<Ad>): set<Ad> {
    set a | a in s
  }

  ghost predicate Ranked(s: seq<Ad>) {
    Sorted(s) && UniqueIds(Elems(s))
  }

  function Remove(s: seq<Ad>, id: AdID): seq<Ad> {
    if s == [] then [] else (if s[0].id == id then [] else [s[0]]) + Remove(s[1..], id)
  }

  function Insert(s: seq<Ad>, ad: Ad): seq<Ad> {
    if s == [] then [ad]
    else if Before(ad, s[0]) then [ad] + s
    else [s[0]] + Insert(s[1..], ad)
  }

  /** AddOrUpdate of the sorted set: the entry for the ad's id becomes this ad. */
  function AddOrUpdate(s: seq<Ad>, ad: Ad): seq<Ad> {
    Insert(Remove(s, ad.id), ad)
  }

  /** S with the ad in place of any ad of the same id. */
  ghost function Replace(S: set<Ad>, ad: Ad): set<Ad> {
    Without(S, ad.id) + {ad}
  }

  ghost function Without(S: set<Ad>, id: AdID): set<Ad> {
    set a | a in S && a.id != id
  }

  lemma SortedTail(s: seq<Ad>)
    requires Sorted(s) && s != []
    ensures Sorted(s[1..]) && Elems(s) == {s[0]} + Elems(s[1..])
    ensures forall a | a in s[1..] :: Before(s[0], a)
  {
    assert s == [s[0]] + s[1..];
  }

  lemma SortedCons(ad: Ad, s: seq<Ad>)
    requires Sorted(s)
    requires forall a | a in Elems(s) :: Before(ad, a)
    ensures Sorted([ad] + s) && Elems([ad] + s) == {ad} + Elems(s)
  {
    forall i | 0 <= i < |s| ensures Before(ad, s[i]) {
      assert s[i] in Elems(s);
    }
  }

  lemma {:induction false} RemoveElems(s: seq<Ad>, id: AdID)
    requires Sorted(s)
    ensures Sorted(Remove(s, id)) && Elems(Remove(s, id)) == Without(Elems(s), id)
  {
    if s != [] {
      SortedTail(s);
      RemoveElems(s[1..], id);
      var r := Remove(s[1..], id);
      if s[0].id != id {
        SortedCons(s[0], r);
      } else {
        assert Remove(s, id) == r;
      }
    }
  }

  lemma {:induction false} InsertElems(s: seq<Ad>, ad: Ad)
    requires Sorted(s)
    requires forall a | a in Elems(s) :: a.id != ad.id
    ensures Sorted(Insert(s, ad)) && Elems(Insert(s, ad)) == Elems(s) + {ad}
  {
    if s != [] {
      SortedTail(s);
      assert s[0] in Elems(s);
      if Before(ad, s[0]) {
        SortedCons(ad, s);
      } else {
        InsertElems(s[1..], ad);
        SortedCons(s[0], Insert(s[1..], ad));
      }
    }
  }

  /** A leaf stays ranked, and holds what it held with the ad in place of its id's entry. */
  lemma AddOrUpdateElems(s: seq<Ad>, ad: Ad)
    requires Ranked(s)
    ensures Ranked(AddOrUpdate(s, ad)) && Elems(AddOrUpdate(s, ad)) == Replace(Elems(s), ad)
  {
    RemoveElems(s, ad.id);
    InsertElems(Remove(s, ad.id), ad);
  }

  lemma RemoveRanked(s: seq<Ad>, id: AdID)
    requires Ranked(s)
    ensures Ranked(Remove(s, id)) && Elems(Remove(s, id)) == Without(Elems(s), id)
  {
    RemoveElems(s, id);
  }

  /** The order leaves no choice: a set of ads has at most one sorted sequence. */
  lemma {:induction false} SortedUnique(s: seq<Ad>, t: seq<Ad>)
    requires Sorted(s) && Sorted(t) && Elems(s) == Elems(t)
    ensures s == t
  {
    assert t != [] ==> t[0] in Elems(t);
    if s != [] {
      assert s[0] in Elems(s);
      SortedTail(s);
      SortedTail(t);
      assert s[0] == t[0];
      assert s[0] !in s[1..] && t[0] !in t[1..];
      assert Elems(s[1..]) == Elems(s) - {s[0]};
      assert Elems(t[1..]) == Elems(t) - {t[0]};
      SortedUnique(s[1..], t[1..]);
    }
  }

  lemma UpdateIdempotent(s: seq<Ad>, ad: Ad)
    requires Ranked(s)
    ensures AddOrUpdate(AddOrUpdate(s, ad), ad) == AddOrUpdate(s, ad)
  {
    AddOrUpdateElems(s, ad);
    AddOrUpdateElems(AddOrUpdate(s, ad), ad);
    assert Replace(Replace(Elems(s), ad), ad) == Replace(Elems(s), ad);
    SortedUnique(AddOrUpdate(AddOrUpdate(s, ad), ad), AddOrUpdate(s, ad));
  }

  lemma UpdatesCommute(s: seq<Ad>, a: Ad, b: Ad)
    requires Ranked(s) && a.id != b.id
    ensures AddOrUpdate(AddOrUpdate(s, a), b) == AddOrUpdate(AddOrUpdate(s, b), a)
  {
    AddOrUpdateElems(s, a);
    AddOrUpdateElems(s, b);
    AddOrUpdateElems(AddOrUpdate(s, a), b);
    AddOrUpdateElems(AddOrUpdate(s, b), a);
    assert Replace(Replace(Elems(s), a), b) == Replace(Replace(Elems(s), b), a);
    SortedUnique(AddOrUpdate(AddOrUpdate(s, a), b), AddOrUpdate(AddOrUpdate(s, b), a));
  }

  lemma RemoveUndoesUpdate(s: seq<Ad>, ad: Ad)
    requires Ranked(s) && forall a | a in Elems(s) :: a.id != ad.id
    ensures Remove(AddOrUpdate(s, ad), ad.id) == s
  {
    AddOrUpdateElems(s, ad);
    RemoveElems(AddOrUpdate(s, ad), ad.id);
    assert Without(Replace(Elems(s), ad), ad.id) == Elems(s);
    SortedUnique(Remove(AddOrUpdate(s, ad), ad.id), s);
  }

  lemma RemoveTwice(s: seq<Ad>, id: AdID)
    requires Ranked(s)
    ensures Remove(Remove(s, id), id) == Remove(s, id)
  {
    RemoveElems(s, id);
    RemoveElems(Remove(s, id), id);
    assert Without(Without(Elems(s), id), id) == Without(Elems(s), id);
    SortedUnique(Remove(Remove(s, id), id), Remove(s, id));
  }

  /** The reference: the ads of S in the order of (CreatedAt, id). */
  ghost function SortedAds(S: set<Ad>): (s: seq<Ad>)
    requires UniqueIds(S)
    ensures Ranked(s) && Elems(s) == S
  {
    if S == {} then []
    else
      var ad :| ad in S;
      var rest := SortedAds(S - {ad});
      InsertElems(rest, ad);
      Insert(rest, ad)
  }

  /**
   GetByRankRange(start, end, false) for 0 <= start < end: ranks are 1-based and
   inclusive, and rank 0 means rank 1.
   */
  function RankRange(s: seq<Ad>, start: int, end: int): seq<Ad>
    requires 0 <= start < end
  {
    var from := if start == 0 then 0 else start - 1;
    var to := if end < |s| then end else |s|;
    if from < to then s[from..to] else []
  }

  function Page(s: seq<Ad>, req: Request): seq<Ad>
    requires WellFormed(req)
  {
    RankRange(s, req.offset, req.offset + req.limit)
  }

  lemma PageRanked(s: seq<Ad>, req: Request)
    requires Ranked(s) && WellFormed(req)
    ensures Ranked(Page(s, req)) && |Page(s, req)| <= req.limit + 1
    ensures req.offset == 0 ==> |Page(s, req)| <= req.limit
  {
    forall a | a in Page(s, req) ensures a in Elems(s) {}
    assert Elems(Page(s, req)) <= Elems(s);
  }

  /** A page is fixed by what it holds: the ads whose 1-based rank is from offset to offset + limit, in order. */
  ghost predicate HoldsRanks(s: seq<Ad>, first: int, last: int, page: seq<Ad>) {
    && Ranked(page) && (forall a | a in page :: a in s)
    && (forall i | 0 <= i < |s| :: s[i] in page <==> first <= i + 1 <= last)
  }

  lemma PageHoldsRanks(s: seq<Ad>, req: Request)
    requires Ranked(s) && WellFormed(req)
    ensures HoldsRanks(s, req.offset, req.offset + req.limit, Page(s, req))
  {
    var p := Page(s, req);
    PageRanked(s, req);
    var from := if req.offset == 0 then 0 else req.offset - 1;
    forall i | 0 <= i < |s| ensures s[i] in p <==> req.offset <= i + 1 <= req.offset + req.limit {
      assert forall j | 0 <= j < |p| :: p[j] == s[from + j];
      assert forall k | 0 <= k < |s| && k != i :: if k < i then Before(s[k], s[i]) else Before(s[i], s[k]);
      if req.offset <= i + 1 <= req.offset + req.limit {
        assert p[i - from] == s[i];
      }
    }
  }

  lemma RanksArePage(s: seq<Ad>, req: Request, page: seq<Ad>)
    requires Ranked(s) && WellFormed(req) && HoldsRanks(s, req.offset, req.offset + req.limit, page)
    ensures page == Page(s, req)
  {
    var p := Page(s, req);
    PageHoldsRanks(s, req);
    forall a ensures a in page <==> a in p {
      if a in page || a in p {
        var i :| 0 <= i < |s| && s[i] == a;
        assert s[i] in page <==> s[i] in p;
      }
    }
    SortedUnique(page, p);
  }

  // The order and the page, in the ads' own fields.

  lemma {:induction false} ElemsSize(s: seq<Ad>)
    requires Sorted(s)
    ensures |Elems(s)| == |s|
  {
    if s == [] {
      assert Elems(s) == {};
    } else {
      SortedTail(s);
      ElemsSize(s[1..]);
      assert s[0] !in Elems(s[1..]);
    }
  }

  /** In a ranked sequence an ad's position is the number of ads that precede it. */
  lemma PositionIsRank(s: seq<Ad>, i: nat)
    requires Ranked(s) && i < |s|
    ensures i == |set b | b in Elems(s) && (b.createdAt < s[i].createdAt || (b.createdAt == s[i].createdAt && b.id < s[i].id))|
  {
    var front := s[..i];
    assert Sorted(front);
    ElemsSize(front);
    forall b ensures b in Elems(front) <==>
      b in Elems(s) && (b.createdAt < s[i].createdAt || (b.createdAt == s[i].createdAt && b.id < s[i].id))
    {
      if b in Elems(s) {
        var j :| 0 <= j < |s| && s[j] == b;
        if j < i {
          assert front[j] == b && Before(s[j], s[i]);
        } else if i < j {
          assert Before(s[i], s[j]);
        }
      }
    }
    assert Elems(front) == set b | b in Elems(s) && (b.createdAt < s[i].createdAt || (b.createdAt == s[i].createdAt && b.id < s[i].id));
  }

  /**
   The naive page of a set of ads, by CreatedAt and then id: in that order, and holding
   an ad exactly when one more than the number of ads that precede it is from offset
   to offset + limit.
   */
  lemma PageInFields(S: set<Ad>, req: Request)
    requires UniqueIds(S) && WellFormed(req)
    ensures var page := Page(SortedAds(S), req);
      && (forall i, j | 0 <= i < j < |page| ::
            page[i].createdAt < page[j].createdAt || (page[i].createdAt == page[j].createdAt && page[i].id < page[j].id))
      && (forall a | a in page :: a in S)
      && (forall a | a in S ::
            var rank := 1 + |set b | b in S && (b.createdAt < a.createdAt || (b.createdAt == a.createdAt && b.id < a.id))|;
            a in page <==> req.offset <= rank <= req.offset + req.limit)
  {
    var s := SortedAds(S);
    var page := Page(s, req);
    PageHoldsRanks(s, req);
    forall i, j | 0 <= i < j < |page|
      ensures page[i].createdAt < page[j].createdAt || (page[i].createdAt == page[j].createdAt && page[i].id < page[j].id)
    {
      assert Before(page[i], page[j]);
    }
    assert forall a | a in page :: a in Elems(s);
    forall a | a in S
      ensures
        var rank := 1 + |set b | b in S && (b.createdAt < a.createdAt || (b.createdAt == a.createdAt && b.id < a.id))|;
        a in page <==> req.offset <= rank <= req.offset + req.limit
    {
      assert a in Elems(s);
      var i :| 0 <= i < |s| && s[i] == a;
      PositionIsRank(s, i);
      assert s[i] in page <==> req.offset <= i + 1 <= req.offset + req.limit;
    }
  }

  /** The first page leaves off no ad that precedes one on it. */
  lemma FirstPage(S: set<Ad>, req: Request, a: Ad, b: Ad)
    requires UniqueIds(S) && WellFormed(req) && req.offset == 0
    requires a in Page(SortedAds(S), req) && b in S && b !in Page(SortedAds(S), req)
    ensures a.createdAt < b.createdAt || (a.createdAt == b.createdAt && a.id < b.id)
  {
    PageInFields(S, req);
    var beforeA := set c | c in S && (c.createdAt < a.createdAt || (c.createdAt == a.createdAt && c.id < a.id));
    var beforeB := set c | c in S && (c.createdAt < b.createdAt || (c.createdAt == b.createdAt && c.id < b.id));
    if !(a.createdAt < b.createdAt || (a.createdAt == b.createdAt && a.id < b.id)) {
      assert beforeB <= beforeA;
      SubsetSize(beforeB, beforeA);
    }
  }

  lemma SubsetSize<T>(a: set<T>, b: set<T>)
    requires a <= b
    ensures |a| <= |b|
  {
    assert b == a + (b - a);
  }

  /** An update is fixed by what it leaves. */
  lemma UpdateFixed(s: seq<Ad>, ad: Ad, t: seq<Ad>)
    requires Ranked(s) && Ranked(t) && Elems(t) == Replace(Elems(s), ad)
    ensures t == AddOrUpdate(s, ad)
  {
    AddOrUpdateElems(s, ad);
    SortedUnique(t, AddOrUpdate(s, ad));
  }

  lemma RemoveFixed(s: seq<Ad>, id: AdID, t: seq<Ad>)
    requires Ranked(s) && Ranked(t) && Elems(t) == Without(Elems(s), id)
    ensures t == Remove(s, id)
  {
    RemoveRanked(s, id);
    SortedUnique(t, Remove(s, id));
  }

  /**
   Walking the offset by the limit from 0: the ad at position i is on page
   i / limit, so no ad is missed; and it is on exactly one other page, the next,
   when it is the last of its page.
   */
  lemma WalkCovers(s: seq<Ad>, req: Request, i: nat, page: nat)
    requires Ranked(s) && i < |s| && req.limit >= 1
    ensures s[i] in Page(s, req.(offset := page * req.limit)) <==>
      page == i / req.limit || (i + 1) == page * req.limit
  {
    var limit := req.limit;
    var o := page * limit;
    DivBounds(i, limit, page);
    var p := Page(s, req.(offset := o));
    var from := if o == 0 then 0 else o - 1;
    assert forall j | 0 <= j < |p| :: p[j] == s[from + j];
    assert forall k | 0 <= k < |s| && s[k] == s[i] :: k == i by {
      forall k | 0 <= k < |s| && k != i ensures s[k] != s[i] {
        assert if k < i then Before(s[k], s[i]) else Before(s[i], s[k]);
      }
    }
    if from <= i < o + limit {
      assert p[i - from] == s[i];
    }
  }

  lemma DivBounds(i: nat, limit: int, page: nat)
    requires limit >= 1
    ensures page * limit >= 0
    ensures page == i / limit <==> page * limit <= i < page * limit + limit
  {
    var q := i / limit;
    assert i == q * limit + i % limit;
    if page < q {
      assert page * limit + limit <= q * limit by { assert (page + 1) * limit <= q * limit; }
    } else if page > q {
      assert (q + 1) * limit <= page * limit;
    }
  }
}
