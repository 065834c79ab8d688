/**
 The mutable index (pkg/inmem/index.go): internal nodes over a map of children,
 leaves over a sorted set. Every method is proved against the tree it denotes.
 The goroutines of AddAd run one after the other here; ConcurrentAdd takes every
 other interleaving.
 */
module Index {
  import opened AdModel
  import opened Ranking
  import opened IndexTree

  class IndexLeafNode {
    var ads: seq<Ad>

    /** Sorted by (CreatedAt, id), one entry per id. */
    ghost predicate Valid()
      reads this
    {
      Ranked(ads)
    }

    constructor ()
      ensures Valid() && ads == []
    {
      ads := [];
    }

    method AddAd(ad: Ad)
      requires Valid()
      modifies this
      ensures Valid() && Elems(ads) == Replace(Elems(old(ads)), ad)
    {
      AddOrUpdateElems(ads, ad);
      ads := AddOrUpdate(ads, ad);
    }

    /** The ads ranked offset to offset + limit, counting from 1. */
    method GetAd(req: Request) returns (ret: seq<Ad>)
      requires Valid() && WellFormed(req)
      ensures HoldsRanks(ads, req.offset, req.offset + req.limit, ret)
    {
      PageHoldsRanks(ads, req);
      ret := Page(ads, req);
    }

    method DeleteAd(ad: Ad)
      requires Valid()
      modifies this
      ensures Valid() && Elems(ads) == Without(Elems(old(ads)), ad.id)
    {
      RemoveRanked(ads, ad.id);
      ads := Remove(ads, ad.id);
    }
  }

  /** What the source's interface calls reach: a node of either kind. */
  datatype IndexNode = Internal(node: IndexInternalNode) | Leaf(leaf: IndexLeafNode) {
    /** The objects of the subtree. */
    ghost function Footprint(): set<object>
      reads match this case Internal(n) => {n} case Leaf(_) => {}
    {
      match this
      case Internal(n) => n.Repr
      case Leaf(l) => {l}
    }

    /** A valid node for key k that denotes t. */
    ghost predicate Denotes(k: Option<Key>, t: Tree)
      reads (match this case Internal(n) => {n} + n.Repr case Leaf(l) => {l})
      decreases Depth(k), 2
      ensures Denotes(k, t) ==> Shaped(t, k)
    {
      match this
      case Internal(n) => k == Some(n.key) && n.Valid() && n.Contents == t
      case Leaf(l) => k == None && l.Valid() && t == LeafTree(l.ads)
    }

    method AddAd(ghost k: Option<Key>, ghost t: Tree, ad: Ad)
      requires Denotes(k, t) && Indexable(ad)
      modifies Footprint()
      ensures Denotes(k, Add(t, k, ad)) && fresh(Footprint() - old(Footprint()))
      decreases Depth(k), 3
    {
      match this
      case Internal(n) => var done := n.AddAd(ad);
      case Leaf(l) =>
        l.AddAd(ad);
        UpdateFixed(t.ads, ad, l.ads);
    }

    method GetAd(ghost k: Option<Key>, ghost t: Tree, req: Request) returns (ads: seq<Ad>)
      requires Denotes(k, t) && WellFormed(req)
      ensures ads == Page(At(t, RequestPath(req, k)), req)
      decreases Depth(k), 3
    {
      match this
      case Internal(n) => ads := n.GetAd(req);
      case Leaf(l) =>
        ads := l.GetAd(req);
        RanksArePage(l.ads, req, ads);
    }

    method DeleteAd(ghost k: Option<Key>, ghost t: Tree, ad: Ad)
      requires Denotes(k, t) && Indexable(ad)
      modifies Footprint()
      ensures Denotes(k, Del(t, k, ad)) && fresh(Footprint() - old(Footprint()))
      decreases Depth(k), 3
    {
      match this
      case Internal(n) => var done := n.DeleteAd(ad);
      case Leaf(l) =>
        l.DeleteAd(ad);
        RemoveFixed(t.ads, ad.id, l.ads);
    }
  }

  class IndexInternalNode {
    const key: Key
    var children: map<Value, IndexNode>
    ghost var Repr: set<object>
    ghost var Contents: Tree

    ghost predicate Valid()
      reads this, Repr
      decreases Depth(Some(key)), 1
      ensures Valid() ==> this in Repr && Shaped(Contents, Some(key))
    {
      && this in Repr
      && Contents.NodeTree? && Contents.children.Keys == children.Keys
      && (forall v | v in children :: ValidChild(children[v], Contents.children[v]))
      && (forall v, w | v in children && w in children && v != w ::
            children[v].Footprint() !! children[w].Footprint())
    }

    ghost predicate ValidChild(c: IndexNode, t: Tree)
      reads this, Repr
      decreases Depth(Some(key)), 0
      ensures ValidChild(c, t) ==> Shaped(t, Below(key))
    {
      && (match c case Internal(n) => n in Repr case Leaf(l) => l in Repr)
      && c.Footprint() <= Repr && this !in c.Footprint()
      && c.Denotes(Below(key), t)
    }

    constructor (key: Key)
      ensures Valid() && fresh(Repr) && this.key == key && Contents == EmptyTree(Some(key))
    {
      this.key := key;
      children := map[];
      Repr := {this};
      Contents := NodeTree(map[]);
    }

    /** A node stays valid when one child's subtree changes within its own and new objects. */
    twostate lemma ChildChanged(new v: Value, new t: Tree)
      requires old(Valid()) && v in children
      requires forall o | o in old(Repr) && o != this && !(v in old(children) && o in old(children[v].Footprint())) :: unchanged(o)
      requires children == old(children)[v := children[v]]
      requires Contents == NodeTree(old(Contents.children)[v := t])
      requires ValidChild(children[v], t)
      requires Repr == old(Repr) + children[v].Footprint()
      requires forall o | o in children[v].Footprint() ::
                 (!old(allocated(o)) || (v in old(children) && o in old(children[v].Footprint())))
      ensures Valid()
    {
      forall w | w in old(children) && w != v
        ensures ValidChild(children[w], Contents.children[w])
        ensures children[w].Footprint() == old(children[w].Footprint())
        ensures children[w].Footprint() !! children[v].Footprint()
      {
        assert old(ValidChild(children[w], Contents.children[w]));
        assert children[w] == old(children[w]);
        match children[w] {
          case Internal(n) =>
            assert old(children[w].Denotes(Below(key), Contents.children[w]));
            assert forall o | o in old(n.Repr) :: unchanged(o);
          case Leaf(l) =>
            assert unchanged(l);
        }
      }
    }

    /** The part of AddAd that makes a missing child. */
    method MakeChild(v: Value)
      requires Valid() && v !in children
      modifies this
      ensures Valid() && fresh(Repr - old(Repr)) && children.Keys == old(children.Keys) + {v}
      ensures Contents == NodeTree(old(Contents.children)[v := EmptyTree(Below(key))])
    {
      match GetNextIndexKey(Some(key)) {
        case None =>
          var l := new IndexLeafNode();
          children := children[v := Leaf(l)];
        case Some(next) =>
          var n := new IndexInternalNode(next);
          children := children[v := Internal(n)];
      }
      Repr := Repr + children[v].Footprint();
      Contents := NodeTree(Contents.children[v := EmptyTree(Below(key))]);
      ChildChanged(v, EmptyTree(Below(key)));
    }

    /** The call that a goroutine of AddAd makes on the child it got or made. */
    method Descend(v: Value, ad: Ad)
      requires Valid() && Indexable(ad) && v in children
      modifies Repr
      ensures Valid() && fresh(Repr - old(Repr))
      ensures Contents == NodeTree(old(Contents.children)[v := Add(old(Contents.children)[v], Below(key), ad)])
      decreases Depth(Some(key)), 0
    {
      ghost var subtree := Add(Contents.children[v], Below(key), ad);
      assert ValidChild(children[v], Contents.children[v]);
      children[v].AddAd(Below(key), Contents.children[v], ad);
      Repr := Repr + children[v].Footprint();
      Contents := NodeTree(Contents.children[v := subtree]);
      assert ValidChild(children[v], subtree);
      ChildChanged(v, subtree);
    }

    /** One goroutine of AddAd: get the child for the value or make one, then descend. */
    method AddUnder(v: Value, ad: Ad)
      requires Valid() && Indexable(ad)
      modifies Repr
      ensures Valid() && fresh(Repr - old(Repr))
      ensures Contents == NodeTree(old(Contents.children)[v := Add(ChildOrEmpty(old(Contents.children), key, v), Below(key), ad)])
      decreases Depth(Some(key)), 1
    {
      ghost var before := Contents.children;
      if v !in children {
        MakeChild(v);
      }
      Descend(v, ad);
      assert Contents.children == before[v := Contents.children[v]];
    }

    /**
     A node below the root only sees ads whose ages the root could expand; the
     root panics on the others before it has changed anything.
     */
    method AddAd(ad: Ad) returns (r: Result<()>)
      requires Valid() && (key == Age || Indexable(ad))
      modifies Repr
      ensures Valid() && fresh(Repr - old(Repr))
      ensures r.Panic? <==> !Indexable(ad)
      ensures r.Panic? ==> Contents == old(Contents)
      ensures r.Ok? ==> Contents == Add(old(Contents), Some(key), ad)
      decreases Depth(Some(key)), 2
    {
      var values := GetValueByKey(ad, key);
      if values.Panic? {
        return Panic;
      }
      var vs := values.value;
      assert vs[..|vs|] == vs;
      for i := 0 to |vs|
        invariant Valid() && fresh(Repr - old(Repr))
        invariant Contents == NodeTree(AddEach(old(Contents.children), key, ad, vs[..i]))
      {
        assert vs[..i + 1][..i] == vs[..i];
        AddUnder(vs[i], ad);
      }
      r := Ok(());
    }

    method GetAd(req: Request) returns (ads: seq<Ad>)
      requires Valid() && WellFormed(req)
      ensures ads == Page(At(Contents, RequestPath(req, Some(key))), req)
      decreases Depth(Some(key)), 2
    {
      var v := RequestValue(req, key);
      var p := RequestPath(req, Some(key));
      assert p[0] == v && p[1..] == RequestPath(req, Below(key));
      assert Find(Contents, p) == if v in children then Find(Contents.children[v], p[1..]) else None;
      if v !in children {
        return [];
      }
      assert ValidChild(children[v], Contents.children[v]);
      ads := children[v].GetAd(Below(key), Contents.children[v], req);
    }

    method DeleteUnder(v: Value, ad: Ad)
      requires Valid() && Indexable(ad) && v in children
      modifies Repr
      ensures Valid() && fresh(Repr - old(Repr))
      ensures Contents == NodeTree(old(Contents.children)[v := Del(old(Contents.children)[v], Below(key), ad)])
      decreases Depth(Some(key)), 0
    {
      ghost var subtree := Del(Contents.children[v], Below(key), ad);
      assert ValidChild(children[v], Contents.children[v]);
      children[v].DeleteAd(Below(key), Contents.children[v], ad);
      Repr := Repr + children[v].Footprint();
      Contents := NodeTree(Contents.children[v := subtree]);
      assert ValidChild(children[v], subtree);
      ChildChanged(v, subtree);
    }

    method DeleteAd(ad: Ad) returns (r: Result<()>)
      requires Valid() && (key == Age || Indexable(ad))
      modifies Repr
      ensures Valid() && fresh(Repr - old(Repr))
      ensures r.Panic? <==> !Indexable(ad)
      ensures r.Panic? ==> Contents == old(Contents)
      ensures r.Ok? ==> Contents == Del(old(Contents), Some(key), ad)
      decreases Depth(Some(key)), 2
    {
      var values := GetValueByKey(ad, key);
      if values.Panic? {
        return Panic;
      }
      var vs := values.value;
      assert vs[..|vs|] == vs;
      for i := 0 to |vs|
        invariant Valid() && fresh(Repr - old(Repr))
        invariant Contents == NodeTree(DelEach(old(Contents.children), key, ad, vs[..i]))
      {
        assert vs[..i + 1][..i] == vs[..i];
        if vs[i] in children {
          DeleteUnder(vs[i], ad);
        }
      }
      r := Ok(());
    }
  }
}
