/** The local uncached popularities of all objects, one index object per key. */
module UncachedIndex {
  import opened Types
  import opened CoveredSim
  import opened CoveredNode
  import P = PopularityIndex

  ghost predicate Shows(o: P.LocalUncachedObjinfo, u: Uncached)
    reads o
  {
    o.Valid() && o.objsize == u.objsize && o.sorted == u.pops
  }

  /** Updates one object's index. */
  method UpdateShown(o: P.LocalUncachedObjinfo, ghost u: Uncached, e: Edge, t: Tracked) returns (ghost u': Uncached)
    requires Shows(o, u)
    modifies o
    ensures P.Wf(P.Update(u.pops, e, t.pop)) && u' == Uncached(t.objsize, P.Update(u.pops, e, t.pop)) && Shows(o, u')
  {
    P.UpdateWf(u.pops, e, t.pop);
    o.UpdateEdge(e, t.pop, t.objsize);
    u' := Uncached(t.objsize, P.Update(u.pops, e, t.pop));
  }

  class PerkeyLocalUncachedObjinfo {
    var objs: map<Key, P.LocalUncachedObjinfo>
    ghost var view: map<Key, Uncached>

    /** Keys have separate objects, and no object is empty. */
    ghost predicate Valid()
      reads this, objs.Values
    {
      && view.Keys == objs.Keys
      && (forall k, j :: k in objs && j in objs && k != j ==> objs[k] != objs[j])
      && (forall k {:trigger Shows(objs[k], view[k])} :: k in objs ==> Shows(objs[k], view[k]))
    }

    constructor ()
      ensures Valid() && view == map[] && fresh(objs.Values)
    {
      objs, view := map[], map[];
    }

    method TryToRemove(k: Key, e: Edge)
      requires Valid()
      modifies this, objs.Values
      ensures Valid() && view == DropPop(old(view), k, e) && objs.Values <= old(objs.Values)
    {
      if k in objs {
        ghost var before, was := view, old(objs);
        assert Shows(objs[k], view[k]);
        var isEmpty := objs[k].RemoveEdge(e);
        view := DropPop(view, k, e);
        if isEmpty {
          objs := objs - {k};
        }
        forall j | j in objs
          ensures Shows(objs[j], view[j])
        {
          if j != k {
            assert Shows(was[j], before[j]);
          }
        }
      }
    }

    /** An empty index for a key without one. */
    method Create(k: Key)
      requires Valid() && k !in objs
      modifies this
      ensures Valid() && view == old(view)[k := Uncached(0, [])] && objs.Keys == old(objs.Keys) + {k}
      ensures fresh(objs.Values - old(objs.Values))
    {
      ghost var before, was := view, objs;
      var o := new P.LocalUncachedObjinfo();
      objs := objs[k := o];
      view := view[k := Uncached(0, [])];
      forall j | j in objs
        ensures Shows(objs[j], view[j])
      {
        if j != k {
          assert Shows(was[j], before[j]);
        }
      }
    }

    method UpdateAt(k: Key, e: Edge, t: Tracked)
      requires Valid() && k in objs
      modifies this`view, objs.Values
      ensures Valid() && view == AddPop(old(view), k, e, t)
    {
      assert Shows(objs[k], view[k]);
      ghost var u := UpdateShown(objs[k], view[k], e, t);
      view := view[k := u];
      forall j | j in objs
        ensures Shows(objs[j], view[j])
      {
        if j != k {
          assert old(Shows(objs[j], view[j]));
        }
      }
    }

    method AddLocalUncachedPopularity(k: Key, e: Edge, t: Tracked)
      requires Valid()
      modifies this, objs.Values
      ensures Valid() && view == AddPop(old(view), k, e, t) && fresh(objs.Values - old(objs.Values))
    {
      ghost var before := view;
      if k !in objs {
        Create(k);
      }
      assert AddPop(view, k, e, t) == AddPop(before, k, e, t);
      UpdateAt(k, e, t);
    }

    /** Object size and top-k list of a key that has popularities. */
    method GetTopk(k: Key, topk: nat) returns (objsize: nat, top: seq<P.Entry>)
      requires Valid() && k in view
      ensures objsize == view[k].objsize && top == P.TopK(view[k].pops, topk)
    {
      assert Shows(objs[k], view[k]);
      objsize := objs[k].objsize;
      top := objs[k].GetTopk(topk);
    }
  }
}
