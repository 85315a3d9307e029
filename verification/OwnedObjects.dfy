/** User objects and the graphs that own them, as the calls update them in place. Every
    call is specified by the operation on books that it carries out. */
module OwnedObjects {
  import opened UserObjects

  class UserObject {
    var referenceCount: int
    var owningGraphs: set<OwnerGraph>

    constructor ()
      ensures referenceCount == 1 && owningGraphs == {}
    {
      referenceCount, owningGraphs := 1, {};
    }

    method IncreaseRefCount(count: nat)
      modifies this`referenceCount
      ensures referenceCount == old(referenceCount) + count
    {
      for i := 0 to count
        invariant referenceCount == old(referenceCount) + i
      {
        referenceCount := referenceCount + 1;
      }
    }

    method DecreaseRefCount(count: nat)
      requires count <= referenceCount
      modifies this`referenceCount
      ensures referenceCount == old(referenceCount) - count
    {
      for i := 0 to count
        invariant referenceCount == old(referenceCount) - i
      {
        referenceCount := referenceCount - 1;
      }
    }
  }

  /** What a graph knows of user objects. */
  class OwnerGraph {
    var graphUserObj: map<UserObject, int> // references this graph owns, per object

    constructor ()
      ensures graphUserObj == map[]
    {
      graphUserObj := map[];
    }

    /** An object known already keeps its count. */
    method AddUserObjGraph(userObject: UserObject)
      modifies this
      ensures graphUserObj == old(graphUserObj)[userObject := Entry(old(graphUserObj), userObject)]
    {
      if userObject !in graphUserObj {
        graphUserObj := graphUserObj[userObject := 0];
      }
    }

    method IncrementGraphUserObjRefCount(userObject: UserObject, count: nat)
      modifies this
      ensures graphUserObj == if userObject in old(graphUserObj)
              then old(graphUserObj)[userObject := old(graphUserObj)[userObject] + count] else old(graphUserObj)
    {
      if userObject in graphUserObj {
        graphUserObj := graphUserObj[userObject := graphUserObj[userObject] + count];
      }
    }

    method DecrementGraphUserObjRefCount(userObject: UserObject, count: nat)
      modifies this
      ensures graphUserObj == if userObject in old(graphUserObj)
              then old(graphUserObj)[userObject := old(graphUserObj)[userObject] - count] else old(graphUserObj)
    {
      if userObject in graphUserObj {
        graphUserObj := graphUserObj[userObject := graphUserObj[userObject] - count];
      }
    }
  }

  /** All live user objects. */
  class ObjectSet {
    var objects: set<UserObject>

    constructor ()
      ensures objects == {}
    {
      objects := {};
    }
  }

  type Books = World<OwnerGraph, UserObject>

  /** The objects and graphs hold what the books say. */
  ghost predicate Reflects(w: Books, all: ObjectSet)
    reads all, w.refs.Keys, w.held.Keys
  {
    && all.objects == w.refs.Keys && w.owners.Keys == w.refs.Keys
    && (forall o | o in w.refs :: o.referenceCount == w.refs[o] && o.owningGraphs == w.owners[o])
    && forall g | g in w.held :: g.graphUserObj == w.held[g]
  }

  method UserObjectCreate(all: ObjectSet, initialRefcount: nat, ghost w: Books) returns (userObject: UserObject?)
    requires Balanced(w) && Reflects(w, all)
    modifies all
    ensures userObject == null <==> !Counts(initialRefcount)
    ensures userObject == null ==> Reflects(w, all)
    ensures userObject != null ==>
              fresh(userObject) && userObject !in w.refs && Reflects(Create(w, userObject, initialRefcount), all)
  {
    hide Balanced;
    if initialRefcount == 0 || initialRefcount > INT_MAX {
      return null;
    }
    userObject := new UserObject();
    if initialRefcount > 1 {
      userObject.IncreaseRefCount(initialRefcount - 1);
    }
    all.objects := all.objects + {userObject};
  }

  method UserObjectRetain(all: ObjectSet, userObject: UserObject, count: nat, ghost w: Books) returns (ok: bool)
    requires Balanced(w) && Reflects(w, all)
    modifies userObject`referenceCount
    ensures ok <==> Counts(count)
    ensures Reflects(if ok then Retained(w, userObject, count) else w, all)
  {
    if count == 0 || count > INT_MAX {
      return false;
    }
    ok := true;
    if userObject in all.objects {
      userObject.IncreaseRefCount(count);
    }
  }

  /** Striking a dying object from every graph that owns it. */
  method ForgetObject(userObject: UserObject, ghost w: Books)
    requires Mirrors(w, userObject) && userObject in w.owners && userObject.owningGraphs == w.owners[userObject]
    requires forall g | g in w.held :: g.graphUserObj == w.held[g]
    modifies w.held.Keys
    ensures forall g | g in w.held :: g.graphUserObj == w.held[g] - {userObject}
  {
    var todo := userObject.owningGraphs;
    while todo != {}
      invariant todo <= w.owners[userObject]
      invariant forall g | g in w.held :: g.graphUserObj == if g in todo then w.held[g] else w.held[g] - {userObject}
      decreases todo
    {
      var g :| g in todo;
      assert g in w.held;
      g.graphUserObj := g.graphUserObj - {userObject};
      todo := todo - {g};
    }
  }

  /** The owners of o are graphs, and no other graph knows o. */
  ghost predicate Mirrors(w: Books, o: UserObject) {
    o in w.owners ==> w.owners[o] <= w.held.Keys && forall g | g in w.held && o in w.held[g] :: g in w.owners[o]
  }

  method UserObjectRelease(all: ObjectSet, userObject: UserObject, count: nat, ghost w: Books) returns (ok: bool)
    requires Mirrors(w, userObject) && Reflects(w, all)
    modifies all, userObject`referenceCount, w.held.Keys
    ensures ok <==> Counts(count)
    ensures Reflects(if ok then Released(w, userObject, count) else w, all)
  {
    if count == 0 || count > INT_MAX {
      return false;
    }
    ok := true;
    if userObject.referenceCount < count || userObject !in all.objects {
      return;
    }
    if userObject.referenceCount == count {
      all.objects := all.objects - {userObject};
      ForgetObject(userObject, w);
    }
    userObject.DecreaseRefCount(count);
  }

  lemma BalancedMirrors(w: Books, o: UserObject)
    requires Balanced(w)
    ensures Mirrors(w, o) && w.owners.Keys == w.refs.Keys
    ensures forall g | g in w.held && o in w.held[g] :: o in w.refs
  {
    forall g | g in w.held && o in w.held[g] ensures g in w.owners[o] && o in w.refs {
      assert Known(w, g, o);
    }
  }

  /** Entering `count` more references of a live object for a graph. */
  method EnterObject(all: ObjectSet, graph: OwnerGraph, userObject: UserObject, count: nat, ghost w: Books)
    requires Reflects(w, all) && graph in w.held && userObject in w.refs
    modifies userObject`owningGraphs, graph
    ensures userObject in w.owners && Reflects(Kept(w, graph, userObject, count), all)
  {
    EnterEntry(graph, userObject, count);
    userObject.owningGraphs := userObject.owningGraphs + {graph};
  }

  method EnterEntry(graph: OwnerGraph, userObject: UserObject, count: nat)
    modifies graph
    ensures graph.graphUserObj == old(graph.graphUserObj)[userObject := Entry(old(graph.graphUserObj), userObject)
            + count]
  {
    graph.AddUserObjGraph(userObject);
    graph.IncrementGraphUserObjRefCount(userObject, count);
  }

  function Min(a: int, b: int): int {
    if a < b then a else b
  }

  lemma BalancedOwner(w: Books, graph: OwnerGraph, o: UserObject)
    requires Balanced(w) && graph in w.held && o in w.held[graph]
    ensures o in w.refs && o in w.owners && graph in w.owners[o]
  {
    assert Known(w, graph, o);
  }

  method LowerObject(all: ObjectSet, graph: OwnerGraph, userObject: UserObject, count: nat, ghost w: Books)
    requires Reflects(w, all) && graph in w.held && userObject in w.held[graph]
    requires userObject in w.owners && graph in w.owners[userObject]
    modifies graph
    ensures Reflects(Kept(w, graph, userObject, 0 - count), all)
  {
    graph.DecrementGraphUserObjRefCount(userObject, count);
    assert w.owners[userObject] + {graph} == w.owners[userObject];
  }

  /** Giving a graph references of an object, taken over from the caller if `move`. A
      destroyed object that the graph does not know is passed over. */
  method GraphRetainUserObject(all: ObjectSet, graph: OwnerGraph, userObject: UserObject, count: nat, move: bool,
        ghost w: Books)
    returns (ok: bool)
    requires Balanced(w) && Reflects(w, all) && graph in w.held
    modifies userObject, graph
    ensures ok <==> Counts(count)
    ensures w.owners.Keys == w.refs.Keys && Reflects(GraphRetained(w, graph, userObject, count, move), all)
  {
    hide Balanced, Reflects, Kept;
    BalancedMirrors(w, userObject);
    ReflectsParts(w, all, graph, userObject);
    if count == 0 || count > INT_MAX {
      return false;
    }
    ok := true;
    if userObject !in all.objects && userObject !in graph.graphUserObj {
      return;
    }
    ghost var v := if move then Booked(w, userObject, 0 - count) else Retained(w, userObject, count);
    if move {
      UserIsElsewhere(w, v, all);
    } else {
      var retained := UserObjectRetain(all, userObject, count, w);
    }
    EnterObject(all, graph, userObject, count, v);
  }

  lemma ReflectsParts(w: Books, all: ObjectSet, graph: OwnerGraph, o: UserObject)
    requires Reflects(w, all) && graph in w.held
    ensures all.objects == w.refs.Keys && graph.graphUserObj == w.held[graph]
    ensures o in w.refs ==> o in w.owners && o.referenceCount == w.refs[o] && o.owningGraphs == w.owners[o]
  {
  }

  /** What the application holds is in no object. */
  lemma UserIsElsewhere(w: Books, v: Books, all: ObjectSet)
    requires Reflects(w, all) && v == w.(user := v.user)
    ensures Reflects(v, all)
  {
  }

  /** Taking an entry out altogether, when the object is about to go. */
  method StrikeObject(all: ObjectSet, graph: OwnerGraph, userObject: UserObject, ghost w: Books)
    requires Reflects(w, all) && graph in w.held && userObject in w.refs
    modifies userObject`owningGraphs, graph
    ensures userObject in w.owners && Reflects(Struck(w, graph, userObject), all)
  {
    graph.graphUserObj := graph.graphUserObj - {userObject};
    userObject.owningGraphs := userObject.owningGraphs - {graph};
  }

  /** The books while a graph's entry is already gone and the object is about to be. */
  ghost function Struck(w: Books, graph: OwnerGraph, o: UserObject): Books
    requires graph in w.held && o in w.owners
  {
    w.(held := w.held[graph := w.held[graph] - {o}], owners := w.owners[o := w.owners[o] - {graph}])
  }

  method GraphReleaseUserObject(all: ObjectSet, graph: OwnerGraph, userObject: UserObject, count: nat, ghost w: Books)
    returns (ok: bool)
    requires Balanced(w) && Reflects(w, all) && graph in w.held
    modifies all, userObject, w.held.Keys
    ensures ok <==> Counts(count)
    ensures w.owners.Keys == w.refs.Keys && Reflects(GraphReleased(w, graph, userObject, count), all)
  {
    hide Balanced, Reflects, Kept, Struck, Released, Mirrors;
    BalancedMirrors(w, userObject);
    ReflectsParts(w, all, graph, userObject);
    if count == 0 || count > INT_MAX {
      return false;
    }
    ok := true;
    if userObject !in graph.graphUserObj || userObject.referenceCount < count {
      return;
    }
    BalancedOwner(w, graph, userObject);
    LowerObject(all, graph, userObject, count, w);
    ghost var v := Kept(w, graph, userObject, 0 - count);
    KeptParts(w, graph, userObject, 0 - count);
    ReflectsParts(v, all, graph, userObject);
    var releaseCount := Min(userObject.referenceCount, count);
    if userObject.referenceCount == releaseCount {
      StruckDies(v, graph, userObject, count);
      StrikeObject(all, graph, userObject, v);
      v := Struck(v, graph, userObject);
    }
    var released := UserObjectRelease(all, userObject, count, v);
  }

  lemma KeptParts(w: Books, graph: OwnerGraph, o: UserObject, count: int)
    requires graph in w.held && o in w.owners && o in w.refs && Mirrors(w, o)
    ensures var v := Kept(w, graph, o, count);
            && graph in v.held && o in v.owners && o in v.refs && v.refs == w.refs && v.held.Keys == w.held.Keys
            && Mirrors(v, o)
  {
  }

  /** Releasing the last references leads to the same books with or without the entry. */
  lemma StruckDies(w: Books, graph: OwnerGraph, o: UserObject, count: nat)
    requires graph in w.held && o in w.owners && o in w.refs && Mirrors(w, o) && w.refs[o] == count
    ensures var v := Struck(w, graph, o);
            Mirrors(v, o) && v.held.Keys == w.held.Keys && Released(v, o, count) == Released(w, o, count)
  {
    var v := Struck(w, graph, o);
    var d, e := Destroyed(v, o), Destroyed(w, o);
    assert forall g | g in d.held :: d.held[g] == e.held[g];
    assert d.held == e.held;
    assert d.owners == e.owners;
  }

  // ---- Cloning and destroying a graph ----

  lemma PartClonedStarts(w: Books, graph: OwnerGraph, clone: OwnerGraph, all: ObjectSet)
    requires Reflects(w, all) && graph in w.held && clone.graphUserObj == map[]
    ensures Reflects(PartCloned(w, clone, {}), all) && graph.graphUserObj == w.held[graph]
  {
    var v := PartCloned(w, clone, {});
    assert v.refs == w.refs && v.owners == w.owners;
  }

  lemma PartClonedNext(w: Books, clone: OwnerGraph, done: set<UserObject>, o: UserObject)
    requires o in w.refs && o in w.owners && o !in done
    ensures var v := PartCloned(w, clone, done);
            && o in v.refs && o in v.owners && clone in v.held
            && PartCloned(w, clone, done + {o})
                 == v.(refs := v.refs[o := v.refs[o] + 1], owners := v.owners[o := v.owners[o] + {clone}],
                   held := v.held[clone := v.held[clone][o := 1]])
  {
    var v, u := PartCloned(w, clone, done), PartCloned(w, clone, done + {o});
    assert u.refs == v.refs[o := v.refs[o] + 1];
    assert u.owners == v.owners[o := v.owners[o] + {clone}];
    assert u.held[clone] == v.held[clone][o := 1];
  }

  method CloneObject(all: ObjectSet, clone: OwnerGraph, userObject: UserObject, ghost v: Books)
    requires Reflects(v, all) && userObject in v.refs && userObject in v.owners && clone in v.held
    modifies userObject, clone
    ensures Reflects(v.(refs := v.refs[userObject := v.refs[userObject] + 1],
                        owners := v.owners[userObject := v.owners[userObject] + {clone}],
                        held := v.held[clone := v.held[clone][userObject := 1]]), all)
  {
    userObject.referenceCount := userObject.referenceCount + 1;
    clone.graphUserObj := clone.graphUserObj[userObject := 1];
    userObject.owningGraphs := userObject.owningGraphs + {clone};
  }

  /** The user-object part of cloning a graph. */
  method CloneObjects(all: ObjectSet, graph: OwnerGraph, clone: OwnerGraph, ghost w: Books)
    requires Balanced(w) && Reflects(w, all) && graph in w.held && clone !in w.held && clone.graphUserObj == map[]
    modifies w.refs.Keys, clone
    ensures Reflects(Cloned(w, graph, clone), all)
  {
    hide Balanced, Reflects, PartCloned, Cloned;
    PartClonedStarts(w, graph, clone, all);
    var todo := graph.graphUserObj.Keys;
    ghost var keys := todo;
    assert keys - todo == {};
    while todo != {}
      invariant todo <= keys && Reflects(PartCloned(w, clone, keys - todo), all)
      decreases todo
    {
      var userObject :| userObject in todo;
      BalancedOwner(w, graph, userObject);
      PartClonedNext(w, clone, keys - todo, userObject);
      CloneObject(all, clone, userObject, PartCloned(w, clone, keys - todo));
      assert keys - (todo - {userObject}) == (keys - todo) + {userObject};
      todo := todo - {userObject};
    }
    assert keys - todo == keys;
    ClonedIs(w, graph, clone);
  }

  lemma ClonedIs(w: Books, graph: OwnerGraph, clone: OwnerGraph)
    requires graph in w.held
    ensures Cloned(w, graph, clone) == PartCloned(w, clone, w.held[graph].Keys)
  {
  }

  lemma PartDroppedStarts(w: Books, graph: OwnerGraph, all: ObjectSet)
    requires Reflects(w, all) && graph in w.held
    ensures Reflects(PartDropped(w, graph, {}), all) && graph.graphUserObj == w.held[graph]
  {
    var v := PartDropped(w, graph, {});
    assert v.refs == w.refs && v.owners == w.owners;
    forall h | h in v.held ensures v.held[h] == w.held[h] {
    }
  }

  ghost predicate Undropped(w: Books, graph: OwnerGraph, done: set<UserObject>, o: UserObject) {
    graph in w.held && o in w.held[graph] && o in w.refs && o in w.owners && o !in done && w.held[graph][o] >= 0
  }

  lemma PartDroppedKeeps(w: Books, graph: OwnerGraph, done: set<UserObject>, o: UserObject)
    requires Undropped(w, graph, done, o)
    ensures var v := PartDropped(w, graph, done);
            o in v.refs && o in v.owners && v.refs[o] == w.refs[o] && v.owners[o] == w.owners[o]
              && v.held.Keys == w.held.Keys - {graph}
  {
  }

  lemma PartDroppedDies(w: Books, graph: OwnerGraph, done: set<UserObject>, o: UserObject)
    requires Undropped(w, graph, done, o) && w.held[graph][o] == w.refs[o]
    ensures PartDropped(w, graph, done + {o}) == Destroyed(PartDropped(w, graph, done), o)
  {
    hide LeftOf, Dying;
    DyingNext(w, graph, done, o);
    var u, d := PartDropped(w, graph, done + {o}), Destroyed(PartDropped(w, graph, done), o);
    assert u.refs == d.refs;
    assert u.owners == d.owners;
    assert u.user == d.user;
    DropsHeld(w, graph, done, o);
  }

  lemma DropsHeld(w: Books, graph: OwnerGraph, done: set<UserObject>, o: UserObject)
    requires Undropped(w, graph, done, o) && w.held[graph][o] == w.refs[o]
    ensures PartDropped(w, graph, done + {o}).held == Destroyed(PartDropped(w, graph, done), o).held
  {
    hide LeftOf, Dying;
    DyingNext(w, graph, done, o);
    var u, d := PartDropped(w, graph, done + {o}), Destroyed(PartDropped(w, graph, done), o);
    assert forall h | h in u.held :: u.held[h] == d.held[h];
  }

  lemma DyingNext(w: Books, graph: OwnerGraph, done: set<UserObject>, o: UserObject)
    requires Undropped(w, graph, done, o) && w.held[graph][o] == w.refs[o]
    ensures Dying(w, graph, done + {o}) == Dying(w, graph, done) + {o} && o !in Dying(w, graph, done)
  {
  }

  lemma PartDroppedStays(w: Books, graph: OwnerGraph, done: set<UserObject>, o: UserObject)
    requires Undropped(w, graph, done, o) && w.held[graph][o] != w.refs[o]
    ensures var v := PartDropped(w, graph, done);
            && o in v.refs && o in v.owners
            && PartDropped(w, graph, done + {o})
               == v.(refs := v.refs[o := LeftOf(w, graph, o)], owners := v.owners[o := v.owners[o] - {graph}])
  {
    hide LeftOf;
    assert Dying(w, graph, done + {o}) == Dying(w, graph, done);
  }

  /** What one object of a dying graph goes through. */
  lemma PartDroppedNext(w: Books, graph: OwnerGraph, done: set<UserObject>, o: UserObject)
    requires Undropped(w, graph, done, o)
    ensures var v, u, n := PartDropped(w, graph, done), PartDropped(w, graph, done + {o}), w.held[graph][o];
            && o in v.refs && o in v.owners && v.refs[o] == w.refs[o] && v.owners[o] == w.owners[o]
            && v.held.Keys == w.held.Keys - {graph}
            && (n == w.refs[o] ==> u == Destroyed(v, o))
            && (n != w.refs[o] ==>
                 u == v.(refs := v.refs[o := LeftOf(w, graph, o)], owners := v.owners[o := v.owners[o] - {graph}]))
  {
    hide PartDropped, Destroyed, LeftOf;
    PartDroppedKeeps(w, graph, done, o);
    if w.held[graph][o] == w.refs[o] {
      PartDroppedDies(w, graph, done, o);
    } else {
      PartDroppedStays(w, graph, done, o);
    }
  }

  /** Giving back the references a dying graph holds of one object. */
  method DropObject(all: ObjectSet, graph: OwnerGraph, userObject: UserObject, count: nat, ghost v: Books)
    requires Reflects(v, all) && userObject in v.refs && userObject in v.owners && graph !in v.held
             && count <= v.refs[userObject] && v.refs[userObject] >= 1
    requires Mirrors(Disowned(v, graph, userObject), userObject)
    modifies all, userObject, v.held.Keys
    ensures graph.graphUserObj == old(graph.graphUserObj)
    ensures Reflects(if count == v.refs[userObject] then Destroyed(v, userObject)
                     else Disowned(v, graph, userObject).(refs := v.refs[userObject := v.refs[userObject] - count]),
                       all)
  {
    hide Mirrors;
    userObject.owningGraphs := userObject.owningGraphs - {graph};
    if userObject.referenceCount == count {
      ForgetObject(userObject, Disowned(v, graph, userObject));
    }
    LowerCount(all, userObject, count);
  }

  /** Giving back references one by one; the object is struck from the set at zero. */
  method LowerCount(all: ObjectSet, userObject: UserObject, count: nat)
    requires 1 <= userObject.referenceCount && count <= userObject.referenceCount
    modifies userObject`referenceCount, all
    ensures userObject.referenceCount == old(userObject.referenceCount) - count
    ensures all.objects == old(all.objects) - if userObject.referenceCount == 0 then {userObject} else {}
  {
    for i := 0 to count
      invariant userObject.referenceCount == old(userObject.referenceCount) - i
      invariant all.objects == old(all.objects) - if userObject.referenceCount == 0 then {userObject} else {}
    {
      userObject.referenceCount := userObject.referenceCount - 1;
      if userObject.referenceCount == 0 {
        all.objects := all.objects - {userObject};
      }
    }
  }

  /** The books once graph is no owner of o any more. */
  ghost function Disowned(w: Books, graph: OwnerGraph, o: UserObject): Books
    requires o in w.owners
  {
    w.(owners := w.owners[o := w.owners[o] - {graph}])
  }

  lemma StillMirrored(w: Books, graph: OwnerGraph, done: set<UserObject>, o: UserObject)
    requires Balanced(w) && graph in w.held && o in w.held[graph] && o !in done
    ensures o in w.refs && o in w.owners && 0 <= w.held[graph][o] <= w.refs[o] && w.refs[o] >= 1
    ensures var v := PartDropped(w, graph, done); o in v.owners && Mirrors(Disowned(v, graph, o), o)
  {
    BalancedAt(w, o);
    assert Known(w, graph, o);
    forall g | g in w.held && o in w.held[g] ensures g in w.owners[o] {
      assert Known(w, g, o);
    }
  }

  /** The user-object part of destroying a graph. */
  method DropObjects(all: ObjectSet, graph: OwnerGraph, ghost w: Books)
    requires Balanced(w) && Reflects(w, all) && graph in w.held
    modifies all, w.refs.Keys, w.held.Keys
    ensures Reflects(Dropped(w, graph), all) && graph.graphUserObj == map[]
  {
    hide Balanced, Reflects, PartDropped, Dropped, Mirrors, Destroyed, LeftOf;
    PartDroppedStarts(w, graph, all);
    var todo := graph.graphUserObj.Keys;
    ghost var keys := todo;
    assert keys - todo == {};
    while todo != {}
      invariant todo <= keys && graph.graphUserObj == w.held[graph] && Reflects(PartDropped(w, graph, keys - todo), all)
      decreases todo
    {
      var userObject :| userObject in todo;
      StillMirrored(w, graph, keys - todo, userObject);
      PartDroppedNext(w, graph, keys - todo, userObject);
      LeftIs(w, graph, userObject);
      DropObject(all, graph, userObject, graph.graphUserObj[userObject], PartDropped(w, graph, keys - todo));
      assert keys - (todo - {userObject}) == (keys - todo) + {userObject};
      todo := todo - {userObject};
    }
    assert keys - todo == keys;
    DroppedIs(w, graph);
    graph.graphUserObj := map[];
  }

  lemma LeftIs(w: Books, graph: OwnerGraph, o: UserObject)
    requires graph in w.held && o in w.held[graph] && o in w.refs && 0 <= w.held[graph][o] <= w.refs[o]
    ensures LeftOf(w, graph, o) == w.refs[o] - w.held[graph][o]
  {
  }

  lemma DroppedIs(w: Books, graph: OwnerGraph)
    requires graph in w.held
    ensures Dropped(w, graph) == PartDropped(w, graph, w.held[graph].Keys) && graph !in Dropped(w, graph).held
  {
  }
}
