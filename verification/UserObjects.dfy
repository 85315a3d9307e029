/** Reference counts of user objects shared between the application and graphs. */
module UserObjects {

  /** Reference count and owning graphs of every live object, the count each graph keeps
      for the objects it knows, and the references the application holds itself. */
  datatype World<G, O> = World(refs: map<O, int>, owners: map<O, set<G>>, held: map<G, map<O, int>>, user: map<O, int>)

  ghost function Entry<O>(counts: map<O, int>, o: O): int {
    if o in counts then counts[o] else 0
  }

  /** What all graphs together hold of an object. */
  ghost function HeldOf<G, O>(held: map<G, map<O, int>>, o: O): int {
    if held == map[] then 0
    else
      var g :| g in held;
      assert (held - {g}).Keys < held.Keys;
      Entry(held[g], o) + HeldOf(held - {g}, o)
  }

  lemma {:induction false} HeldSplit<G, O>(held: map<G, map<O, int>>, o: O, g: G)
    requires g in held
    ensures HeldOf(held, o) == Entry(held[g], o) + HeldOf(held - {g}, o)
    decreases |held|
  {
    var h :| h in held && HeldOf(held, o) == Entry(held[h], o) + HeldOf(held - {h}, o);
    if h != g {
      HeldSplit(held - {h}, o, g);
      HeldSplit(held - {g}, o, h);
      assert held - {h} - {g} == held - {g} - {h};
    }
  }

  lemma {:induction false} HeldSame<G, O>(held: map<G, map<O, int>>, held': map<G, map<O, int>>, o: O)
    requires held.Keys == held'.Keys && forall g | g in held :: Entry(held[g], o) == Entry(held'[g], o)
    ensures HeldOf(held, o) == HeldOf(held', o)
    decreases |held|
  {
    if held != map[] {
      var g :| g in held;
      HeldSplit(held, o, g);
      HeldSplit(held', o, g);
      HeldSame(held - {g}, held' - {g}, o);
    }
  }

  /** The books balance: counts add up, owners and graphs mirror each other, and graphs
      know live objects only. */
  ghost predicate Balanced<G, O>(w: World<G, O>) {
    && w.owners.Keys == w.user.Keys == w.refs.Keys
    && (forall g, o | g in w.held && o in w.held[g] :: Known(w, g, o))
    && (forall o, g | o in w.owners && g in w.owners[o] :: g in w.held && o in w.held[g])
    && forall o | o in w.refs :: Adds(w, o)
  }

  /** Graph g may hold o: o is alive and counts g among its owners. */
  ghost predicate Known<G, O>(w: World<G, O>, g: G, o: O) {
    g in w.held && o in w.held[g] && w.held[g][o] >= 0 && o in w.refs && o in w.owners && g in w.owners[o]
  }

  ghost predicate Adds<G, O>(w: World<G, O>, o: O) {
    o in w.refs && o in w.user && w.refs[o] >= 1 && w.user[o] >= 0 && w.refs[o] == w.user[o] + HeldOf(w.held, o)
  }

  // ---- The operations ----

  const INT_MAX: nat := 0x7FFF_FFFF

  predicate Counts(count: nat) {
    0 < count <= INT_MAX
  }

  ghost function Create<G, O>(w: World<G, O>, o: O, count: nat): World<G, O> {
    if !Counts(count) then w
    else w.(refs := w.refs[o := count], owners := w.owners[o := {}], user := w.user[o := count])
  }

  ghost function Retained<G, O>(w: World<G, O>, o: O, count: nat): World<G, O> {
    if o in w.refs then w.(refs := w.refs[o := w.refs[o] + count]) else w
  }

  /** The last references go: the object dies and every graph forgets it. */
  ghost function Destroyed<G, O>(w: World<G, O>, o: O): World<G, O> {
    World(w.refs - {o}, w.owners - {o}, map g | g in w.held :: w.held[g] - {o}, w.user - {o})
  }

  ghost function Released<G, O>(w: World<G, O>, o: O, count: nat): World<G, O> {
    if o !in w.refs || w.refs[o] < count then w
    else if w.refs[o] == count then Destroyed(w, o)
    else w.(refs := w.refs[o := w.refs[o] - count])
  }

  /** Booking `count` references of the application, or fewer if negative. */
  ghost function Booked<G, O>(w: World<G, O>, o: O, count: int): World<G, O> {
    if o in w.user then w.(user := w.user[o := w.user[o] + count]) else w
  }

  /** Booking `count` references of a graph, which becomes an owner. */
  ghost function Kept<G, O>(w: World<G, O>, g: G, o: O, count: int): World<G, O>
    requires g in w.held && o in w.owners
  {
    w.(held := w.held[g := w.held[g][o := Entry(w.held[g], o) + count]], owners := w.owners[o := w.owners[o] + {g}])
  }

  ghost function GraphRetained<G, O>(w: World<G, O>, g: G, o: O, count: nat, move: bool): World<G, O>
    requires g in w.held && w.owners.Keys == w.refs.Keys
  {
    if !Counts(count) || o !in w.refs then w
    else Kept(if move then Booked(w, o, 0 - count) else Retained(w, o, count), g, o, count)
  }

  ghost function GraphReleased<G, O>(w: World<G, O>, g: G, o: O, count: nat): World<G, O>
    requires g in w.held && w.owners.Keys == w.refs.Keys
  {
    if !Counts(count) || o !in w.held[g] || o !in w.refs || w.refs[o] < count then w
    else Released(Kept(w, g, o, 0 - count), o, count)
  }

  /** A clone takes one reference of its own on every object in `done`. */
  ghost function PartCloned<G, O>(w: World<G, O>, clone: G, done: set<O>): World<G, O> {
    w.(refs := map o | o in w.refs :: if o in done then w.refs[o] + 1 else w.refs[o],
       owners := map o | o in w.owners :: if o in done then w.owners[o] + {clone} else w.owners[o],
       held := w.held[clone := map o | o in done :: 1])
  }

  ghost function Cloned<G, O>(w: World<G, O>, g: G, clone: G): World<G, O>
    requires g in w.held
  {
    PartCloned(w, clone, w.held[g].Keys)
  }

  /** A dying graph gives back what it holds of the objects in `done`; those it held alone die. */
  ghost function PartDropped<G, O>(w: World<G, O>, g: G, done: set<O>): World<G, O>
    requires g in w.held
  {
    var dead := Dying(w, g, done);
    World(map o | o in w.refs && o !in dead :: if o in done then LeftOf(w, g, o) else w.refs[o],
          map o | o in w.owners && o !in dead :: if o in done then w.owners[o] - {g} else w.owners[o],
          map h | h in w.held && h != g :: w.held[h] - dead,
          w.user - dead)
  }

  ghost function Dying<G, O>(w: World<G, O>, g: G, done: set<O>): set<O>
    requires g in w.held
  {
    set o | o in done && o in w.refs && o in w.held[g] && w.held[g][o] == w.refs[o]
  }

  /** More references than there are cannot be given back; then none is. */
  ghost function LeftOf<G, O>(w: World<G, O>, g: G, o: O): int
    requires g in w.held && o in w.refs
  {
    if o in w.held[g] && 0 <= w.held[g][o] <= w.refs[o] then w.refs[o] - w.held[g][o] else w.refs[o]
  }

  ghost function Dropped<G, O>(w: World<G, O>, g: G): World<G, O>
    requires g in w.held
  {
    PartDropped(w, g, w.held[g].Keys)
  }

  datatype Op<G, O> =
    | DoCreate(o: O, count: nat)
    | DoRetain(o: O, count: nat)
    | DoRelease(o: O, count: nat)
    | DoGraphCreate(g: G)
    | DoGraphRetain(g: G, o: O, count: nat, move: bool)
    | DoGraphRelease(g: G, o: O, count: nat)
    | DoClone(g: G, clone: G)
    | DoGraphDestroy(g: G)

  /** Objects and graphs are new where they must be and alive where they must be, and
      nobody gives away more references than they hold. */
  ghost predicate Legal<G, O>(w: World<G, O>, op: Op<G, O>) {
    match op
    case DoCreate(o, count) => o !in w.refs && forall g | g in w.held :: o !in w.held[g]
    case DoRetain(o, count) => true
    case DoRelease(o, count) => o in w.user ==> count <= w.user[o]
    case DoGraphCreate(g) => g !in w.held
    case DoGraphRetain(g, o, count, move) => g in w.held && (move && o in w.user ==> count <= w.user[o])
    case DoGraphRelease(g, o, count) => g in w.held && (o in w.held[g] ==> count <= w.held[g][o])
    case DoClone(g, clone) => g in w.held && clone !in w.held
    case DoGraphDestroy(g) => g in w.held
  }

  ghost function Perform<G, O>(w: World<G, O>, op: Op<G, O>): World<G, O>
    requires Balanced(w) && Legal(w, op)
  {
    match op
    case DoCreate(o, count) => Create(w, o, count)
    case DoRetain(o, count) => if Counts(count) then Booked(Retained(w, o, count), o, count) else w
    case DoRelease(o, count) => if Counts(count) then Booked(Released(w, o, count), o, 0 - count) else w
    case DoGraphCreate(g) => w.(held := w.held[g := map[]])
    case DoGraphRetain(g, o, count, move) => GraphRetained(w, g, o, count, move)
    case DoGraphRelease(g, o, count) => GraphReleased(w, g, o, count)
    case DoClone(g, clone) => Cloned(w, g, clone)
    case DoGraphDestroy(g) => Dropped(w, g)
  }

  // ---- What every operation changes ----

  /** Object p has the same counts in both books: references, the application's share, and
      what each graph in both holds of it. */
  ghost predicate Alike<G, O>(w: World<G, O>, r: World<G, O>, p: O) {
    && (p in r.refs <==> p in w.refs) && (p in w.refs && p in r.refs ==> r.refs[p] == w.refs[p])
    && (p in r.user <==> p in w.user) && (p in w.user && p in r.user ==> r.user[p] == w.user[p])
    && forall h | h in w.held && h in r.held ::
         (p in r.held[h] <==> p in w.held[h]) && Entry(r.held[h], p) == Entry(w.held[h], p)
  }

  /** The graphs are the same, and only object o may have other counts. */
  ghost predicate OnlyOf<G, O>(w: World<G, O>, r: World<G, O>, o: O) {
    r.held.Keys == w.held.Keys && forall p | p in w.refs.Keys + r.refs.Keys && p != o :: Alike(w, r, p)
  }

  /** No trace of o is left. */
  ghost predicate Gone<G, O>(r: World<G, O>, o: O) {
    o !in r.refs && o !in r.user && o !in r.owners && forall h | h in r.held :: o !in r.held[h]
  }

  /** Object o has gained `refs` references, of which the application holds `user` and each
      graph h `held[h]`. */
  ghost predicate Gains<G, O>(w: World<G, O>, r: World<G, O>, o: O, refs: int, user: int, held: map<G, int>) {
    && o in w.refs && o in r.refs && r.refs[o] == w.refs[o] + refs
    && o in w.user && o in r.user && r.user[o] == w.user[o] + user
    && forall h | h in w.held && h in r.held ::
         && (o in r.held[h] <==> o in w.held[h] || (h in held && held[h] > 0))
         && Entry(r.held[h], o) == Entry(w.held[h], o) + Entry(held, h)
  }

  /** The effect of a call, in counts: who gains how many references of which object, and
      what is left as it was. */
  ghost predicate Effect<G, O>(w: World<G, O>, op: Op<G, O>, r: World<G, O>)
    requires Balanced(w) && Legal(w, op)
  {
    match op
    case DoCreate(o, count) =>
      if !Counts(count) then r == w
      else
        && OnlyOf(w, r, o) && o in r.refs && r.refs[o] == count && o in r.user && r.user[o] == count
        && forall h | h in r.held :: o !in r.held[h]
    case DoRetain(o, count) =>
      if !Counts(count) || o !in w.refs then r == w else OnlyOf(w, r, o) && Gains(w, r, o, count, count, map[])
    case DoRelease(o, count) =>
      if !Counts(count) || o !in w.refs then r == w
      else OnlyOf(w, r, o) && if w.refs[o] == count then Gone(r, o) else Gains(w, r, o, 0 - count, 0 - count, map[])
    case DoGraphCreate(g) =>
      && r.held.Keys == w.held.Keys + {g} && r.held[g] == map[]
      && forall p | p in w.refs.Keys + r.refs.Keys :: Alike(w, r, p)
    case DoGraphRetain(g, o, count, move) =>
      if !Counts(count) || o !in w.refs then r == w
      else
        && OnlyOf(w, r, o)
        && Gains(w, r, o, if move then 0 else count, if move then 0 - count else 0, map[g := count])
    case DoGraphRelease(g, o, count) =>
      if !Counts(count) || o !in w.held[g] then r == w
      else
        && OnlyOf(w, r, o) && o in w.refs
        && if w.refs[o] == count then Gone(r, o) else Gains(w, r, o, 0 - count, 0, map[g := 0 - count])
    case DoClone(g, clone) =>
      && r.held.Keys == w.held.Keys + {clone} && r.refs.Keys == w.refs.Keys && r.user == w.user
      && r.held[clone].Keys == w.held[g].Keys
      && forall p | p in w.refs ::
           if p in w.held[g] then Gains(w, r, p, 1, 0, map[]) && r.held[clone][p] == 1 else Alike(w, r, p)
    case DoGraphDestroy(g) =>
      && r.held.Keys == w.held.Keys - {g}
      && (forall p | p in w.held[g] ::
            p in w.refs && if w.held[g][p] == w.refs[p] then Gone(r, p) else Gains(w, r, p, 0 - w.held[g][p], 0, map[]))
      && forall p | p in w.refs.Keys + r.refs.Keys && p !in w.held[g] :: Alike(w, r, p)
  }

  // ---- Every operation keeps the balance ----

  /** Only the entry of g for o changed. */
  lemma HeldChanged<G, O>(held: map<G, map<O, int>>, g: G, counts: map<O, int>, o: O)
    requires g in held
    ensures HeldOf(held[g := counts], o) == HeldOf(held, o) - Entry(held[g], o) + Entry(counts, o)
  {
    HeldSplit(held, o, g);
    HeldSplit(held[g := counts], o, g);
    assert held[g := counts] - {g} == held - {g};
  }

  lemma HeldAdded<G, O>(held: map<G, map<O, int>>, g: G, counts: map<O, int>, o: O)
    requires g !in held
    ensures HeldOf(held[g := counts], o) == HeldOf(held, o) + Entry(counts, o)
  {
    HeldSplit(held[g := counts], o, g);
    assert held[g := counts] - {g} == held;
  }

  lemma {:induction false} HeldAtLeast<G, O>(held: map<G, map<O, int>>, o: O)
    requires forall g | g in held :: Entry(held[g], o) >= 0
    ensures HeldOf(held, o) >= 0 && forall g | g in held :: Entry(held[g], o) <= HeldOf(held, o)
    decreases |held|
  {
    forall g | g in held ensures HeldOf(held, o) >= 0 && Entry(held[g], o) <= HeldOf(held, o) {
      HeldSplit(held, o, g);
      HeldAtLeast(held - {g}, o);
    }
  }

  lemma KeptBalance<G, O>(w: World<G, O>, g: G, o: O, count: int)
    requires g in w.held && o in w.owners
    ensures forall p | p in w.refs ::
            HeldOf(Kept(w, g, o, count).held, p) == HeldOf(w.held, p) + if p == o then count else 0
  {
    var counts := w.held[g][o := Entry(w.held[g], o) + count];
    forall p | p in w.refs ensures HeldOf(Kept(w, g, o, count).held, p) == HeldOf(w.held, p) + if p == o then count
        else 0 {
      HeldChanged(w.held, g, counts, p);
    }
  }

  /** When o dies, the balance of the other objects is all that matters. */
  lemma DestroyedBalanced<G, O>(w: World<G, O>, o: O)
    requires w.owners.Keys == w.user.Keys == w.refs.Keys && o in w.refs
    requires forall p | p in w.refs && p != o :: Adds(w, p)
    requires forall h, p | h in w.held && p in w.held[h] && p != o :: Known(w, h, p)
    requires forall p, h | p in w.owners && p != o && h in w.owners[p] :: h in w.held && p in w.held[h]
    ensures Balanced(Destroyed(w, o))
  {
    var r := Destroyed(w, o);
    forall p | p in r.refs ensures Adds(r, p) {
      HeldSame(w.held, r.held, p);
      assert Adds(w, p);
    }
    forall h, p | h in r.held && p in r.held[h] ensures Known(r, h, p) {
      assert p in w.held[h] && Known(w, h, p);
    }
  }

  lemma CreateBalanced<G, O>(w: World<G, O>, o: O, count: nat)
    requires Balanced(w) && Legal(w, DoCreate(o, count))
    ensures Balanced(Create(w, o, count))
  {
    hide HeldOf;
    var r := Create(w, o, count);
    HeldNone(w.held, o);
    forall g, p | g in r.held && p in r.held[g] ensures Known(r, g, p) {
      assert Known(w, g, p);
    }
    forall p | p in r.refs ensures Adds(r, p) {
      assert p in w.refs ==> Adds(w, p);
    }
  }

  lemma {:induction false} HeldNone<G, O>(held: map<G, map<O, int>>, o: O)
    requires forall g | g in held :: o !in held[g]
    ensures HeldOf(held, o) == 0
    decreases |held|
  {
    if held != map[] {
      var g :| g in held;
      HeldSplit(held, o, g);
      HeldNone(held - {g}, o);
    }
  }

  /** Counts of one live object change together; owners and graphs stay. */
  lemma ShiftedBalanced<G, O>(w: World<G, O>, r: World<G, O>, o: O)
    requires Balanced(w) && o in w.refs && r.owners == w.owners && r.held == w.held
    requires o in r.refs && o in r.user && r.refs == w.refs[o := r.refs[o]] && r.user == w.user[o := r.user[o]]
    requires r.refs[o] >= 1 && r.user[o] >= 0 && r.refs[o] - w.refs[o] == r.user[o] - w.user[o]
    ensures Balanced(r)
  {
    forall g, p | g in r.held && p in r.held[g] ensures Known(r, g, p) {
      assert Known(w, g, p);
    }
    forall p | p in r.refs ensures Adds(r, p) {
      assert Adds(w, p);
    }
  }

  lemma RetainBalanced<G, O>(w: World<G, O>, o: O, count: nat)
    requires Balanced(w) && Counts(count)
    ensures Balanced(Booked(Retained(w, o, count), o, count))
  {
    if o in w.refs {
      hide Balanced;
      BalancedAt(w, o);
      ShiftedBalanced(w, Booked(Retained(w, o, count), o, count), o);
    }
  }

  lemma BalancedAt<G, O>(w: World<G, O>, o: O)
    requires Balanced(w)
    ensures w.owners.Keys == w.user.Keys == w.refs.Keys && (o in w.refs ==> Adds(w, o))
    ensures o in w.refs ==>
              HeldOf(w.held, o) >= 0 && forall g | g in w.held :: 0 <= Entry(w.held[g], o) <= HeldOf(w.held, o)
  {
    forall g | g in w.held ensures Entry(w.held[g], o) >= 0 {
      assert o in w.held[g] ==> Known(w, g, o);
    }
    HeldAtLeast(w.held, o);
  }

  lemma ReleaseBalanced<G, O>(w: World<G, O>, o: O, count: nat)
    requires Balanced(w) && Counts(count) && Legal(w, DoRelease(o, count))
    ensures Balanced(Booked(Released(w, o, count), o, 0 - count))
  {
    BalancedAt(w, o);
    if o in w.refs {
      if w.refs[o] == count {
        DestroyedBalanced(w, o);
      } else {
        hide Balanced;
        ShiftedBalanced(w, Booked(Released(w, o, count), o, 0 - count), o);
      }
    }
  }

  /** Graph g keeps `count` more references of o, or fewer, and the count of o, or of the
      application's references to it, makes up for it. */
  lemma KeptBalanced<G, O>(w: World<G, O>, v: World<G, O>, g: G, o: O, count: int)
    requires Balanced(w) && g in w.held && o in w.refs && v.owners == w.owners && v.held == w.held
    requires o in v.refs && o in v.user && v.refs == w.refs[o := v.refs[o]] && v.user == w.user[o := v.user[o]]
    requires v.refs[o] >= 1 && v.user[o] >= 0 && v.refs[o] - w.refs[o] == v.user[o] - w.user[o] + count
    requires Entry(w.held[g], o) + count >= 0
    ensures Balanced(Kept(v, g, o, count))
  {
    hide Adds, HeldOf;
    var r := Kept(v, g, o, count);
    forall h, p | h in r.held && p in r.held[h] ensures Known(r, h, p) {
      if p != o || h != g {
        assert Known(w, h, p);
      }
    }
    forall p | p in r.refs ensures Adds(r, p) {
      KeptAdds(w, v, g, o, count, p);
    }
  }

  lemma KeptAdds<G, O>(w: World<G, O>, v: World<G, O>, g: G, o: O, count: int, p: O)
    requires Balanced(w) && g in w.held && o in w.refs && v.owners == w.owners && v.held == w.held
    requires o in v.refs && o in v.user && v.refs == w.refs[o := v.refs[o]] && v.user == w.user[o := v.user[o]]
    requires v.refs[o] >= 1 && v.user[o] >= 0 && v.refs[o] - w.refs[o] == v.user[o] - w.user[o] + count
    requires p in v.refs
    ensures Adds(Kept(v, g, o, count), p)
  {
    hide HeldOf;
    KeptBalance(v, g, o, count);
    assert Adds(w, p);
  }

  lemma GraphRetainBalanced<G, O>(w: World<G, O>, g: G, o: O, count: nat, move: bool)
    requires Balanced(w) && Legal(w, DoGraphRetain(g, o, count, move))
    ensures Balanced(GraphRetained(w, g, o, count, move))
  {
    hide Balanced;
    BalancedAt(w, o);
    if Counts(count) && o in w.refs {
      KeptBalanced(w, if move then Booked(w, o, 0 - count) else Retained(w, o, count), g, o, count);
    }
  }

  lemma GraphReleaseBalanced<G, O>(w: World<G, O>, g: G, o: O, count: nat)
    requires Balanced(w) && Legal(w, DoGraphRelease(g, o, count))
    ensures Balanced(GraphReleased(w, g, o, count))
  {
    hide Balanced, Destroyed, HeldOf;
    BalancedAt(w, o);
    if Counts(count) && o in w.held[g] && o in w.refs && w.refs[o] >= count {
      if w.refs[o] == count {
        KeptDestroyed(w, g, o, 0 - count);
      } else {
        var v := w.(refs := w.refs[o := w.refs[o] - count]);
        KeptBalanced(w, v, g, o, 0 - count);
        assert Released(Kept(w, g, o, 0 - count), o, count) == Kept(v, g, o, 0 - count);
      }
    }
  }

  lemma KeptDestroyed<G, O>(w: World<G, O>, g: G, o: O, count: int)
    requires Balanced(w) && g in w.held && o in w.refs
    ensures Balanced(Destroyed(Kept(w, g, o, count), o))
  {
    var k := Kept(w, g, o, count);
    KeptBalance(w, g, o, count);
    forall h, p | h in k.held && p in k.held[h] && p != o ensures Known(k, h, p) {
      assert Known(w, h, p);
    }
    forall p | p in k.refs && p != o ensures Adds(k, p) {
      assert Adds(w, p);
    }
    DestroyedBalanced(k, o);
  }

  lemma CloneBalanced<G, O>(w: World<G, O>, g: G, clone: G)
    requires Balanced(w) && Legal(w, DoClone(g, clone))
    ensures Balanced(Cloned(w, g, clone))
  {
    hide Known, Adds, Cloned;
    CloneKeys(w, g, clone);
    var r := Cloned(w, g, clone);
    forall h, p | h in r.held && p in r.held[h] ensures Known(r, h, p) {
      CloneKnown(w, g, clone, h, p);
    }
    forall p, h | p in r.owners && h in r.owners[p] ensures h in r.held && p in r.held[h] {
      CloneOwns(w, g, clone, h, p);
    }
    forall p | p in r.refs ensures Adds(r, p) {
      CloneAdds(w, g, clone, p);
    }
  }

  lemma CloneKeys<G, O>(w: World<G, O>, g: G, clone: G)
    requires Balanced(w) && g in w.held
    ensures var r := Cloned(w, g, clone); r.owners.Keys == r.user.Keys == r.refs.Keys == w.refs.Keys
  {
    hide Known, Adds;
  }

  lemma CloneKnown<G, O>(w: World<G, O>, g: G, clone: G, h: G, p: O)
    requires Balanced(w) && Legal(w, DoClone(g, clone)) && h in Cloned(w, g, clone).held
             && p in Cloned(w, g, clone).held[h]
    ensures Known(Cloned(w, g, clone), h, p)
  {
    hide Adds;
    assert if h == clone then Known(w, g, p) else Known(w, h, p);
  }

  lemma CloneOwns<G, O>(w: World<G, O>, g: G, clone: G, h: G, p: O)
    requires Balanced(w) && Legal(w, DoClone(g, clone)) && p in Cloned(w, g, clone).owners
             && h in Cloned(w, g, clone).owners[p]
    ensures var r := Cloned(w, g, clone); h in r.held && p in r.held[h]
  {
    hide Adds;
  }

  lemma CloneAdds<G, O>(w: World<G, O>, g: G, clone: G, p: O)
    requires Balanced(w) && Legal(w, DoClone(g, clone)) && p in w.refs
    ensures Adds(Cloned(w, g, clone), p)
  {
    assert Adds(w, p);
    HeldAdded(w.held, clone, map o | o in w.held[g] :: 1, p);
  }

  lemma DropBalanced<G, O>(w: World<G, O>, g: G)
    requires Balanced(w) && g in w.held
    ensures Balanced(Dropped(w, g))
  {
    hide Known, Adds, Dropped;
    DropKeys(w, g);
    var r := Dropped(w, g);
    forall h, p | h in r.held && p in r.held[h] ensures Known(r, h, p) {
      DropKnown(w, g, h, p);
    }
    forall p, h | p in r.owners && h in r.owners[p] ensures h in r.held && p in r.held[h] {
      DropOwns(w, g, h, p);
    }
    forall p | p in r.refs ensures Adds(r, p) {
      DropAdds(w, g, p);
    }
  }

  lemma DropKeys<G, O>(w: World<G, O>, g: G)
    requires Balanced(w) && g in w.held
    ensures var r := Dropped(w, g); r.owners.Keys == r.user.Keys == r.refs.Keys
  {
    hide Known, Adds;
  }

  lemma DropKnown<G, O>(w: World<G, O>, g: G, h: G, p: O)
    requires Balanced(w) && g in w.held && h in Dropped(w, g).held && p in Dropped(w, g).held[h]
    ensures Known(Dropped(w, g), h, p)
  {
    hide Adds;
    assert Known(w, h, p);
  }

  lemma DropOwns<G, O>(w: World<G, O>, g: G, h: G, p: O)
    requires Balanced(w) && g in w.held && p in Dropped(w, g).owners && h in Dropped(w, g).owners[p]
    ensures var r := Dropped(w, g); h in r.held && p in r.held[h]
  {
    hide Adds;
    assert Known(w, h, p);
    assert p in w.held[g] ==> Known(w, g, p);
  }

  lemma DropAdds<G, O>(w: World<G, O>, g: G, p: O)
    requires Balanced(w) && g in w.held && p in Dropped(w, g).refs
    ensures Adds(Dropped(w, g), p)
  {
    BalancedAt(w, p);
    HeldSplit(w.held, p, g);
    HeldSame(w.held - {g}, Dropped(w, g).held, p);
  }

  lemma PerformBalanced<G, O>(w: World<G, O>, op: Op<G, O>)
    requires Balanced(w) && Legal(w, op)
    ensures Balanced(Perform(w, op))
  {
    hide Balanced, Retained, Released, Booked, GraphRetained, GraphReleased, Cloned, Dropped, Create;
    match op
    case DoCreate(o, count) => CreateBalanced(w, o, count);
    case DoRetain(o, count) => if Counts(count) { RetainBalanced(w, o, count); }
    case DoRelease(o, count) => if Counts(count) { ReleaseBalanced(w, o, count); }
    case DoGraphCreate(g) => NewGraphBalanced(w, g);
    case DoGraphRetain(g, o, count, move) => GraphRetainBalanced(w, g, o, count, move);
    case DoGraphRelease(g, o, count) => GraphReleaseBalanced(w, g, o, count);
    case DoClone(g, clone) => CloneBalanced(w, g, clone);
    case DoGraphDestroy(g) => DropBalanced(w, g);
  }

  lemma NewGraphBalanced<G, O>(w: World<G, O>, g: G)
    requires Balanced(w) && g !in w.held
    ensures Balanced(w.(held := w.held[g := map[]]))
  {
    forall o | o in w.refs ensures HeldOf(w.held[g := map[]], o) == HeldOf(w.held, o) {
      HeldAdded(w.held, g, map[], o);
    }
  }

  /** Every operation of the sequence is legal when its turn comes. */
  ghost predicate AllLegal<G, O>(w: World<G, O>, ops: seq<Op<G, O>>)
    decreases |ops|
  {
    ops == [] || (Balanced(w) && Legal(w, ops[0]) && AllLegal(Perform(w, ops[0]), ops[1..]))
  }

  ghost function PerformAll<G, O>(w: World<G, O>, ops: seq<Op<G, O>>): World<G, O>
    requires AllLegal(w, ops)
    decreases |ops|
  {
    if ops == [] then w else PerformAll(Perform(w, ops[0]), ops[1..])
  }

  /** Conservation: after any legal sequence of calls the books balance. */
  lemma {:induction false} AlwaysBalanced<G, O>(w: World<G, O>, ops: seq<Op<G, O>>)
    requires Balanced(w) && AllLegal(w, ops)
    ensures Balanced(PerformAll(w, ops))
    decreases |ops|
  {
    hide Balanced, Perform, Legal;
    if ops != [] {
      PerformBalanced(w, ops[0]);
      AlwaysBalanced(Perform(w, ops[0]), ops[1..]);
    }
  }

  // ---- The effects ----

  lemma CreateEffect<G, O>(w: World<G, O>, o: O, count: nat)
    requires Balanced(w) && Legal(w, DoCreate(o, count))
    ensures Effect(w, DoCreate(o, count), Create(w, o, count))
  {
    hide Adds, HeldOf;
  }

  lemma RetainEffect<G, O>(w: World<G, O>, o: O, count: nat)
    requires Balanced(w)
    ensures Effect(w, DoRetain(o, count), Perform(w, DoRetain(o, count)))
  {
    hide Adds, HeldOf;
  }

  /** The last references of o go, as far as the counts of all others are concerned. */
  lemma DestroyedEffect<G, O>(w: World<G, O>, o: O)
    ensures OnlyOf(w, Destroyed(w, o), o) && Gone(Destroyed(w, o), o)
  {
  }

  /** References of an object are given back, whoever holds them: it loses exactly that many,
      or dies with the last ones, and a call for more than there are changes nothing. */
  lemma ReleasedExactly<G, O>(w: World<G, O>, o: O, count: nat)
    ensures var r := Released(w, o, count);
            if o !in w.refs || w.refs[o] < count then r == w
            else
              && OnlyOf(w, r, o)
              && if w.refs[o] == count then Gone(r, o)
                 else o in r.refs && r.refs[o] == w.refs[o] - count && r.user == w.user && r.held == w.held
  {
    hide Destroyed, OnlyOf, Gone;
    DestroyedEffect(w, o);
    if o in w.refs {
      OtherRefs(w, o, count);
    }
  }

  lemma OtherRefs<G, O>(w: World<G, O>, o: O, count: nat)
    requires o in w.refs
    ensures OnlyOf(w, w.(refs := w.refs[o := w.refs[o] - count]), o)
  {
  }

  lemma ReleaseEffect<G, O>(w: World<G, O>, o: O, count: nat)
    requires Balanced(w) && Legal(w, DoRelease(o, count))
    ensures Effect(w, DoRelease(o, count), Perform(w, DoRelease(o, count)))
  {
    hide Balanced, HeldOf, Destroyed, Known;
    BalancedAt(w, o);
    DestroyedEffect(w, o);
  }

  lemma GraphRetainEffect<G, O>(w: World<G, O>, g: G, o: O, count: nat, move: bool)
    requires Balanced(w) && Legal(w, DoGraphRetain(g, o, count, move))
    ensures Effect(w, DoGraphRetain(g, o, count, move), GraphRetained(w, g, o, count, move))
  {
    hide Balanced, GraphRetained, OnlyOf, Gains;
    BalancedKeys(w);
    if Counts(count) && o in w.refs {
      RetainOnly(w, g, o, count, move);
      RetainGains(w, g, o, count, move);
    } else {
      RetainNothing(w, g, o, count, move);
    }
  }

  lemma RetainNothing<G, O>(w: World<G, O>, g: G, o: O, count: nat, move: bool)
    requires g in w.held && w.owners.Keys == w.refs.Keys && (!Counts(count) || o !in w.refs)
    ensures GraphRetained(w, g, o, count, move) == w
  {
  }

  lemma RetainOnly<G, O>(w: World<G, O>, g: G, o: O, count: nat, move: bool)
    requires g in w.held && w.owners.Keys == w.user.Keys == w.refs.Keys && Counts(count) && o in w.refs
    ensures OnlyOf(w, GraphRetained(w, g, o, count, move), o)
  {
  }

  lemma RetainGains<G, O>(w: World<G, O>, g: G, o: O, count: nat, move: bool)
    requires g in w.held && w.owners.Keys == w.user.Keys == w.refs.Keys && Counts(count) && o in w.refs
    ensures Gains(w, GraphRetained(w, g, o, count, move), o, if move then 0 else count,
              if move then 0 - count else 0, map[g := count])
  {
  }

  lemma BalancedKeys<G, O>(w: World<G, O>)
    requires Balanced(w)
    ensures w.owners.Keys == w.user.Keys == w.refs.Keys
  {
  }

  /** A graph gives references back, be they more than it holds: it loses that many, and so
      does the object, unless these were the last. */
  lemma GraphReleasedExactly<G, O>(w: World<G, O>, g: G, o: O, count: nat)
    requires Balanced(w) && g in w.held
    ensures w.owners.Keys == w.refs.Keys
    ensures var r := GraphReleased(w, g, o, count);
            if !Counts(count) || o !in w.held[g] || o !in w.refs || w.refs[o] < count then r == w
            else
              && OnlyOf(w, r, o)
              && if w.refs[o] == count then Gone(r, o) else Gains(w, r, o, 0 - count, 0, map[g := 0 - count])
  {
    hide Adds, HeldOf, Known, Destroyed;
    if o in w.held[g] && o in w.refs && w.refs[o] == count {
      var k := Kept(w, g, o, 0 - count);
      DestroyedEffect(k, o);
      var r := Destroyed(k, o);
      assert GraphReleased(w, g, o, count) == if Counts(count) then r else w;
      assert OnlyOf(w, k, o);
      OnlyOfThrough(w, k, r, o);
    }
  }

  lemma OnlyOfThrough<G, O>(w: World<G, O>, k: World<G, O>, r: World<G, O>, o: O)
    requires OnlyOf(w, k, o) && OnlyOf(k, r, o) && k.refs.Keys == w.refs.Keys
    ensures OnlyOf(w, r, o)
  {
    hide Alike;
    forall p | p in w.refs.Keys + r.refs.Keys && p != o ensures Alike(w, r, p) {
      assert Alike(k, r, p) && (p in k.refs ==> Alike(w, k, p));
      AlikeThrough(w, k, r, p);
    }
  }

  lemma AlikeThrough<G, O>(w: World<G, O>, k: World<G, O>, r: World<G, O>, p: O)
    requires k.held.Keys == w.held.Keys == r.held.Keys && k.refs.Keys == w.refs.Keys
    requires Alike(k, r, p) && (p in k.refs ==> Alike(w, k, p)) && (p in r.refs || p in w.refs)
    ensures Alike(w, r, p)
  {
  }

  lemma GraphReleaseEffect<G, O>(w: World<G, O>, g: G, o: O, count: nat)
    requires Balanced(w) && Legal(w, DoGraphRelease(g, o, count))
    ensures w.owners.Keys == w.refs.Keys
    ensures Effect(w, DoGraphRelease(g, o, count), GraphReleased(w, g, o, count))
  {
    hide Adds, HeldOf, GraphReleased, OnlyOf, Gone, Gains;
    BalancedAt(w, o);
    GraphReleasedExactly(w, g, o, count);
  }

  lemma CloneEffect<G, O>(w: World<G, O>, g: G, clone: G)
    requires Balanced(w) && Legal(w, DoClone(g, clone))
    ensures Effect(w, DoClone(g, clone), Cloned(w, g, clone))
  {
    hide Adds, HeldOf, Known, Gains, Alike;
    var r := Cloned(w, g, clone);
    CloneKeys(w, g, clone);
    forall p | p in w.refs
      ensures if p in w.held[g] then Gains(w, r, p, 1, 0, map[]) && r.held[clone][p] == 1 else Alike(w, r, p)
    {
      CloneOne(w, g, clone, p);
    }
  }

  lemma CloneOne<G, O>(w: World<G, O>, g: G, clone: G, p: O)
    requires Balanced(w) && Legal(w, DoClone(g, clone)) && p in w.refs
    ensures var r := Cloned(w, g, clone);
            && clone in r.held && (p in r.held[clone] <==> p in w.held[g])
            && if p in w.held[g] then Gains(w, r, p, 1, 0, map[]) && r.held[clone][p] == 1 else Alike(w, r, p)
  {
    hide Adds, HeldOf, Known;
  }

  lemma DropEffect<G, O>(w: World<G, O>, g: G)
    requires Balanced(w) && g in w.held
    ensures Effect(w, DoGraphDestroy(g), Dropped(w, g))
  {
    hide Adds, HeldOf, Known, Gone, Gains, Alike;
    var r := Dropped(w, g);
    forall p | p in w.held[g]
      ensures p in w.refs
              && if w.held[g][p] == w.refs[p] then Gone(r, p) else Gains(w, r, p, 0 - w.held[g][p], 0, map[])
    {
      DropOne(w, g, p);
    }
    forall p | p in w.refs.Keys + r.refs.Keys && p !in w.held[g] ensures Alike(w, r, p) {
      DropOther(w, g, p);
    }
  }

  lemma DropOther<G, O>(w: World<G, O>, g: G, p: O)
    requires Balanced(w) && g in w.held && p !in w.held[g]
    ensures Alike(w, Dropped(w, g), p)
  {
    hide Adds, HeldOf, Known;
  }

  lemma DropOne<G, O>(w: World<G, O>, g: G, p: O)
    requires Balanced(w) && g in w.held && p in w.held[g]
    ensures p in w.refs
    ensures var r := Dropped(w, g);
            if w.held[g][p] == w.refs[p] then Gone(r, p) else Gains(w, r, p, 0 - w.held[g][p], 0, map[])
  {
    hide HeldOf;
    BalancedAt(w, p);
    assert Known(w, g, p);
    DropShare(w, g, p);
  }

  lemma DropShare<G, O>(w: World<G, O>, g: G, p: O)
    requires w.owners.Keys == w.user.Keys == w.refs.Keys && p in w.refs
    requires g in w.held && p in w.held[g] && 0 <= w.held[g][p] <= w.refs[p]
    ensures var r := Dropped(w, g);
            if w.held[g][p] == w.refs[p] then Gone(r, p) else Gains(w, r, p, 0 - w.held[g][p], 0, map[])
  {
    assert p in Dying(w, g, w.held[g].Keys) <==> w.held[g][p] == w.refs[p];
  }

  /** Every legal call changes the counts by exactly its effect. */
  lemma PerformExactly<G, O>(w: World<G, O>, op: Op<G, O>)
    requires Balanced(w) && Legal(w, op)
    ensures Effect(w, op, Perform(w, op))
  {
    hide Balanced, Effect, Retained, Released, Booked, GraphRetained, GraphReleased, Cloned, Dropped, Create;
    match op
    case DoCreate(o, count) => CreateEffect(w, o, count);
    case DoRetain(o, count) => RetainEffect(w, o, count);
    case DoRelease(o, count) => ReleaseEffect(w, o, count);
    case DoGraphCreate(g) => NewGraphEffect(w, g);
    case DoGraphRetain(g, o, count, move) => GraphRetainEffect(w, g, o, count, move);
    case DoGraphRelease(g, o, count) => GraphReleaseEffect(w, g, o, count);
    case DoClone(g, clone) => CloneEffect(w, g, clone);
    case DoGraphDestroy(g) => DropEffect(w, g);
  }

  lemma NewGraphEffect<G, O>(w: World<G, O>, g: G)
    requires Balanced(w) && Legal(w, DoGraphCreate(g))
    ensures Effect(w, DoGraphCreate(g), Perform(w, DoGraphCreate(g)))
  {
    hide Adds, HeldOf;
  }
}
