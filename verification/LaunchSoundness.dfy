/** Every state the launch goes through is sound: ids number the log, wait lists reduced
    to one launch per foreign stream cover every dependency, and a skipped wait list
    belongs to a late sole child whose elder siblings are already launched. */
module LaunchSoundness {
  import opened Dags
  import opened Streams
  import opened Launching

  // ---- The reduced wait list ----

  /** Slot `on` holds a dependency of `node` on stream `on` launched no earlier than d. */
  ghost predicate Slotted<N>(p: Plan<N>, s: Launch<N>, node: N, w: seq<Option<N>>, d: N)
    requires At(p, s, node) && d in Nodes(p.g) && |w| == p.limit
  {
    var slot := w[p.stream[d]];
    && slot.Some? && slot.value in p.g.deps[node] && slot.value in Nodes(p.g)
    && p.stream[slot.value] == p.stream[d] && s.ids[d] <= s.ids[slot.value]
  }

  /** One more dependency keeps the covered ones covered and covers itself. */
  lemma LatestWithSlots<N>(p: Plan<N>, s: Launch<N>, node: N, w: seq<Option<N>>, d: N)
    requires At(p, s, node) && d in Nodes(p.g) && d in p.g.deps[node] && OnStream(p, node, w)
    ensures var w' := LatestWith(p, s, node, w, d);
            && OnStream(p, node, w')
            && (p.stream[d] != p.stream[node] ==> Slotted(p, s, node, w', d))
            && forall c | c in Nodes(p.g) && Slotted(p, s, node, w, c) :: Slotted(p, s, node, w', c)
  {
    hide ListsInside, Mirrored, Distinct;
  }

  ghost predicate OnStream<N>(p: Plan<N>, node: N, w: seq<Option<N>>)
    requires Planned(p) && node in Nodes(p.g)
  {
    |w| == p.limit && forall j | 0 <= j < p.limit && w[j].Some? ::
      w[j].value in Nodes(p.g) && p.stream[w[j].value] == j && w[j].value in p.g.deps[node]
  }

  lemma {:induction false} LatestSlots<N>(p: Plan<N>, s: Launch<N>, node: N, k: nat)
    requires At(p, s, node) && k <= |p.g.deps[node]|
    ensures OnStream(p, node, Latest(p, s, node, k))
    ensures forall i | 0 <= i < k && p.g.deps[node][i] in Nodes(p.g) && p.stream[p.g.deps[node][i]] != p.stream[node] ::
              Slotted(p, s, node, Latest(p, s, node, k), p.g.deps[node][i])
  {
    hide ListsInside, Mirrored, Distinct, Slotted;
    if k > 0 {
      ParentOf(p.g, node, k - 1);
      LatestSlots(p, s, node, k - 1);
      LatestWithSlots(p, s, node, Latest(p, s, node, k - 1), p.g.deps[node][k - 1]);
    }
  }

  lemma {:induction false} WaitListHas<N>(s: Launch<N>, w: seq<Option<N>>, k: nat, i: nat)
    requires i < k <= |w| && (forall j | 0 <= j < |w| && w[j].Some? :: w[j].value in s.commands) && w[i].Some?
    ensures s.commands[w[i].value] in WaitList(s, w, k)
  {
    if i < k - 1 {
      WaitListHas(s, w, k - 1, i);
    }
  }

  // ---- One submission ----

  lemma SubmitNumbered<N>(p: Plan<N>, base: nat, s: Launch<N>, node: N, wait: bool)
    requires At(p, s, node) && Numbered(p, base, s) && !Launched(s, node)
    ensures Numbered(p, base, Submit(p, s, node, wait))
  {
    hide WellFormed, Latest, WaitList;
    var t := Submit(p, s, node, wait);
    forall n | n in Nodes(p.g) && Launched(t, n) ensures Enqueued(p, base, t, n) {
      if n != node {
        assert Enqueued(p, base, s, n);
      }
    }
    forall j | 0 <= j < t.next ensures Named(p, base, t, j) {
      if j < s.next {
        assert Named(p, base, s, j);
      }
    }
  }

  lemma EntryStable<N>(p: Plan<N>, base: nat, s: Launch<N>, t: Launch<N>, n: N)
    requires At(p, s, n) && Fits(p, t) && Follows(s, t) && Launched(s, n)
    requires Numbered(p, base, s) && Entry(p, s, n) && Unmoved(p, s, t)
    ensures Entry(p, t, n)
  {
    hide ListsInside, Mirrored, Distinct, Sheltered, Covered, Precise, Elided, Unmoved;
    assert Enqueued(p, base, s, n);
    if Elided(p, n) {
      ShelteredStable(p, base, s, t, n);
    } else {
      PreciseStable(p, s, t, n);
      forall d | d in p.g.deps[n] && d in Nodes(p.g) ensures Covered(p, t, n, d) {
        CoveredStable(p, s, t, n, d);
      }
    }
  }

  lemma PreciseStable<N>(p: Plan<N>, s: Launch<N>, t: Launch<N>, n: N)
    requires At(p, s, n) && Fits(p, t) && Follows(s, t) && Launched(s, n) && Precise(p, s, n)
    requires forall d | d in p.g.deps[n] :: d in Nodes(p.g) && Launched(s, d)
    ensures Precise(p, t, n)
  {
    hide ListsInside, Mirrored, Distinct;
    forall d | d in p.g.deps[n] ensures LatestDep(p, t, n, d) <==> LatestDep(p, s, n, d) {
    }
    forall c | c in t.log[t.commands[n]].waits ensures WaitsForLatest(p, t, n, c) {
      assert WaitsForLatest(p, s, n, c);
    }
  }

  lemma ShelteredStable<N>(p: Plan<N>, base: nat, s: Launch<N>, t: Launch<N>, n: N)
    requires At(p, s, n) && Fits(p, t) && Follows(s, t) && Launched(s, n)
    requires Enqueued(p, base, s, n) && Sheltered(p, s, n) && Unmoved(p, s, t)
    requires forall d | d in p.g.deps[n] :: d in Nodes(p.g) && Launched(s, d)
    ensures Sheltered(p, t, n)
  {
    hide ListsInside, Mirrored, Distinct, Reaches;
  }

  /** Nodes launched between s and t get ids no smaller than any id of s. */
  ghost predicate Unmoved<N>(p: Plan<N>, s: Launch<N>, t: Launch<N>)
    requires Planned(p) && Fits(p, s) && Fits(p, t)
  {
    forall n | n in Nodes(p.g) && !Launched(s, n) :: t.ids[n] == -1 || t.ids[n] >= s.next
  }

  lemma CoveredStable<N>(p: Plan<N>, s: Launch<N>, t: Launch<N>, n: N, d: N)
    requires At(p, s, n) && Fits(p, t) && Follows(s, t) && Launched(s, n) && d in Nodes(p.g)
    requires s.commands[n] < |s.log| && Covered(p, s, n, d)
    requires forall e | e in p.g.deps[n] :: Launched(s, e)
    requires Launched(s, d)
    ensures Covered(p, t, n, d)
  {
    hide ListsInside, Mirrored, Distinct;
    if p.stream[d] != p.stream[n] {
      var e :| e in p.g.deps[n] && e in Nodes(p.g) && Stands(p, s, n, d, e);
      assert Stands(p, t, n, d, e);
    }
  }

  lemma SubmitCovered<N>(p: Plan<N>, base: nat, s: Launch<N>, node: N, d: N)
    requires At(p, s, node) && Numbered(p, base, s) && !Launched(s, node) && Ready(p, s, node)
    requires d in p.g.deps[node] && d in Nodes(p.g)
    ensures Covered(p, Submit(p, s, node, true), node, d)
  {
    hide ListsInside, Mirrored, Distinct, Latest, WaitList, Numbered;
    if p.stream[d] != p.stream[node] {
      var i :| 0 <= i < |p.g.deps[node]| && p.g.deps[node][i] == d;
      LatestSlots(p, s, node, |p.g.deps[node]|);
      var w := Latest(p, s, node, |p.g.deps[node]|);
      WaitListHas(s, w, p.limit, p.stream[d]);
      assert Stands(p, Submit(p, s, node, true), node, d, w[p.stream[d]].value);
    }
  }

  lemma {:induction false} LatestForeign<N>(p: Plan<N>, s: Launch<N>, node: N, k: nat)
    requires At(p, s, node) && k <= |p.g.deps[node]|
    ensures Latest(p, s, node, k)[p.stream[node]] == None
  {
    hide ListsInside, Mirrored, Distinct;
    if k > 0 {
      ParentOf(p.g, node, k - 1);
      LatestForeign(p, s, node, k - 1);
    }
  }

  lemma {:induction false} WaitListSlot<N>(s: Launch<N>, w: seq<Option<N>>, k: nat, c: nat) returns (i: nat)
    requires k <= |w| && (forall j | 0 <= j < |w| && w[j].Some? :: w[j].value in s.commands) && c in WaitList(s, w, k)
    ensures i < k && w[i].Some? && c == s.commands[w[i].value]
  {
    if w[k - 1].Some? && c == s.commands[w[k - 1].value] {
      i := k - 1;
    } else {
      i := WaitListSlot(s, w, k - 1, c);
    }
  }

  lemma {:induction false} WaitListDistinct<N>(s: Launch<N>, w: seq<Option<N>>, k: nat)
    requires k <= |w| && (forall j | 0 <= j < |w| && w[j].Some? :: w[j].value in s.commands)
    requires forall i, j | 0 <= i < j < |w| && w[i].Some? && w[j].Some? ::
               s.commands[w[i].value] != s.commands[w[j].value]
    ensures Distinct(WaitList(s, w, k))
  {
    if k > 0 {
      WaitListDistinct(s, w, k - 1);
      if w[k - 1].Some? && s.commands[w[k - 1].value] in WaitList(s, w, k - 1) {
        var i := WaitListSlot(s, w, k - 1, s.commands[w[k - 1].value]);
      }
    }
  }

  /** The slots hold exactly the latest dependency of each foreign stream. */
  lemma SlotsAreLatest<N>(p: Plan<N>, base: nat, s: Launch<N>, node: N)
    requires At(p, s, node) && Numbered(p, base, s) && Ready(p, s, node)
    ensures var w := Latest(p, s, node, |p.g.deps[node]|);
            && OnStream(p, node, w)
            && (forall i | 0 <= i < p.limit && w[i].Some? :: LatestDep(p, s, node, w[i].value))
            && forall d | d in p.g.deps[node] && LatestDep(p, s, node, d) :: w[p.stream[d]] == Some(d)
  {
    hide ListsInside, Mirrored, Distinct, Latest, Numbered;
    var w := Latest(p, s, node, |p.g.deps[node]|);
    LatestSlots(p, s, node, |p.g.deps[node]|);
    LatestForeign(p, s, node, |p.g.deps[node]|);
    forall d | d in p.g.deps[node] && d in Nodes(p.g) && p.stream[d] != p.stream[node]
      ensures Slotted(p, s, node, w, d)
    {
      var i :| 0 <= i < |p.g.deps[node]| && p.g.deps[node][i] == d;
    }
    forall d | d in p.g.deps[node] && LatestDep(p, s, node, d) ensures w[p.stream[d]] == Some(d) {
      OneId(p, base, s, d, w[p.stream[d]].value);
    }
  }

  lemma OneId<N>(p: Plan<N>, base: nat, s: Launch<N>, a: N, b: N)
    requires Planned(p) && Fits(p, s) && Numbered(p, base, s) && a in Nodes(p.g) && b in Nodes(p.g)
    requires Launched(s, a) && Launched(s, b)
    ensures s.ids[a] == s.ids[b] || s.commands[a] == s.commands[b] ==> a == b
  {
    hide WellFormed, Named;
    assert Enqueued(p, base, s, a) && Enqueued(p, base, s, b);
  }

  lemma SubmitPrecise<N>(p: Plan<N>, base: nat, s: Launch<N>, node: N)
    requires At(p, s, node) && Numbered(p, base, s) && !Launched(s, node) && Ready(p, s, node)
    ensures Precise(p, Submit(p, s, node, true), node)
  {
    hide ListsInside, Mirrored, Distinct, Latest, WaitList, Numbered;
    var w := Latest(p, s, node, |p.g.deps[node]|);
    SlotsAreLatest(p, base, s, node);
    forall i, j | 0 <= i < j < |w| && w[i].Some? && w[j].Some?
      ensures s.commands[w[i].value] != s.commands[w[j].value]
    {
      OneId(p, base, s, w[i].value, w[j].value);
    }
    WaitListDistinct(s, w, p.limit);
    var t := Submit(p, s, node, true);
    DepsStay(p, s, node);
    forall d | d in p.g.deps[node] && LatestDep(p, t, node, d) ensures t.commands[d] in WaitList(s, w, p.limit) {
      WaitListHas(s, w, p.limit, p.stream[d]);
    }
    forall c | c in WaitList(s, w, p.limit) ensures WaitsForLatest(p, t, node, c) {
      var i := WaitListSlot(s, w, p.limit, c);
      assert LatestDep(p, s, node, w[i].value);
    }
  }

  /** Submitting a node leaves its dependencies as they were. */
  lemma DepsStay<N>(p: Plan<N>, s: Launch<N>, node: N)
    requires At(p, s, node) && !Launched(s, node) && Ready(p, s, node)
    ensures var t := Submit(p, s, node, true);
            forall d | d in p.g.deps[node] ::
              && d in Nodes(p.g) && d != node && t.ids[d] == s.ids[d] && t.commands[d] == s.commands[d]
              && (LatestDep(p, t, node, d) <==> LatestDep(p, s, node, d))
  {
    hide Mirrored, Distinct, Latest, WaitList;
  }

  // ---- Where a call comes from ----

  /** Nodes launched after d descend from it. */
  ghost predicate Descends<N>(p: Plan<N>, s: Launch<N>, d: N)
    requires Planned(p) && Fits(p, s) && d in Nodes(p.g)
  {
    forall x | x in Nodes(p.g) && s.ids[d] < s.ids[x] :: Reaches(p.g, d, x)
  }

  /** The sole children of d among its first i children are launched. */
  ghost predicate EldersLaunched<N>(p: Plan<N>, s: Launch<N>, d: N, i: int)
    requires Planned(p) && Fits(p, s) && d in Nodes(p.g)
  {
    forall k | 0 <= k < i && k < |p.g.edges[d]| && SoleChild(p.g, d, k, p.g.edges[d][k]) :: Launched(s, p.g.edges[d][k])
  }

  /** A node about to be launched waits unless it is elided, and is elided only in the
      edge loop of its parent, after its elder sole siblings. */
  ghost predicate Called<N>(p: Plan<N>, s: Launch<N>, node: N, wait: bool)
    requires At(p, s, node)
  {
    !Launched(s, node) && Ready(p, s, node) ==>
      && (wait <==> !Elided(p, node))
      && forall d, i | d in Nodes(p.g) && SoleChild(p.g, d, i, node) && i >= p.limit ::
         Descends(p, s, d) && EldersLaunched(p, s, d, i)
  }

  lemma SubmitSheltered<N>(p: Plan<N>, base: nat, s: Launch<N>, node: N)
    requires At(p, s, node) && Numbered(p, base, s) && !Launched(s, node) && Ready(p, s, node)
    requires Elided(p, node) && Called(p, s, node, false)
    ensures Sheltered(p, Submit(p, s, node, false), node)
  {
    hide ListsInside, Mirrored, Latest, WaitList, Reaches, Elided;
    var t := Submit(p, s, node, false);
    var d, i := ElidedAt(p, node);
    assert Descends(p, s, d) && EldersLaunched(p, s, d, i);
    forall d', i', k | d' in Nodes(p.g) && SoleChild(p.g, d', i', node) && 0 <= k < i' && k < |p.g.edges[d']|
        && SoleChild(p.g, d', k, p.g.edges[d'][k])
      ensures p.g.edges[d'][k] in t.ids && 0 <= t.ids[p.g.edges[d'][k]] < t.ids[node]
    {
      assert d' == d && i' == i;
      assert Enqueued(p, base, s, p.g.edges[d][k]);
    }
  }

  lemma ElidedAt<N>(p: Plan<N>, node: N) returns (d: N, i: nat)
    requires WellFormed(p.g) && Elided(p, node)
    ensures d in Nodes(p.g) && SoleChild(p.g, d, i, node) && i >= p.limit
    ensures forall d', i' {:trigger SoleChild(p.g, d', i', node)} :: SoleChild(p.g, d', i', node) ==> d' == d && i' == i
  {
    d, i :| d in Nodes(p.g) && SoleChild(p.g, d, i, node) && i >= p.limit;
    SoleChildAt(p.g, d, i);
  }

  lemma SubmitEntry<N>(p: Plan<N>, base: nat, s: Launch<N>, node: N, wait: bool)
    requires At(p, s, node) && Numbered(p, base, s) && !Launched(s, node) && Ready(p, s, node)
    requires Called(p, s, node, wait)
    ensures Entry(p, Submit(p, s, node, wait), node)
  {
    hide ListsInside, Mirrored, Distinct, Latest, WaitList, Sheltered, Covered, Precise, Elided, Descends,
      EldersLaunched;
    forall d | d in p.g.deps[node] ensures d in Nodes(p.g) && 0 <= s.ids[d] < s.next {
      DepIn(p.g, node, d);
      assert Enqueued(p, base, s, d);
      assert Called(p, s, node, wait);
    }
    if wait {
      forall d | d in p.g.deps[node] && d in Nodes(p.g) ensures Covered(p, Submit(p, s, node, true), node, d) {
        SubmitCovered(p, base, s, node, d);
      }
      SubmitPrecise(p, base, s, node);
    } else {
      SubmitSheltered(p, base, s, node);
    }
  }

  /** What the rest of the launch sees after `node` is submitted and, if it has no
      children, noted as a leaf. */
  ghost function Submitted<N>(p: Plan<N>, s: Launch<N>, node: N, wait: bool): (r: Launch<N>)
    requires At(p, s, node)
    ensures Fits(p, r)
  {
    var t := Submit(p, s, node, wait);
    if p.g.edges[node] == [] then NoteLeaf(p, t, node) else t
  }

  lemma SubmittedEntries<N>(p: Plan<N>, base: nat, s: Launch<N>, node: N, wait: bool)
    requires At(p, s, node) && Numbered(p, base, s) && Entries(p, s) && !Launched(s, node) && Ready(p, s, node)
    requires Called(p, s, node, wait)
    ensures Entries(p, Submitted(p, s, node, wait))
  {
    hide ListsInside, Mirrored, Distinct, Latest, WaitList, Entry, Numbered, Called, Ready, Follows;
    var t := Submit(p, s, node, wait);
    var r := Submitted(p, s, node, wait);
    SubmitFollows(p, s, node, wait);
    SubmitEntry(p, base, s, node, wait);
    SameEntry(p, t, r, node);
    forall n | n in Nodes(p.g) && Launched(r, n) && n != node ensures Entry(p, r, n) {
      EntryStable(p, base, s, r, n);
    }
  }

  lemma SameEntry<N>(p: Plan<N>, s: Launch<N>, t: Launch<N>, n: N)
    requires At(p, s, n) && Fits(p, t) && Entry(p, s, n)
    requires t == s.(leafs := t.leafs)
    ensures Entry(p, t, n)
  {
    hide ListsInside, Mirrored, Distinct, Reaches, Covered, Precise, Elided;
    SamePrecise(p, s, t, n);
    forall d | d in p.g.deps[n] && d in Nodes(p.g) && Covered(p, s, n, d) ensures Covered(p, t, n, d) {
      SameCovered(p, s, t, n, d);
    }
  }

  lemma SamePrecise<N>(p: Plan<N>, s: Launch<N>, t: Launch<N>, n: N)
    requires At(p, s, n) && Fits(p, t) && t == s.(leafs := t.leafs)
    ensures Precise(p, s, n) ==> Precise(p, t, n)
  {
    hide ListsInside, Mirrored, Distinct;
    forall d | d in p.g.deps[n] ensures LatestDep(p, t, n, d) <==> LatestDep(p, s, n, d) {
    }
    if Precise(p, s, n) {
      forall c | c in t.log[t.commands[n]].waits ensures WaitsForLatest(p, t, n, c) {
        assert WaitsForLatest(p, s, n, c);
      }
    }
  }

  lemma SameCovered<N>(p: Plan<N>, s: Launch<N>, t: Launch<N>, n: N, d: N)
    requires At(p, s, n) && Fits(p, t) && d in Nodes(p.g) && Covered(p, s, n, d)
    requires t == s.(leafs := t.leafs)
    ensures Covered(p, t, n, d)
  {
    hide ListsInside, Mirrored, Distinct;
    if p.stream[d] != p.stream[n] {
      var e :| e in p.g.deps[n] && e in Nodes(p.g) && Stands(p, s, n, d, e);
      assert Stands(p, t, n, d, e);
    }
  }

  lemma SubmittedLeafs<N>(p: Plan<N>, base: nat, s: Launch<N>, node: N, wait: bool)
    requires At(p, s, node) && Numbered(p, base, s) && LeafTable(p, s) && !Launched(s, node)
    ensures LeafTable(p, Submitted(p, s, node, wait))
  {
    hide ListsInside, Mirrored, Distinct, Latest, WaitList, LeafSlot, LeafKnown, Enqueued, Named;
    var r := Submitted(p, s, node, wait);
    forall i | 0 <= i < p.limit && r.leafs[i].Some? ensures LeafSlot(p, r, i) {
      SubmittedSlot(p, s, node, wait, i);
    }
    forall n | n in Nodes(p.g) && Launched(r, n) && p.g.edges[n] == [] ensures LeafKnown(p, r, n) {
      SubmittedKnown(p, base, s, node, wait, n);
    }
  }

  lemma SubmittedSlot<N>(p: Plan<N>, s: Launch<N>, node: N, wait: bool, i: nat)
    requires At(p, s, node) && LeafTable(p, s) && !Launched(s, node)
    requires i < p.limit && Submitted(p, s, node, wait).leafs[i].Some?
    ensures LeafSlot(p, Submitted(p, s, node, wait), i)
  {
    hide ListsInside, Mirrored, Distinct, Latest, WaitList, LeafKnown;
    if i != p.stream[node] || p.g.edges[node] != [] {
      assert LeafSlot(p, s, i);
    }
  }

  lemma SubmittedKnown<N>(p: Plan<N>, base: nat, s: Launch<N>, node: N, wait: bool, n: N)
    requires At(p, s, node) && Numbered(p, base, s) && LeafTable(p, s) && !Launched(s, node)
    requires n in Nodes(p.g) && Launched(Submitted(p, s, node, wait), n) && p.g.edges[n] == []
    ensures LeafKnown(p, Submitted(p, s, node, wait), n)
  {
    hide ListsInside, Mirrored, Distinct, Latest, WaitList, LeafSlot, Named;
    if n != node {
      assert LeafKnown(p, s, n);
      assert Enqueued(p, base, s, n);
      if p.stream[n] == p.stream[node] {
        assert s.ids[n] < s.next;
      } else {
        assert LeafKnown(p, s, n);
      }
    }
  }

  lemma SubmittedSound<N>(p: Plan<N>, base: nat, s: Launch<N>, node: N, wait: bool)
    requires Sound(p, base, s) && node in Nodes(p.g) && !Launched(s, node) && Ready(p, s, node)
    requires Called(p, s, node, wait)
    ensures Sound(p, base, Submitted(p, s, node, wait))
  {
    hide ListsInside, Mirrored, Distinct, Latest, WaitList, Entries, LeafTable, Called, Ready, Enqueued, Named;
    SubmitNumbered(p, base, s, node, wait);
    SubmittedEntries(p, base, s, node, wait);
    SubmittedLeafs(p, base, s, node, wait);
    NumberedNote(p, base, Submit(p, s, node, wait), Submitted(p, s, node, wait));
  }

  lemma NumberedNote<N>(p: Plan<N>, base: nat, s: Launch<N>, t: Launch<N>)
    requires Planned(p) && Fits(p, s) && Fits(p, t) && Numbered(p, base, s)
    requires t == s.(leafs := t.leafs)
    ensures Numbered(p, base, t)
  {
    hide WellFormed;
    forall n | n in Nodes(p.g) && Launched(t, n) ensures Enqueued(p, base, t, n) {
      assert Enqueued(p, base, s, n);
    }
    forall j | 0 <= j < t.next ensures Named(p, base, t, j) {
      assert Named(p, base, s, j);
    }
  }

  // ---- The whole recursion ----

  lemma {:induction false} OneSound<N>(p: Plan<N>, base: nat, s: Launch<N>, node: N, wait: bool)
    requires Sound(p, base, s) && node in Nodes(p.g) && Called(p, s, node, wait)
    ensures Sound(p, base, RunOne(p, s, node, wait).state)
    decreases Unlaunched(s), 0
  {
    hide ListsInside, Mirrored, Distinct, Submit, Ready, Numbered, Entries, LeafTable, Called;
    if s.ids[node] == -1 && Ready(p, s, node) && node !in p.failing {
      SubmittedSound(p, base, s, node, wait);
      SubmitFollows(p, s, node, wait);
      if p.g.edges[node] != [] {
        FirstChild(p, base, s, node, wait);
        EdgesSound(p, base, Submit(p, s, node, wait), node, 0);
      }
    }
  }

  lemma FirstChild<N>(p: Plan<N>, base: nat, s: Launch<N>, node: N, wait: bool)
    requires At(p, s, node) && Numbered(p, base, s) && !Launched(s, node)
    ensures var t := Submit(p, s, node, wait);
            Launched(t, node) && 0 <= t.ids[node] && Descends(p, t, node) && EldersLaunched(p, t, node, 0)
  {
    hide ListsInside, Mirrored, Distinct, Latest, WaitList;
    forall x | x in Nodes(p.g) && Launched(s, x) ensures s.ids[x] < s.next {
      assert Enqueued(p, base, s, x);
    }
  }

  lemma {:induction false} EdgesSound<N>(p: Plan<N>, base: nat, s: Launch<N>, node: N, i: nat)
    requires Sound(p, base, s) && node in Nodes(p.g) && i <= |p.g.edges[node]|
    requires Launched(s, node) && 0 <= s.ids[node] && Descends(p, s, node) && EldersLaunched(p, s, node, i)
    ensures Sound(p, base, RunEdges(p, s, node, i).state)
    decreases Unlaunched(s), |p.g.edges[node]| - i + 1
  {
    hide *;
    SoundAt(p, base, s, node);
    EdgesUnfold(p, s, node, i);
    if i < |p.g.edges[node]| {
      var child := p.g.edges[node][i];
      var wait := Waits(p, child, i);
      CalledAt(p, s, node, i);
      OneSound(p, base, s, child, wait);
      var r := RunOne(p, s, child, wait);
      if r.ok {
        NextChild(p, s, node, i);
        EdgesSound(p, base, r.state, node, i + 1);
      }
    }
  }

  lemma SoundAt<N>(p: Plan<N>, base: nat, s: Launch<N>, node: N)
    requires Sound(p, base, s) && node in Nodes(p.g)
    ensures At(p, s, node) && node in p.g.edges
  {
    hide ListsInside, Mirrored, Distinct;
  }

  lemma CalledAt<N>(p: Plan<N>, s: Launch<N>, node: N, i: nat)
    requires At(p, s, node) && i < |p.g.edges[node]| && p.g.edges[node][i] in Nodes(p.g)
    requires Descends(p, s, node) && EldersLaunched(p, s, node, i)
    ensures Called(p, s, p.g.edges[node][i], Waits(p, p.g.edges[node][i], i))
  {
    hide ListsInside, Mirrored, Distinct, Descends, EldersLaunched, Ready;
    var child := p.g.edges[node][i];
    ChildOf(p.g, node, i);
    SoleChildAt(p.g, node, i);
    if |p.g.deps[child]| == 1 {
      assert p.g.deps[child] == [node];
      assert SoleChild(p.g, node, i, child);
    }
  }

  /** After the i-th child: later launches still descend from the parent, and the child,
      if a sole child, is launched. */
  lemma NextChild<N>(p: Plan<N>, s: Launch<N>, node: N, i: nat)
    requires At(p, s, node) && i < |p.g.edges[node]| && p.g.edges[node][i] in Nodes(p.g)
    requires Launched(s, node) && 0 <= s.ids[node] && Descends(p, s, node) && EldersLaunched(p, s, node, i)
    requires RunOne(p, s, p.g.edges[node][i], Waits(p, p.g.edges[node][i], i)).ok
    ensures var r := RunOne(p, s, p.g.edges[node][i], Waits(p, p.g.edges[node][i], i)).state;
            Launched(r, node) && 0 <= r.ids[node] && Descends(p, r, node) && EldersLaunched(p, r, node, i + 1)
  {
    hide ListsInside, Mirrored, Distinct, RunOne, Waits, Reaches;
    var child := p.g.edges[node][i];
    var wait := Waits(p, child, i);
    var r := RunOne(p, s, child, wait).state;
    OneFollows(p, s, child, wait);
    OneWithin(p, s, child, wait);
    forall x | x in Nodes(p.g) && r.ids[node] < r.ids[x] ensures Reaches(p.g, node, x) {
      if !Launched(s, x) {
        assert New(s, r, x);
        ReachesEdge(p.g, node, child);
        ReachesThrough(p.g, node, child, x);
      }
    }
  }

  // ---- The vertex loop ----

  /** Between calls, every node whose dependencies are all launched is launched itself,
      unless it has none. */
  ghost predicate Quiescent<N>(p: Plan<N>, s: Launch<N>) {
    forall n | n in p.g.deps && p.g.deps[n] != [] && AllDeps(p, s, n) :: Launched(s, n)
  }

  /** The dependency-free vertices among the first k are launched. */
  ghost predicate RootsLaunched<N>(p: Plan<N>, s: Launch<N>, k: nat)
    requires k <= |p.g.vertices|
  {
    forall j | 0 <= j < k && p.g.vertices[j] in p.g.deps && p.g.deps[p.g.vertices[j]] == [] ::
        Launched(s, p.g.vertices[j])
  }

  lemma CalledAtTop<N>(p: Plan<N>, s: Launch<N>, node: N)
    requires At(p, s, node) && Quiescent(p, s)
    ensures Called(p, s, node, true)
  {
    hide ListsInside, Mirrored, Distinct, Descends, EldersLaunched, Ready;
    ReadyIsAll(p, s, node);
  }

  lemma StillQuiescent<N>(p: Plan<N>, s: Launch<N>, t: Launch<N>)
    requires Quiescent(p, s) && Follows(s, t) && Complete(p, s, t)
    ensures Quiescent(p, t)
  {
    forall n | n in p.g.deps && p.g.deps[n] != [] && AllDeps(p, t, n) ensures Launched(t, n) {
      if !HasNewDep(p, s, t, n) {
        assert AllDeps(p, s, n);
      }
    }
  }

  lemma StillLaunched<N>(p: Plan<N>, s: Launch<N>, t: Launch<N>, k: nat)
    requires k < |p.g.vertices| && At(p, s, p.g.vertices[k]) && Follows(s, t) && RootsLaunched(p, s, k)
    requires Ready(p, s, p.g.vertices[k]) ==> Launched(t, p.g.vertices[k])
    ensures RootsLaunched(p, t, k + 1)
  {
    hide ListsInside, Mirrored, Distinct;
  }

  lemma {:induction false} FromSound<N>(p: Plan<N>, base: nat, s: Launch<N>, k: nat)
    requires Sound(p, base, s) && k <= |p.g.vertices| && Quiescent(p, s) && RootsLaunched(p, s, k)
    ensures var r := RunFrom(p, s, k);
            Sound(p, base, r.state) && s.log <= r.state.log &&
            (r.ok ==> Quiescent(p, r.state) && RootsLaunched(p, r.state, |p.g.vertices|))
    decreases |p.g.vertices| - k
  {
    hide ListsInside, Mirrored, Distinct, Numbered, Entries, LeafTable, Quiescent, RootsLaunched, Complete, Called,
      Ready, Launched;
    if k < |p.g.vertices| {
      var node := p.g.vertices[k];
      CalledAtTop(p, s, node);
      OneSound(p, base, s, node, true);
      OneFollows(p, s, node, true);
      OneComplete(p, s, node, true);
      var r := RunOne(p, s, node, true);
      if r.ok {
        StillQuiescent(p, s, r.state);
        StillLaunched(p, s, r.state, k);
        FromSound(p, base, r.state, k + 1);
      }
    }
  }

  /** Nothing launched yet. */
  ghost predicate Idle<N>(p: Plan<N>, s: Launch<N>) {
    forall n | n in s.ids :: s.ids[n] == -1
  }

  lemma StartSound<N>(p: Plan<N>, s: Launch<N>)
    requires Planned(p) && Fits(p, s) && Idle(p, s) && s.next == 0 && forall i | 0 <= i < |s.leafs| ::
             s.leafs[i] == None
    ensures Sound(p, |s.log|, s) && Quiescent(p, s) && RootsLaunched(p, s, 0)
  {
    hide ListsInside, Mirrored, Distinct, Elided, Sheltered, Covered, Precise;
    forall n | n in p.g.deps && p.g.deps[n] != [] ensures !AllDeps(p, s, n) {
      assert p.g.deps[n][0] in p.g.deps[n];
    }
  }

  ghost predicate AllLaunched<N>(p: Plan<N>, s: Launch<N>) {
    forall n | n in Nodes(p.g) :: Launched(s, n)
  }

  // ---- A whole launch of an acyclic graph ----

  /** No command creation fails. */
  ghost predicate AllCreated<N>(p: Plan<N>) {
    forall n | n in Nodes(p.g) :: n !in p.failing
  }

  /** No creation of a command that is still to be launched fails. */
  ghost predicate RestCreated<N>(p: Plan<N>, s: Launch<N>) {
    forall n | n in Unlaunched(s) :: n !in p.failing
  }

  lemma RestShrinks<N>(p: Plan<N>, s: Launch<N>, t: Launch<N>)
    requires RestCreated(p, s) && s.ids.Keys == t.ids.Keys && Unlaunched(t) <= Unlaunched(s)
    ensures RestCreated(p, t)
  {
  }

  lemma KeysKept<N>(p: Plan<N>, s: Launch<N>, t: Launch<N>, node: N)
    requires At(p, s, node) && At(p, t, node)
    ensures s.ids.Keys == t.ids.Keys
  {
  }

  lemma {:induction false} OneSucceeds<N>(p: Plan<N>, s: Launch<N>, node: N, wait: bool)
    requires At(p, s, node) && RestCreated(p, s)
    ensures RunOne(p, s, node, wait).ok
    decreases Unlaunched(s), 0
  {
    hide ListsInside, Mirrored, Distinct, Submit, Ready;
    OneUnfolds(p, s, node, wait);
    if s.ids[node] == -1 && Ready(p, s, node) && p.g.edges[node] != [] {
      SubmitFollows(p, s, node, wait);
      RestShrinks(p, s, Submit(p, s, node, wait));
      EdgesSucceed(p, Submit(p, s, node, wait), node, 0);
    }
  }

  lemma {:induction false} EdgesSucceed<N>(p: Plan<N>, s: Launch<N>, node: N, i: nat)
    requires At(p, s, node) && i <= |p.g.edges[node]| && RestCreated(p, s)
    ensures RunEdges(p, s, node, i).ok
    decreases Unlaunched(s), |p.g.edges[node]| - i + 1
  {
    hide *;
    NodeLists(p, s, node);
    EdgesUnfold(p, s, node, i);
    if i < |p.g.edges[node]| {
      var child := p.g.edges[node][i];
      var wait := Waits(p, child, i);
      OneSucceeds(p, s, child, wait);
      KeysKept(p, s, RunOne(p, s, child, wait).state, node);
      RestShrinks(p, s, RunOne(p, s, child, wait).state);
      EdgesSucceed(p, RunOne(p, s, child, wait).state, node, i + 1);
    }
  }

  lemma {:induction false} FromSucceeds<N>(p: Plan<N>, s: Launch<N>, k: nat)
    requires Planned(p) && Fits(p, s) && k <= |p.g.vertices| && RestCreated(p, s)
    ensures RunFrom(p, s, k).ok
    decreases |p.g.vertices| - k
  {
    hide ListsInside, Mirrored, Distinct, Unlaunched, RestCreated, RunOne;
    if k < |p.g.vertices| {
      OneSucceeds(p, s, p.g.vertices[k], true);
      RestShrinks(p, s, RunOne(p, s, p.g.vertices[k], true).state);
      FromSucceeds(p, RunOne(p, s, p.g.vertices[k], true).state, k + 1);
    }
  }

  // ---- A failed creation ends the run ----

  /** Whatever was launched between s and t could be created. */
  ghost predicate NewCreated<N>(p: Plan<N>, s: Launch<N>, t: Launch<N>) {
    forall n | n in t.ids && New(s, t, n) :: n !in p.failing
  }

  lemma SubmitCreated<N>(p: Plan<N>, s: Launch<N>, t: Launch<N>, node: N, wait: bool)
    requires At(p, t, node) && NewCreated(p, s, t) && node !in p.failing
    ensures var r := Submit(p, t, node, wait);
            At(p, r, node) && NewCreated(p, s, r) && NewCreated(p, s, NoteLeaf(p, r, node))
  {
    hide ListsInside, Mirrored, Distinct, Latest, WaitList;
  }

  lemma {:induction false} OneCreated<N>(p: Plan<N>, s: Launch<N>, t: Launch<N>, node: N, wait: bool)
    requires At(p, t, node) && NewCreated(p, s, t)
    ensures NewCreated(p, s, RunOne(p, t, node, wait).state)
    decreases Unlaunched(t), 0
  {
    hide *;
    NodeLists(p, t, node);
    OneUnfolds(p, t, node, wait);
    if t.ids[node] == -1 && Ready(p, t, node) && node !in p.failing {
      SubmitCreated(p, s, t, node, wait);
      if p.g.edges[node] != [] {
        EdgesCreated(p, s, Submit(p, t, node, wait), node, 0);
      }
    }
  }

  lemma {:induction false} EdgesCreated<N>(p: Plan<N>, s: Launch<N>, t: Launch<N>, node: N, i: nat)
    requires At(p, t, node) && i <= |p.g.edges[node]| && NewCreated(p, s, t)
    ensures NewCreated(p, s, RunEdges(p, t, node, i).state)
    decreases Unlaunched(t), |p.g.edges[node]| - i + 1
  {
    hide *;
    NodeLists(p, t, node);
    EdgesUnfold(p, t, node, i);
    if i < |p.g.edges[node]| {
      var child := p.g.edges[node][i];
      OneCreated(p, s, t, child, Waits(p, child, i));
      var r := RunOne(p, t, child, Waits(p, child, i));
      if r.ok {
        EdgesCreated(p, s, r.state, node, i + 1);
      }
    }
  }

  lemma {:induction false} FromCreated<N>(p: Plan<N>, s: Launch<N>, t: Launch<N>, k: nat)
    requires Planned(p) && Fits(p, t) && k <= |p.g.vertices| && NewCreated(p, s, t)
    ensures NewCreated(p, s, RunFrom(p, t, k).state)
    decreases |p.g.vertices| - k
  {
    hide ListsInside, Mirrored, Distinct, Submit, Ready, NewCreated, RunOne;
    if k < |p.g.vertices| {
      OneCreated(p, s, t, p.g.vertices[k], true);
      var r := RunOne(p, t, p.g.vertices[k], true);
      if r.ok {
        FromCreated(p, s, r.state, k + 1);
      }
    }
  }

  // ---- Any launch that succeeds launches everything, whatever it started from ----

  /** The vertices from the k-th on that have all their dependencies are launched. */
  ghost predicate SettledFrom<N>(p: Plan<N>, s: Launch<N>, k: nat) {
    forall j | k <= j < |p.g.vertices| && AllDeps(p, s, p.g.vertices[j]) :: Launched(s, p.g.vertices[j])
  }

  lemma VertexSettled<N>(p: Plan<N>, s: Launch<N>, t: Launch<N>, r: Launch<N>, k: nat)
    requires k < |p.g.vertices| && p.g.vertices[k] in p.g.deps
    requires Follows(s, t) && Follows(t, r) && Complete(p, s, t) && Complete(p, t, r) && SettledFrom(p, r, k + 1)
    requires AllDeps(p, s, p.g.vertices[k]) ==> Launched(t, p.g.vertices[k])
    ensures SettledFrom(p, r, k)
  {
    if AllDeps(p, r, p.g.vertices[k]) {
      hide Complete, Follows, AllDeps, Launched;
      ChildComplete(p, s, t, r, p.g.vertices[k]);
    }
  }

  lemma {:induction false} FromSettles<N>(p: Plan<N>, s: Launch<N>, k: nat)
    requires Planned(p) && Fits(p, s) && k <= |p.g.vertices| && RunFrom(p, s, k).ok
    ensures var r := RunFrom(p, s, k).state; Follows(s, r) && Complete(p, s, r) && SettledFrom(p, r, k)
    decreases |p.g.vertices| - k
  {
    hide ListsInside, Mirrored, Distinct, Complete, Ready, Launched, RunOne, SettledFrom, Follows, AllDeps;
    if k == |p.g.vertices| {
      FollowsSelf(p, s);
      CompleteSelf(p, s, s);
      NoneToSettle(p, s);
    } else {
      var node := p.g.vertices[k];
      OneFollows(p, s, node, true);
      OneComplete(p, s, node, true);
      ReadyIsAll(p, s, node);
      var t := RunOne(p, s, node, true).state;
      FromSettles(p, t, k + 1);
      var r := RunFrom(p, t, k + 1).state;
      FollowsThrough(s, t, r);
      CompleteThrough(p, s, t, r);
      VertexSettled(p, s, t, r, k);
    }
  }

  lemma NoneToSettle<N>(p: Plan<N>, s: Launch<N>)
    ensures SettledFrom(p, s, |p.g.vertices|)
  {
  }

  lemma SettledNode<N>(p: Plan<N>, s: Launch<N>, n: N)
    requires At(p, s, n) && SettledFrom(p, s, 0) && forall d | d in p.g.deps[n] :: d !in Unlaunched(s)
    ensures Launched(s, n)
  {
    hide ListsInside, Mirrored, Distinct;
    forall d | d in p.g.deps[n] ensures Launched(s, d) {
      DepIn(p.g, n, d);
    }
    assert AllDeps(p, s, n);
    var j :| 0 <= j < |p.g.vertices| && p.g.vertices[j] == n;
  }

  lemma SettledIsAll<N>(p: Plan<N>, s: Launch<N>)
    requires Planned(p) && Fits(p, s) && Acyclic(p.g) && SettledFrom(p, s, 0)
    ensures AllLaunched(p, s)
  {
    hide ListsInside, Mirrored, Distinct, Acyclic;
    var left := Unlaunched(s);
    if left != {} {
      var n := FirstInSet(p.g, left);
      SettledNode(p, s, n);
    }
    forall n | n in Nodes(p.g) ensures Launched(s, n) {
      assert n !in left;
    }
  }

  /** From any state, idle or left by a failed launch, a launch of an acyclic graph succeeds
      exactly when every command still to be launched can be created. It has then launched
      every vertex and resets every launch id. */
  lemma AnyLaunch<N>(p: Plan<N>, roots: seq<Option<N>>, last: Option<nat>, s: Launch<N>)
    requires Planned(p) && Fits(p, s) && Acyclic(p.g) && 0 < |p.queues|
    requires |roots| == p.limit && forall i | 0 < i < |roots| && roots[i].Some? :: i < |p.queues|
    ensures var o := RunAll(p, roots, last, s); var r := RunFrom(p, Started(p, roots, last, s), 0);
            && (o.ok <==> RestCreated(p, s)) && o.ok == r.ok
            && (o.ok ==> AllLaunched(p, r.state) && Idle(p, o.state))
            && s.log <= r.state.log <= o.state.log
  {
    hide ListsInside, Mirrored, Distinct, Acyclic, RunFrom, RunOne, Complete, SettledFrom, NewCreated, StartMarkers,
      LeafWaits;
    var start := Started(p, roots, last, s);
    var r := RunFrom(p, start, 0);
    RunAllParts(p, roots, last, s);
    FromFollows(p, start, 0);
    if RestCreated(p, s) {
      FromSucceeds(p, start, 0);
    }
    if r.ok {
      FromSettles(p, start, 0);
      SettledIsAll(p, r.state);
      NothingCreatedYet(p, start);
      FromCreated(p, start, start, 0);
      AllNewCreated(p, start, r.state);
    }
  }

  lemma NothingCreatedYet<N>(p: Plan<N>, s: Launch<N>)
    ensures NewCreated(p, s, s)
  {
  }

  lemma AllNewCreated<N>(p: Plan<N>, s: Launch<N>, t: Launch<N>)
    requires Fits(p, s) && Fits(p, t) && NewCreated(p, s, t) && AllLaunched(p, t)
    ensures RestCreated(p, s)
  {
  }

  lemma {:induction false} FromFollows<N>(p: Plan<N>, s: Launch<N>, k: nat)
    requires Planned(p) && Fits(p, s) && k <= |p.g.vertices|
    ensures Follows(s, RunFrom(p, s, k).state)
    decreases |p.g.vertices| - k
  {
    hide ListsInside, Mirrored, Distinct, Follows, RunOne, Ready, Launched;
    if k == |p.g.vertices| {
      FollowsSelf(p, s);
    } else {
      OneFollows(p, s, p.g.vertices[k], true);
      var r := RunOne(p, s, p.g.vertices[k], true);
      if r.ok {
        FromFollows(p, r.state, k + 1);
        FollowsThrough(s, r.state, RunFrom(p, r.state, k + 1).state);
      }
    }
  }

  // ---- What a failed launch leaves behind ----

  /** Everything enqueued since the log was `base` long runs a node not launched in `s`. */
  ghost predicate OnlyNew<N>(s: Launch<N>, base: nat, t: Launch<N>) {
    && base <= |t.log|
    && (forall n | n in s.ids && Launched(s, n) :: Launched(t, n))
    && forall i | base <= i < |t.log| && t.log[i].work.Run? :: !Launched(s, t.log[i].work.node)
  }

  lemma SubmitOnlyNew<N>(p: Plan<N>, s: Launch<N>, base: nat, t: Launch<N>, node: N, wait: bool)
    requires At(p, t, node) && s.ids.Keys == t.ids.Keys && OnlyNew(s, base, t) && t.ids[node] == -1
    ensures var r := Submit(p, t, node, wait);
            && At(p, r, node) && s.ids.Keys == r.ids.Keys && OnlyNew(s, base, r)
            && OnlyNew(s, base, NoteLeaf(p, r, node))
  {
    hide ListsInside, Mirrored, Distinct, Latest, WaitList;
  }

  lemma {:induction false} OneOnlyNew<N>(p: Plan<N>, s: Launch<N>, base: nat, t: Launch<N>, node: N, wait: bool)
    requires At(p, t, node) && s.ids.Keys == t.ids.Keys && OnlyNew(s, base, t)
    ensures OnlyNew(s, base, RunOne(p, t, node, wait).state)
    decreases Unlaunched(t), 0
  {
    hide *;
    NodeLists(p, t, node);
    OneUnfolds(p, t, node, wait);
    if t.ids[node] == -1 && Ready(p, t, node) && node !in p.failing {
      SubmitOnlyNew(p, s, base, t, node, wait);
      if p.g.edges[node] != [] {
        EdgesOnlyNew(p, s, base, Submit(p, t, node, wait), node, 0);
      }
    }
  }

  lemma {:induction false} EdgesOnlyNew<N>(p: Plan<N>, s: Launch<N>, base: nat, t: Launch<N>, node: N, i: nat)
    requires At(p, t, node) && i <= |p.g.edges[node]| && s.ids.Keys == t.ids.Keys && OnlyNew(s, base, t)
    ensures OnlyNew(s, base, RunEdges(p, t, node, i).state)
    decreases Unlaunched(t), |p.g.edges[node]| - i + 1
  {
    hide *;
    NodeLists(p, t, node);
    EdgesUnfold(p, t, node, i);
    if i < |p.g.edges[node]| {
      var child := p.g.edges[node][i];
      OneOnlyNew(p, s, base, t, child, Waits(p, child, i));
      var r := RunOne(p, t, child, Waits(p, child, i));
      if r.ok {
        KeysKept(p, t, r.state, node);
        EdgesOnlyNew(p, s, base, r.state, node, i + 1);
      }
    }
  }

  lemma {:induction false} FromOnlyNew<N>(p: Plan<N>, s: Launch<N>, base: nat, t: Launch<N>, k: nat)
    requires Planned(p) && Fits(p, t) && k <= |p.g.vertices| && s.ids.Keys == t.ids.Keys && OnlyNew(s, base, t)
    ensures OnlyNew(s, base, RunFrom(p, t, k).state)
    decreases |p.g.vertices| - k
  {
    hide ListsInside, Mirrored, Distinct, Submit, Ready, OnlyNew, RunOne;
    if k < |p.g.vertices| {
      OneOnlyNew(p, s, base, t, p.g.vertices[k], true);
      var r := RunOne(p, t, p.g.vertices[k], true);
      if r.ok {
        FromOnlyNew(p, s, base, r.state, k + 1);
      }
    }
  }

  /** A launch that fails keeps its launch ids, and the next launch passes over every node
      that has one: what the failed launch enqueued is not enqueued again. */
  lemma RetrySkipsLaunched<N>(p: Plan<N>, roots: seq<Option<N>>, last: Option<nat>, s: Launch<N>)
    requires Planned(p) && Fits(p, s) && |roots| == p.limit
    requires forall i | 0 < i < |roots| && roots[i].Some? :: i < |p.queues|
    ensures var start := Started(p, roots, last, s);
            OnlyNew(s, |start.log|, RunFrom(p, start, 0).state)
  {
    hide WellFormed, RunFrom, StartMarkers;
    FromOnlyNew(p, s, |Started(p, roots, last, s).log|, Started(p, roots, last, s), 0);
  }

  /** The launch ids of a sound, finished launch list the vertices in a topological order. */
  lemma LaunchOrder<N>(p: Plan<N>, base: nat, s: Launch<N>) returns (order: seq<N>)
    requires Sound(p, base, s) && AllLaunched(p, s)
    ensures |order| == s.next == |p.g.vertices|
    ensures forall j | 0 <= j < |order| ::
            base + j < |s.log| && s.log[base + j].work == Run(order[j]) && order[j] in s.ids && s.ids[order[j]] == j
    ensures Topological(p.g, order)
  {
    order := OrderPrefix(p, base, s, s.next);
    OrderIsTopological(p, base, s, order);
    TopologicalIsPermutation(p.g, order);
  }

  lemma {:induction false} OrderPrefix<N>(p: Plan<N>, base: nat, s: Launch<N>, k: nat) returns (order: seq<N>)
    requires Sound(p, base, s) && k <= s.next
    ensures |order| == k
    ensures forall j | 0 <= j < k ::
            base + j < |s.log| && s.log[base + j].work == Run(order[j]) && order[j] in s.ids && s.ids[order[j]] == j
  {
    hide WellFormed, Entries, LeafTable, Enqueued;
    if k == 0 {
      order := [];
    } else {
      order := OrderPrefix(p, base, s, k - 1);
      assert Named(p, base, s, k - 1);
      order := order + [s.log[base + k - 1].work.node];
    }
  }

  lemma OrderIsTopological<N>(p: Plan<N>, base: nat, s: Launch<N>, order: seq<N>)
    requires Sound(p, base, s) && AllLaunched(p, s) && |order| == s.next
    requires forall j | 0 <= j < |order| :: order[j] in s.ids && s.ids[order[j]] == j
    ensures Topological(p.g, order)
  {
    hide WellFormed, Distinct, Sound;
    DistinctIds(s, order);
    SoundKeys(p, base, s);
    forall n | n in p.g.vertices ensures n in order {
      assert n in Nodes(p.g);
      IdBelow(p, base, s, n);
      SameId(p, base, s, n, order[s.ids[n]]);
    }
    forall i, j | 0 <= i < |order| && 0 <= j < |order| && order[i] in p.g.edges && order[j] in p.g.edges[order[i]]
        ensures i < j {
      EdgeForward(p, base, s, order[i], order[j]);
    }
  }

  lemma SoundKeys<N>(p: Plan<N>, base: nat, s: Launch<N>)
    requires Sound(p, base, s)
    ensures Planned(p) && s.ids.Keys == Nodes(p.g) == p.g.edges.Keys
  {
    hide ListsInside, Mirrored, Distinct;
  }

  lemma IdBelow<N>(p: Plan<N>, base: nat, s: Launch<N>, n: N)
    requires Sound(p, base, s) && n in Nodes(p.g) && Launched(s, n)
    ensures 0 <= s.ids[n] < s.next
  {
    hide WellFormed, Entries, LeafTable, Named;
    assert Enqueued(p, base, s, n);
  }

  lemma EdgeForward<N>(p: Plan<N>, base: nat, s: Launch<N>, d: N, n: N)
    requires Sound(p, base, s) && AllLaunched(p, s) && d in p.g.edges && n in p.g.edges[d]
    ensures d in s.ids && n in s.ids && s.ids[d] < s.ids[n]
  {
    hide ListsInside, Mirrored, Distinct, Numbered, LeafTable, Sheltered, Covered, Precise, Elided;
    ChildIn(p.g, d, n);
    assert Entry(p, s, n);
  }

  lemma DistinctIds<N>(s: Launch<N>, order: seq<N>)
    requires forall j | 0 <= j < |order| :: order[j] in s.ids && s.ids[order[j]] == j
    ensures Distinct(order)
  {
  }

  lemma SameId<N>(p: Plan<N>, base: nat, s: Launch<N>, a: N, b: N)
    requires Sound(p, base, s) && a in Nodes(p.g) && b in Nodes(p.g) && Launched(s, a) && Launched(s, b)
             && s.ids[a] == s.ids[b]
    ensures a == b
  {
    hide WellFormed, Entries, LeafTable, Named;
    assert Enqueued(p, base, s, a) && Enqueued(p, base, s, b);
  }

  /** Launch completeness. From an idle state on an acyclic graph, a run succeeds exactly
      when every command can be created; it has then launched every vertex exactly once,
      in a topological order, and leaves every launch id at -1 again. */
  lemma LaunchComplete<N>(p: Plan<N>, roots: seq<Option<N>>, last: Option<nat>, s: Launch<N>)
    requires Planned(p) && Fits(p, s) && Idle(p, s) && Acyclic(p.g) && 0 < |p.queues|
    requires |roots| == p.limit && forall i | 0 < i < |roots| && roots[i].Some? :: i < |p.queues|
    ensures var start := Started(p, roots, last, s);
            var r := RunFrom(p, start, 0);
            && (r.ok <==> AllCreated(p))
            && Sound(p, |start.log|, r.state) && start.log <= r.state.log
            && (r.ok ==> AllLaunched(p, r.state) && r.state.next == |p.g.vertices|)
            && (r.ok ==> Idle(p, RunAll(p, roots, last, s).state))
  {
    hide ListsInside, Mirrored, Distinct, Acyclic, Quiescent, RootsLaunched, Numbered, Entries, LeafTable, RunFrom,
      RestCreated, AllCreated;
    var start := Started(p, roots, last, s);
    StartSound(p, start);
    FromSound(p, |start.log|, start, 0);
    AnyLaunch(p, roots, last, s);
    IdleCreatesAll(p, s);
    var r := RunFrom(p, start, 0);
    if r.ok {
      var order := LaunchOrder(p, |start.log|, r.state);
    }
  }

  lemma IdleCreatesAll<N>(p: Plan<N>, s: Launch<N>)
    requires Fits(p, s) && Idle(p, s)
    ensures RestCreated(p, s) <==> AllCreated(p)
  {
  }
}
