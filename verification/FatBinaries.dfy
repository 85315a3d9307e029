/** Choosing the code object of each device from a bundle. */
module FatBinaries {
  import opened Dags
  import opened TargetIds

  const KIND_HIP := "hip"
  const KIND_HIPV4 := "hipv4"
  const KIND_HCC := "hcc"

  /** A code object in the bundle: where it is and what its header says. */
  datatype Image = Image(offset: nat, size: nat, header: Header)

  datatype Bundled = Bundled(id: string, image: Image)

  predicate IsGenericTarget(image: Image) {
    GetGenericVersion(image.header) >= GENERIC_VERSION_MIN
  }

  /** The triple a bundle entry is for. Entries of other kinds and unrecognised code
      objects are unnamed; the bare word hipv4 makes the lookup throw. */
  datatype Name = Named(triple: string) | Unnamed | NameThrows

  function GetTripleTargetId(e: Bundled): Name {
    var (kind, rest) := TrimName(e.id, '-');
    if kind != KIND_HIPV4 && kind != KIND_HIP && kind != KIND_HCC then Unnamed
    else if kind != KIND_HIPV4 then
      match GetTripleTargetIdFromCodeObject(e.image.header)
      case Some(triple) => Named(triple)
      case None => Unnamed
    else if rest == "" then NameThrows
    else Named(rest[1..])
  }

  /** Exactly which entries are named, and after what. */
  lemma NamesExactly(e: Bundled, triple: string)
    ensures GetTripleTargetId(e) == Named(triple) <==>
              || e.id == KIND_HIPV4 + "-" + triple
              || ((OfKind(e.id, KIND_HIP) || OfKind(e.id, KIND_HCC))
                 && GetTripleTargetIdFromCodeObject(e.image.header) == Some(triple))
    ensures GetTripleTargetId(e) == NameThrows <==> e.id == KIND_HIPV4
  {
    hide GetTripleTargetIdFromCodeObject, Find;
    KindIs(e.id, KIND_HIP);
    KindIs(e.id, KIND_HCC);
    KindIs(e.id, KIND_HIPV4);
    if e.id == KIND_HIPV4 + "-" + triple {
      TrimAt(KIND_HIPV4, "-" + triple, '-');
      assert e.id == KIND_HIPV4 + ("-" + triple);
    }
    if GetTripleTargetId(e) == Named(triple) && TrimName(e.id, '-').0 == KIND_HIPV4 {
      var rest := TrimName(e.id, '-').1;
      assert rest == "-" + triple;
    }
  }

  /** The entry ID is the kind alone, or the kind followed by a dash. */
  predicate OfKind(id: string, kind: string) {
    id == kind || kind + "-" <= id
  }

  lemma KindIs(id: string, kind: string)
    requires '-' !in kind
    ensures TrimName(id, '-').0 == kind <==> OfKind(id, kind)
    ensures id == kind ==> TrimName(id, '-').1 == ""
    ensures id != kind && OfKind(id, kind) ==> TrimName(id, '-').1 != ""
  {
    hide Find;
    var (head, rest) := TrimName(id, '-');
    if head == kind && rest != "" {
      assert kind + "-" <= kind + rest;
    }
    if id == kind {
      TrimAt(kind, "", '-');
      assert kind + "" == kind;
    } else if kind + "-" <= id {
      var tail := id[|kind|..];
      assert id == kind + tail && tail[0] == '-';
      TrimAt(kind, tail, '-');
    }
  }

  /** What entry e is to a device. */
  function Fits(e: Bundled, agent: string): Verdict {
    match GetTripleTargetId(e)
    case NameThrows => Raised
    case Unnamed => No
    case Named(triple) => Compatible(triple, agent, GetGenericVersion(e.image.header))
  }

  /** An entry for plain code fits the devices of its processor that meet what it asks; one for
      a generic target fits its own ID and the covered processors that meet what it asks. */
  lemma FitsExactly(e: Bundled, c: TargetId, a: TargetId)
    requires GetTripleTargetId(e) == Named(Print(c)) && Printable(c) && Printable(a)
    ensures Fits(e, Print(a)) == Yes
            <==> if GetGenericVersion(e.image.header) == 0 then c.processor == a.processor && Asks(c, a)
                 else c == a || (a.processor in Covered(c.processor) && Asks(c, a))
  {
    hide Compatible, Covered, Asks, Print, GetGenericVersion;
    if GetGenericVersion(e.image.header) == 0 {
      RunsExactly(c, a);
    } else {
      GenericRunsExactly(c, a, GetGenericVersion(e.image.header));
    }
  }

  /** The image chosen for a device after the given entries: the first that fits and is not
      for a generic target, or else the last that fits. */
  ghost function Chosen(entries: seq<Bundled>, agent: string): (r: Option<Image>)
    decreases |entries|
  {
    if entries == [] then None
    else
      var k := |entries| - 1;
      var before := Chosen(entries[..k], agent);
      if before.Some? && !IsGenericTarget(before.value) then before
      else if Fits(entries[k], agent) == Yes then Some(entries[k].image)
      else before
  }

  // ---- What is chosen ----

  /** Entry i fits the device. */
  predicate FitsAt(entries: seq<Bundled>, agent: string, i: int) {
    0 <= i < |entries| && Fits(entries[i], agent) == Yes
  }

  /** Entry i is the one to choose: no earlier entry that fits is specific, and if this
      one is generic then no later entry fits at all. */
  ghost predicate Best(entries: seq<Bundled>, agent: string, i: int) {
    && FitsAt(entries, agent, i)
    && (forall j | 0 <= j < i && FitsAt(entries, agent, j) :: IsGenericTarget(entries[j].image))
    && (IsGenericTarget(entries[i].image) ==> forall j | i < j :: !FitsAt(entries, agent, j))
  }

  lemma {:induction false} ChosenMeaning(entries: seq<Bundled>, agent: string) returns (i: int)
    ensures Chosen(entries, agent).None? <==> forall j :: !FitsAt(entries, agent, j)
    ensures Chosen(entries, agent).Some? ==> Best(entries, agent, i) && Chosen(entries, agent) == Some(entries[i].image)
    decreases |entries|
  {
    hide Fits, IsGenericTarget, Best;
    i := 0;
    if entries != [] {
      var k := |entries| - 1;
      i := ChosenMeaning(entries[..k], agent);
      FitsBefore(entries, agent);
      var chosen := Chosen(entries[..k], agent);
      if chosen.Some? && !IsGenericTarget(chosen.value) {
        BestStays(entries, agent, i);
      } else if Fits(entries[k], agent) == Yes {
        NowBest(entries, agent, i);
        i := k;
      } else if chosen.Some? {
        BestStays(entries, agent, i);
      }
    }
    if Chosen(entries, agent).Some? {
      BestFits(entries, agent, i);
    }
  }

  lemma BestFits(entries: seq<Bundled>, agent: string, i: int)
    requires Best(entries, agent, i)
    ensures FitsAt(entries, agent, i)
  {
  }

  lemma FitsBefore(entries: seq<Bundled>, agent: string)
    requires entries != []
    ensures forall j | j != |entries| - 1 :: FitsAt(entries, agent, j) <==> FitsAt(entries[..|entries| - 1], agent, j)
    ensures !FitsAt(entries[..|entries| - 1], agent, |entries| - 1)
  {
    hide Fits;
  }

  lemma BestStays(entries: seq<Bundled>, agent: string, i: int)
    requires entries != [] && Best(entries[..|entries| - 1], agent, i)
    requires !IsGenericTarget(entries[..|entries| - 1][i].image) || Fits(entries[|entries| - 1], agent) != Yes
    ensures Best(entries, agent, i) && entries[i] == entries[..|entries| - 1][i]
  {
    hide Fits, IsGenericTarget;
    FitsBefore(entries, agent);
  }

  lemma NowBest(entries: seq<Bundled>, agent: string, i: int)
    requires entries != [] && Fits(entries[|entries| - 1], agent) == Yes
    requires var before := entries[..|entries| - 1];
             (forall j :: !FitsAt(before, agent, j)) || (Best(before, agent, i) && IsGenericTarget(before[i].image))
    ensures Best(entries, agent, |entries| - 1)
  {
    hide Fits, IsGenericTarget;
    FitsBefore(entries, agent);
  }

  /** Once every device has an image, looking further cannot take it away; a choice that is
      not for a generic target is final. */
  lemma {:induction false} ChosenStays(entries: seq<Bundled>, k: nat, agent: string)
    requires k <= |entries| && Chosen(entries[..k], agent).Some?
    ensures Chosen(entries, agent).Some?
    ensures !IsGenericTarget(Chosen(entries[..k], agent).value) ==>
              Chosen(entries, agent) == Chosen(entries[..k], agent)
    decreases |entries|
  {
    if k == |entries| {
      assert entries[..k] == entries;
    } else {
      var shorter := entries[..|entries| - 1];
      assert shorter[..k] == entries[..k];
      ChosenStays(shorter, k, agent);
    }
  }

  // ---- The selection loop ----

  datatype Outcome = Found | NoBinaryForGpu | Threw

  /** After the first k entries device `dev` has no image, or one for a generic target, and
      looking at entry k for it throws. */
  ghost predicate TripsAt(entries: seq<Bundled>, agents: seq<string>, k: nat, dev: int)
    requires k < |entries|
  {
    && 0 <= dev < |agents|
    && (var image := Chosen(entries[..k], agents[dev]); image.None? || IsGenericTarget(image.value))
    && Fits(entries[k], agents[dev]) == Raised
  }

  ghost predicate Trips(entries: seq<Bundled>, agents: seq<string>, k: nat)
    requires k < |entries|
  {
    exists dev :: TripsAt(entries, agents, k, dev)
  }

  /** The devices among the first k without an image. */
  ghost function Missing(codeObjs: seq<Option<Image>>, k: nat): nat
    requires k <= |codeObjs|
  {
    if k == 0 then 0 else Missing(codeObjs, k - 1) + (if codeObjs[k - 1].None? then 1 else 0)
  }

  /** Device `dev` is served by the first k entries as `Chosen` says. */
  ghost predicate Served(entries: seq<Bundled>, agents: seq<string>, codeObjs: seq<Option<Image>>, k: nat)
    requires k <= |entries|
  {
    |codeObjs| == |agents| && forall dev | 0 <= dev < |agents| :: codeObjs[dev] == Chosen(entries[..k], agents[dev])
  }

  /** While entry k is tried, the devices below `dev` have seen it and the others have not. */
  ghost predicate Trying(entries: seq<Bundled>, agents: seq<string>, codeObjs: seq<Option<Image>>, k: nat, dev: nat)
    requires k < |entries|
  {
    && |codeObjs| == |agents| && dev <= |agents|
    && forall d | 0 <= d < |agents| :: codeObjs[d] == Chosen(entries[..if d < dev then k + 1 else k], agents[d])
  }

  lemma ChosenNext(entries: seq<Bundled>, k: nat, agent: string)
    requires k < |entries|
    ensures var before := Chosen(entries[..k], agent);
            Chosen(entries[..k + 1], agent) == if before.Some? && !IsGenericTarget(before.value) then before
                                               else if Fits(entries[k], agent) == Yes then Some(entries[k].image)
                                               else before
  {
    hide Fits, IsGenericTarget;
    assert entries[..k + 1][..k] == entries[..k];
  }

  /** Filling an empty slot leaves one device less without an image. */
  lemma {:induction false} MissingSet(codeObjs: seq<Option<Image>>, dev: nat, image: Image, k: nat)
    requires dev < |codeObjs| && k <= |codeObjs|
    ensures Missing(codeObjs[dev := Some(image)], k)
            == Missing(codeObjs, k) - (if dev < k && codeObjs[dev].None? then 1 else 0)
  {
    if k > 0 {
      MissingSet(codeObjs, dev, image, k - 1);
    }
  }

  lemma {:induction false} MissingNone(codeObjs: seq<Option<Image>>, k: nat)
    requires k <= |codeObjs|
    ensures Missing(codeObjs, k) == 0 <==> forall dev | 0 <= dev < k :: codeObjs[dev].Some?
  {
    if k > 0 {
      MissingNone(codeObjs, k - 1);
    }
  }

  lemma {:induction false} MissingAll(codeObjs: seq<Option<Image>>, k: nat)
    requires k <= |codeObjs| && forall dev | 0 <= dev < |codeObjs| :: codeObjs[dev].None?
    ensures Missing(codeObjs, k) == k
  {
    if k > 0 {
      MissingAll(codeObjs, k - 1);
    }
  }

  /** One entry against every device. */
  method TryEntry(entries: seq<Bundled>, agents: seq<string>, k: nat, codeObjs: seq<Option<Image>>, missing: nat)
    returns (after: seq<Option<Image>>, left: nat, threw: bool)
    requires k < |entries| && Served(entries, agents, codeObjs, k) && missing == Missing(codeObjs, |codeObjs|)
    ensures |after| == |agents| && left == Missing(after, |after|)
    ensures !threw ==> Served(entries, agents, after, k + 1)
    ensures threw <==> Trips(entries, agents, k)
  {
    hide Fits, IsGenericTarget, Chosen, TripsAt, Compatible;
    after, left, threw := codeObjs, missing, false;
    for dev := 0 to |agents|
      invariant Trying(entries, agents, after, k, dev) && left == Missing(after, |after|)
      invariant forall d | 0 <= d < dev :: !TripsAt(entries, agents, k, d)
    {
      ChosenNext(entries, k, agents[dev]);
      TripsIf(entries, agents, k, dev);
      if after[dev].Some? && !IsGenericTarget(after[dev].value) {
        continue;
      }
      var verdict := Fits(entries[k], agents[dev]);
      if verdict == Raised {
        assert TripsAt(entries, agents, k, dev);
        return after, left, true;
      }
      if verdict == Yes {
        MissingSet(after, dev, entries[k].image, |after|);
        if after[dev].None? {
          left := left - 1;
        }
        after := after[dev := Some(entries[k].image)];
      }
    }
    forall d ensures !TripsAt(entries, agents, k, d) {
      TripsIf(entries, agents, k, d);
    }
  }

  lemma TripsIf(entries: seq<Bundled>, agents: seq<string>, k: nat, dev: int)
    requires k < |entries|
    ensures TripsAt(entries, agents, k, dev) ==> 0 <= dev < |agents|
    ensures 0 <= dev < |agents| ==> var image := Chosen(entries[..k], agents[dev]);
              (TripsAt(entries, agents, k, dev)
               <==> (image.None? || IsGenericTarget(image.value)) && Fits(entries[k], agents[dev]) == Raised)
  {
  }

  /** The selection: entries in bundle order until every device has an image. */
  method ExtractCodeObjectFromFatBinary(entries: seq<Bundled>, agents: seq<string>)
    returns (outcome: Outcome, codeObjs: seq<Option<Image>>, scanned: nat)
    ensures outcome == Threw ==>
              scanned < |entries| && !AllServed(entries, agents, scanned) && Trips(entries, agents, scanned)
    ensures forall k | 0 <= k < scanned && k < |entries| :: !Trips(entries, agents, k)
    ensures outcome != Threw ==> scanned <= |entries| && Served(entries, agents, codeObjs, scanned)
    ensures outcome != Threw ==> (outcome == Found <==> AllServed(entries, agents, scanned))
    ensures outcome == NoBinaryForGpu ==> scanned == |entries|
    ensures forall k | 0 <= k < scanned && k <= |entries| :: !AllServed(entries, agents, k)
  {
    hide Chosen, Trips, Missing, AllServed;
    codeObjs := seq(|agents|, _ => None);
    var missing := |agents|;
    MissingAll(codeObjs, |codeObjs|);
    NobodyServed(entries, agents, codeObjs);
    scanned := 0;
    while scanned < |entries|
      invariant scanned <= |entries| && Served(entries, agents, codeObjs, scanned)
                && missing == Missing(codeObjs, |codeObjs|)
      invariant forall k | 0 <= k < scanned :: !AllServed(entries, agents, k) && !Trips(entries, agents, k)
    {
      AllServedExactly(entries, agents, codeObjs, scanned);
      if missing == 0 {
        break;
      }
      var threw;
      codeObjs, missing, threw := TryEntry(entries, agents, scanned, codeObjs, missing);
      if threw {
        return Threw, codeObjs, scanned;
      }
      scanned := scanned + 1;
    }
    AllServedExactly(entries, agents, codeObjs, scanned);
    outcome := if missing == 0 then Found else NoBinaryForGpu;
  }

  ghost predicate AllServed(entries: seq<Bundled>, agents: seq<string>, k: nat)
    requires k <= |entries|
  {
    forall dev | 0 <= dev < |agents| :: Chosen(entries[..k], agents[dev]).Some?
  }

  lemma NobodyServed(entries: seq<Bundled>, agents: seq<string>, codeObjs: seq<Option<Image>>)
    requires |codeObjs| == |agents| && forall dev | 0 <= dev < |codeObjs| :: codeObjs[dev].None?
    ensures Served(entries, agents, codeObjs, 0)
  {
  }

  lemma AllServedExactly(entries: seq<Bundled>, agents: seq<string>, codeObjs: seq<Option<Image>>, k: nat)
    requires k <= |entries| && Served(entries, agents, codeObjs, k)
    ensures Missing(codeObjs, |codeObjs|) == 0 <==> AllServed(entries, agents, k)
  {
    hide Chosen;
    MissingNone(codeObjs, |codeObjs|);
  }

  /** Some entry fits the device. */
  ghost predicate HasFit(entries: seq<Bundled>, agent: string) {
    exists i :: FitsAt(entries, agent, i)
  }

  /** A selection that throws nothing succeeds exactly when every device has an entry of a
      recognised kind that fits it. */
  lemma SucceedsExactly(entries: seq<Bundled>, agents: seq<string>, scanned: nat)
    requires scanned <= |entries| && (AllServed(entries, agents, scanned) || scanned == |entries|)
    ensures AllServed(entries, agents, scanned) <==> forall dev | 0 <= dev < |agents| :: HasFit(entries, agents[dev])
  {
    hide Chosen, FitsAt, Best;
    forall dev | 0 <= dev < |agents| ensures HasFit(entries, agents[dev]) <==> Chosen(entries, agents[dev]).Some? {
      var _ := ChosenMeaning(entries, agents[dev]);
    }
    if AllServed(entries, agents, scanned) {
      forall dev | 0 <= dev < |agents| ensures Chosen(entries, agents[dev]).Some? {
        ChosenStays(entries, scanned, agents[dev]);
      }
    } else {
      assert entries[..|entries|] == entries;
    }
  }
}
