/** The kernel-argument allocator of an executable graph: a bump allocator over chunks of
    device memory that takes a new chunk when the current one is full. */
module KernelArgs {
  import opened Arithmetic
  import opened Dags

  // ---- Alignment by masking ----

  /** The bits of x that are not in m. */
  function AndNot(x: nat, m: nat): (r: nat)
    ensures r <= x
  {
    if x == 0 then 0 else 2 * AndNot(x / 2, m / 2) + (if x % 2 == 1 && m % 2 == 0 then 1 else 0)
  }

  function AlignUp(value: nat, alignment: nat): nat
    requires alignment > 0
  {
    AndNot(value + alignment - 1, alignment - 1)
  }

  predicate PowerOfTwo(a: nat) {
    a == 1 || (a > 1 && a % 2 == 0 && PowerOfTwo(a / 2))
  }

  /** Clearing bits of m takes away at most m. */
  lemma {:induction false} AndNotAtLeast(x: nat, m: nat)
    ensures x - m <= AndNot(x, m)
  {
    if x > 0 {
      AndNotAtLeast(x / 2, m / 2);
    }
  }

  lemma AlignUpBounds(value: nat, alignment: nat)
    requires alignment > 0
    ensures value <= AlignUp(value, alignment) <= value + alignment - 1
  {
    AndNotAtLeast(value + alignment - 1, alignment - 1);
  }

  /** Under a mask that ends in a one, halving commutes with masking. */
  lemma AndNotOdd(x: nat, b: nat)
    requires b > 0
    ensures AndNot(x, 2 * b - 1) == 2 * AndNot(x / 2, b - 1)
  {
    assert (2 * b - 1) / 2 == b - 1 && (2 * b - 1) % 2 == 1;
  }

  lemma Doubled(q: nat, b: nat)
    ensures 2 * (q * b) == q * (2 * b)
  {
  }

  lemma {:induction false} Masked(x: nat, a: nat) returns (q: nat)
    requires PowerOfTwo(a)
    ensures AndNot(x, a - 1) == q * a
    decreases a
  {
    hide AndNot;
    if a == 1 {
      MaskNothing(x);
      q := x;
    } else {
      q := Masked(x / 2, a / 2);
      AndNotOdd(x, a / 2);
      Doubled(q, a / 2);
    }
  }

  lemma {:induction false} MaskNothing(x: nat)
    ensures AndNot(x, 0) == x
  {
    if x > 0 {
      MaskNothing(x / 2);
    }
  }

  lemma {:induction false} AndNotSelf(x: nat)
    ensures AndNot(x, x) == 0
  {
    if x > 0 {
      AndNotSelf(x / 2);
    }
  }

  lemma AndNotUnfolds(x: nat, m: nat)
    requires x > 0
    ensures AndNot(x, m) == 2 * AndNot(x / 2, m / 2) + (if x % 2 == 1 && m % 2 == 0 then 1 else 0)
  {
  }

  lemma AndNotNext(h: nat)
    ensures AndNot(2 * h + 1, 2 * h) == 1
  {
    hide AndNot;
    AndNotUnfolds(2 * h + 1, 2 * h);
    assert (2 * h + 1) / 2 == h && (2 * h) / 2 == h;
    AndNotSelf(h);
  }

  /** When a is no power of two, some value below a is left where it is. */
  lemma {:induction false} Unaligned(a: nat) returns (w: nat)
    requires a > 0 && !PowerOfTwo(a)
    ensures 0 < w < a && AndNot(w + (a - 1), a - 1) == w
  {
    hide AndNot;
    if a % 2 == 1 {
      w := 1;
      AndNotNext((a - 1) / 2);
    } else {
      var v := Unaligned(a / 2);
      w := 2 * v;
      assert (w + (a - 1)) / 2 == v + (a / 2 - 1);
      AndNotOdd(w + (a - 1), a / 2);
    }
  }

  /** Masking aligns every address exactly when the alignment is a power of two. */
  lemma AlignsExactly(a: nat)
    requires a > 0
    ensures (forall v: nat :: AlignUp(v, a) % a == 0) <==> PowerOfTwo(a)
  {
    hide AndNot;
    if PowerOfTwo(a) {
      forall v: nat ensures AlignUp(v, a) % a == 0 {
        var q := Masked(v + a - 1, a);
        DivisionIs(AlignUp(v, a), q, 0, a);
      }
    } else {
      var w := Unaligned(a);
      DivisionIs(w, 0, w, a);
      assert AlignUp(w, a) == w;
    }
  }

  // ---- Chunks ----

  datatype Pool = Pool(addr: nat, size: nat, offset: nat)

  /** The chunks in use, and the addresses of those the device will still hand out. */
  datatype Arena = Arena(pools: seq<Pool>, supply: seq<nat>)

  datatype Allocation = Allocation(arena: Arena, result: Option<nat>)

  /** Where a request would start in a pool, and what it would use of the pool. */
  function Start(pool: Pool, alignment: nat): nat
    requires alignment > 0
  {
    AlignUp(pool.addr + pool.offset, alignment)
  }

  function Usage(pool: Pool, size: nat, alignment: nat): int
    requires alignment > 0
  {
    Start(pool, alignment) + size - pool.addr
  }

  ghost function Alloc(a: Arena, size: nat, alignment: nat): Allocation
    requires alignment > 0 && a.pools != []
    decreases |a.supply|
  {
    var last := |a.pools| - 1;
    var pool := a.pools[last];
    AlignUpBounds(pool.addr + pool.offset, alignment);
    if Usage(pool, size, alignment) <= pool.size then
      Allocation(a.(pools := a.pools[last := pool.(offset := Usage(pool, size, alignment))]),
        Some(Start(pool, alignment)))
    else if a.supply == [] then Allocation(a, None)
    else Alloc(Arena(a.pools + [Pool(a.supply[0], pool.size, 0)], a.supply[1..]), size, alignment)
  }

  class GraphKernelArgManager {
    var kernargGraph: seq<Pool>
    var supply: seq<nat>

    constructor (supply: seq<nat>)
      ensures kernargGraph == [] && this.supply == supply
    {
      kernargGraph := [];
      this.supply := supply;
    }

    ghost function Now(): Arena
      reads this
    {
      Arena(kernargGraph, supply)
    }

    /** One more chunk, if the device has one. */
    method AllocGraphKernargPool(poolSize: nat) returns (ok: bool)
      modifies this
      ensures ok <==> old(supply) != []
      ensures Now() == if ok then Arena(old(kernargGraph) + [Pool(old(supply)[0], poolSize, 0)], old(supply)[1..])
              else old(Now())
    {
      if supply == [] {
        return false;
      }
      kernargGraph := kernargGraph + [Pool(supply[0], poolSize, 0)];
      supply := supply[1..];
      ok := true;
    }

    method AllocKernArg(size: nat, alignment: nat) returns (result: Option<nat>)
      requires alignment > 0 && kernargGraph != []
      modifies this
      ensures Allocation(Now(), result) == Alloc(old(Now()), size, alignment)
      decreases |supply|
    {
      var last := |kernargGraph| - 1;
      var pool := kernargGraph[last];
      var start := AlignUp(pool.addr + pool.offset, alignment);
      AlignUpBounds(pool.addr + pool.offset, alignment);
      var usage := start + size - pool.addr;
      if usage <= pool.size {
        kernargGraph := kernargGraph[last := pool.(offset := usage)];
        result := Some(start);
      } else {
        var ok := AllocGraphKernargPool(pool.size);
        if !ok {
          return None;
        }
        result := AllocKernArg(size, alignment);
      }
    }
  }

  // ---- Ranges never overlap ----

  datatype Range = Range(start: nat, size: nat, alignment: nat)

  ghost predicate Apart(x: nat, y: nat, chunk: nat) {
    x + chunk <= y || y + chunk <= x
  }

  ghost function Bases(a: Arena): (r: seq<nat>)
    ensures |r| == |a.pools| + |a.supply|
  {
    seq(|a.pools|, i requires 0 <= i < |a.pools| => a.pools[i].addr) + a.supply
  }

  /** Every chunk, in use or to come, has the same size and memory of its own. */
  ghost predicate Chunked(a: Arena, chunk: nat) {
    && a.pools != []
    && (forall i | 0 <= i < |a.pools| :: a.pools[i].size == chunk && a.pools[i].offset <= chunk)
    && forall i, j | 0 <= i < j < |Bases(a)| :: Apart(Bases(a)[i], Bases(a)[j], chunk)
  }

  ghost predicate InPool(pool: Pool, r: Range) {
    pool.addr <= r.start && r.start + r.size <= pool.addr + pool.offset
  }

  ghost predicate Inside(a: Arena, r: Range) {
    exists k :: 0 <= k < |a.pools| && InPool(a.pools[k], r)
  }

  ghost predicate Disjoint(r: Range, s: Range) {
    r.start + r.size <= s.start || s.start + s.size <= r.start
  }

  ghost predicate Aligned(r: Range) {
    r.alignment > 0 && (PowerOfTwo(r.alignment) ==> r.start % r.alignment == 0)
  }

  /** All ranges given out are aligned and lie in the used part of a chunk, and no two overlap. */
  ghost predicate Sound(a: Arena, chunk: nat, taken: seq<Range>) {
    && Chunked(a, chunk)
    && (forall i | 0 <= i < |taken| :: Inside(a, taken[i]) && Aligned(taken[i]))
    && forall i, j | 0 <= i < j < |taken| :: Disjoint(taken[i], taken[j])
  }

  ghost function Grown(a: Arena): Arena
    requires a.pools != [] && a.supply != []
  {
    Arena(a.pools + [Pool(a.supply[0], a.pools[|a.pools| - 1].size, 0)], a.supply[1..])
  }

  lemma GrownSound(a: Arena, chunk: nat, taken: seq<Range>)
    requires Sound(a, chunk, taken) && a.supply != []
    ensures Sound(Grown(a), chunk, taken)
  {
    var b := Grown(a);
    assert Bases(b) == Bases(a);
    forall i | 0 <= i < |taken| ensures Inside(b, taken[i]) {
      var k :| 0 <= k < |a.pools| && InPool(a.pools[k], taken[i]);
      assert InPool(b.pools[k], taken[i]);
    }
  }

  lemma PlacedSound(a: Arena, chunk: nat, taken: seq<Range>, size: nat, alignment: nat)
    requires Sound(a, chunk, taken) && alignment > 0
    requires var pool := a.pools[|a.pools| - 1]; Usage(pool, size, alignment) <= pool.size
    ensures var o := Alloc(a, size, alignment);
            o.result.Some? && Sound(o.arena, chunk, taken + [Range(o.result.value, size, alignment)])
  {
    var last := |a.pools| - 1;
    var pool := a.pools[last];
    var o := Alloc(a, size, alignment);
    var r := Range(o.result.value, size, alignment);
    AlignUpBounds(pool.addr + pool.offset, alignment);
    assert Aligned(r) by { AlignsExactly(alignment); }
    hide Aligned;
    assert Bases(o.arena) == Bases(a);
    assert InPool(o.arena.pools[last], r);
    forall i | 0 <= i < |taken| ensures Inside(o.arena, taken[i]) && Disjoint(taken[i], r) {
      var k :| 0 <= k < |a.pools| && InPool(a.pools[k], taken[i]);
      assert InPool(o.arena.pools[k], taken[i]);
      if k < last {
        assert Apart(Bases(a)[k], Bases(a)[last], chunk);
      }
    }
  }

  /** One request keeps every earlier range and adds one that overlaps none of them, or
      fails with no chunk left. */
  lemma {:induction false} AllocSound(a: Arena, chunk: nat, taken: seq<Range>, size: nat, alignment: nat)
    requires Sound(a, chunk, taken) && alignment > 0
    ensures var o := Alloc(a, size, alignment);
            && (o.result.Some? ==> Sound(o.arena, chunk, taken + [Range(o.result.value, size, alignment)]))
            && (o.result.None? ==> Sound(o.arena, chunk, taken) && o.arena.supply == [])
    decreases |a.supply|
  {
    hide Sound, PowerOfTwo;
    SoundPools(a, chunk, taken);
    var pool := a.pools[|a.pools| - 1];
    if Usage(pool, size, alignment) <= pool.size {
      PlacedSound(a, chunk, taken, size, alignment);
    } else if a.supply != [] {
      GrownSound(a, chunk, taken);
      AllocSound(Grown(a), chunk, taken, size, alignment);
    }
  }

  lemma SoundPools(a: Arena, chunk: nat, taken: seq<Range>)
    requires Sound(a, chunk, taken)
    ensures a.pools != []
  {
  }

  datatype Request = Request(size: nat, alignment: nat)

  /** The ranges handed out for a series of requests, on top of those in `taken`. */
  ghost function Serve(a: Arena, taken: seq<Range>, requests: seq<Request>): (r: (Arena, seq<Range>))
    requires a.pools != [] && forall i | 0 <= i < |requests| :: requests[i].alignment > 0
    decreases |requests|
  {
    if requests == [] then (a, taken)
    else
      var o := Alloc(a, requests[0].size, requests[0].alignment);
      AllocKeepsPools(a, requests[0].size, requests[0].alignment);
      Serve(o.arena, if o.result.Some? then taken + [Range(o.result.value, requests[0].size, requests[0].alignment)]
        else taken, requests[1..])
  }

  lemma {:induction false} AllocKeepsPools(a: Arena, size: nat, alignment: nat)
    requires alignment > 0 && a.pools != []
    ensures Alloc(a, size, alignment).arena.pools != []
    decreases |a.supply|
  {
    var pool := a.pools[|a.pools| - 1];
    if Usage(pool, size, alignment) > pool.size && a.supply != [] {
      AllocKeepsPools(Grown(a), size, alignment);
    }
  }

  /** Over every series of requests, the ranges handed out never overlap, and each lies
      inside one chunk and is aligned if its alignment is a power of two. */
  lemma {:induction false} ServeSound(a: Arena, chunk: nat, taken: seq<Range>, requests: seq<Request>)
    requires Sound(a, chunk, taken) && forall i | 0 <= i < |requests| :: requests[i].alignment > 0
    ensures a.pools != [] && Sound(Serve(a, taken, requests).0, chunk, Serve(a, taken, requests).1)
    decreases |requests|
  {
    hide Sound, Alloc;
    SoundPools(a, chunk, taken);
    if requests != [] {
      var o := Alloc(a, requests[0].size, requests[0].alignment);
      AllocSound(a, chunk, taken, requests[0].size, requests[0].alignment);
      AllocKeepsPools(a, requests[0].size, requests[0].alignment);
      ServeSound(o.arena, chunk, if o.result.Some?
        then taken + [Range(o.result.value, requests[0].size, requests[0].alignment)] else taken, requests[1..]);
    }
  }

  // ---- How often a request retries ----

  /** A request that leaves room for alignment in an empty chunk takes at most one new
      chunk, and fails only when the device has none. */
  lemma RetriesOnce(a: Arena, chunk: nat, size: nat, alignment: nat)
    requires Chunked(a, chunk) && alignment > 0 && size + alignment - 1 <= chunk
    ensures var o := Alloc(a, size, alignment);
            && |o.arena.pools| <= |a.pools| + 1
            && (o.result.None? ==> a.supply == [])
  {
    var pool := a.pools[|a.pools| - 1];
    if Usage(pool, size, alignment) > pool.size && a.supply != [] {
      var b := Grown(a);
      AlignUpBounds(a.supply[0], alignment);
      assert Usage(b.pools[|a.pools|], size, alignment) <= chunk;
    }
  }

  /** New chunks of one size at the given addresses. */
  ghost function Unused(addresses: seq<nat>, size: nat): (r: seq<Pool>)
    ensures |r| == |addresses| && forall i | 0 <= i < |r| :: r[i] == Pool(addresses[i], size, 0)
  {
    seq(|addresses|, i requires 0 <= i < |addresses| => Pool(addresses[i], size, 0))
  }

  /** A request fails exactly when it fits neither what is left of the current chunk nor any
      chunk to come. It has then taken them all, without using anything of them. */
  lemma {:induction false} FailsExactly(a: Arena, size: nat, alignment: nat)
    requires a.pools != [] && alignment > 0
    ensures var pool := a.pools[|a.pools| - 1]; var o := Alloc(a, size, alignment);
            && (o.result == None
                <==> Usage(pool, size, alignment) > pool.size
                     && forall i | 0 <= i < |a.supply| ::
                        AlignUp(a.supply[i], alignment) + size > a.supply[i] + pool.size)
            && (o.result == None ==> o.arena == Arena(a.pools + Unused(a.supply, pool.size), []))
    decreases |a.supply|
  {
    hide AlignUp;
    var pool := a.pools[|a.pools| - 1];
    if a.supply == [] {
      assert a.pools + Unused(a.supply, pool.size) == a.pools;
    } else if Usage(pool, size, alignment) > pool.size {
      var b := Grown(a);
      var first := b.pools[|a.pools|];
      assert Usage(first, size, alignment) == AlignUp(a.supply[0], alignment) + size - a.supply[0];
      FailsExactly(b, size, alignment);
      assert a.pools + Unused(a.supply, pool.size) == b.pools + Unused(b.supply, pool.size);
      assert forall i | 0 < i < |a.supply| :: a.supply[i] == b.supply[i - 1];
    }
  }

  // ---- Which address a request gets ----

  /** For powers of two, rounding up gives the least aligned address that is not below. */
  lemma AlignUpLeast(value: nat, a: nat, w: nat)
    requires PowerOfTwo(a)
    ensures AlignUp(value, a) % a == 0 && value <= AlignUp(value, a)
    ensures value <= w && w % a == 0 ==> AlignUp(value, a) <= w
  {
    hide AndNot;
    AlignUpBounds(value, a);
    var q := Masked(value + a - 1, a);
    DivisionIs(AlignUp(value, a), q, 0, a);
    if value <= w && w % a == 0 {
      MultipleBelow(q, w / a, a);
      assert w == (w / a) * a;
    }
  }

  /** Less than one step above a multiple, there is no later one. */
  lemma MultipleBelow(q: nat, k: nat, a: nat)
    ensures q * a < k * a + a ==> q * a <= k * a
  {
    if q <= k {
      MoreFactor(q, k, a);
    } else {
      MoreFactor(k + 1, q, a);
      assert (k + 1) * a == k * a + a;
    }
  }

  lemma MoreFactor(k: nat, q: nat, a: nat)
    requires k <= q
    ensures k * a <= q * a
  {
    assert q * a == k * a + (q - k) * a;
  }

  /** Whether an aligned request fits the memory from `address` up to `end`. */
  ghost predicate Fits(address: nat, end: nat, size: nat, alignment: nat)
    requires alignment > 0
  {
    AlignUp(address, alignment) + size <= end
  }

  /** The i-th chunk to come is the first that the request fits. */
  ghost predicate FirstFit(supply: seq<nat>, chunk: nat, size: nat, alignment: nat, i: nat)
    requires alignment > 0 && i < |supply|
  {
    && Fits(supply[i], supply[i] + chunk, size, alignment)
    && forall j | 0 <= j < i :: !Fits(supply[j], supply[j] + chunk, size, alignment)
  }

  lemma NextFit(supply: seq<nat>, chunk: nat, size: nat, alignment: nat, i: nat)
    requires alignment > 0 && 0 < i < |supply| && FirstFit(supply, chunk, size, alignment, i)
    ensures !Fits(supply[0], supply[0] + chunk, size, alignment)
    ensures FirstFit(supply[1..], chunk, size, alignment, i - 1)
  {
    hide Fits;
    forall j | 0 <= j < i - 1 ensures !Fits(supply[1..][j], supply[1..][j] + chunk, size, alignment) {
      assert supply[1..][j] == supply[j + 1];
    }
  }

  /** The request is at the first aligned address of the i-th chunk to come; the chunks passed
      over are unused, and the next request starts where this one ends. */
  ghost predicate AllocatedAt(a: Arena, o: Allocation, size: nat, alignment: nat, i: nat)
    requires a.pools != [] && alignment > 0 && i < |a.supply|
  {
    var at := AlignUp(a.supply[i], alignment); var chunk := a.pools[|a.pools| - 1].size;
    && at + size >= a.supply[i] && o.result == Some(at) && o.arena.supply == a.supply[i + 1..]
    && o.arena.pools == a.pools + Unused(a.supply[..i], chunk)
                        + [Pool(a.supply[i], chunk, at + size - a.supply[i])]
  }

  /** A request that fits what is left of the current chunk gets the first aligned address
      there. Otherwise it gets the first aligned address of the first chunk to come that it
      fits. The chunks passed over stay unused, and the next request starts where this one ends. */
  lemma {:induction false} AllocExactly(a: Arena, size: nat, alignment: nat)
    requires a.pools != [] && alignment > 0
    ensures var last := |a.pools| - 1; var pool := a.pools[last]; var o := Alloc(a, size, alignment);
            var fits := Fits(pool.addr + pool.offset, pool.addr + pool.size, size, alignment);
            && (fits ==>
                  var at := AlignUp(pool.addr + pool.offset, alignment);
                  && at + size >= pool.addr && o.result == Some(at) && o.arena.supply == a.supply
                  && o.arena.pools == a.pools[..last] + [Pool(pool.addr, pool.size, at + size - pool.addr)])
            && forall i: nat | i < |a.supply| && !fits && FirstFit(a.supply, pool.size, size, alignment, i) ::
                 AllocatedAt(a, o, size, alignment, i)
    decreases |a.supply|
  {
    hide AlignUp;
    var last := |a.pools| - 1;
    var pool := a.pools[last];
    AlignUpBounds(pool.addr + pool.offset, alignment);
    if !Fits(pool.addr + pool.offset, pool.addr + pool.size, size, alignment) && a.supply != [] {
      var b := Grown(a);
      AllocExactly(b, size, alignment);
      forall i: nat | i < |a.supply| && FirstFit(a.supply, pool.size, size, alignment, i)
        ensures AllocatedAt(a, Alloc(a, size, alignment), size, alignment, i)
      {
        AlignUpBounds(a.supply[i], alignment);
        if i > 0 {
          NextFit(a.supply, pool.size, size, alignment, i);
          assert AllocatedAt(b, Alloc(b, size, alignment), size, alignment, i - 1);
          assert a.pools + Unused(a.supply[..i], pool.size) == b.pools + Unused(b.supply[..i - 1], pool.size);
          assert b.supply[i..] == a.supply[i + 1..];
        } else {
          assert b.pools[..|a.pools|] == a.pools + Unused(a.supply[..0], pool.size);
        }
      }
    }
  }
}
