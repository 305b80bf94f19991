/** The slab pool as an object. */
module Slab {
  import opened Basics
  import opened Words
  import opened SlabList
  import opened SlabRuns
  import opened SlabChunks
  import opened SlabSlots
  import opened SlabHeld
  import P = SlabPool
  import R = SlabReturn

  /** The pool that ncx_slab_init leaves: one free run of all `n` pages and empty slots. */
  function Fresh(n: nat): Pool
    requires n > 0
  {
    Pool(Memory([Desc(n, Head(0), Head(0), PageKind)] + seq(n - 1, _ => ZERO),
                seq(LISTS, l requires 0 <= l < LISTS => if l == 0 then Page(0) else Head(l))),
         seq(n, _ => []))
  }

  ghost function FreshShape(n: nat): Shape {
    Shape(seq(LISTS, l requires 0 <= l < LISTS => if l == 0 then [0] else []), seq(n, _ => 0), seq(n, _ => n))
  }

  lemma {:induction false} FreshLinked(n: nat)
    requires n > 0
    ensures Linked(Fresh(n).m, FreshShape(n).lists)
  {
    var m, lists := Fresh(n).m, FreshShape(n).lists;
    forall l, k | 0 <= l < |lists| && 0 <= k < |lists[l]| ensures LinkedAt(m, lists, l, k) { }
  }

  lemma {:induction false} FreshOk(n: nat)
    requires 0 < n < START - 1
    ensures PoolOk(Fresh(n), FreshShape(n)) && forall a :: !Held(Fresh(n), FreshShape(n), a)
  {
    hide Linked, ChunkOk;
    FreshLinked(n);
    var p, s := Fresh(n), FreshShape(n);
    forall i | 0 <= i < |s.owner| ensures InRun(s.owner, s.size, i) { }
    forall h | IsHead(s.owner, h) ensures RunFrom(s.owner, s.size, h) { }
    forall i: nat | i < |p.m.pages| ensures DescOk(p.m, s, i) {
      assert Free(s, i);
    }
    forall l: nat, i: nat | l < |s.lists| && i in s.lists[l] ensures Member(p.m, s, l, i) { }
    forall a ensures !Held(p, s, a) {
      if a.page < n { assert Free(s, a.page); }
    }
  }

  class SlabPool {
    var pool: Pool
    ghost var shape: Shape
    /** Bytes from the first page to the end of the pool. */
    const end: nat

    ghost predicate Valid()
      reads this
    {
      PoolOk(pool, shape) && |pool.m.pages| * 4096 <= end
    }

    /** Allocation `a` is live. */
    ghost predicate Has(a: Alloc)
      reads this
    {
      Held(pool, shape, a)
    }

    constructor (n: nat, end: nat)
      requires 0 < n < START - 1 && n * 4096 <= end
      ensures Valid() && forall a :: !Has(a)
    {
      pool := Fresh(n);
      shape := FreshShape(n);
      this.end := end;
      new;
      FreshOk(n);
    }

    /** ncx_slab_alloc */
    method Alloc(size: nat) returns (r: Option<nat>, ghost a: Alloc, ghost shift: nat)
      requires Valid()
      modifies this
      ensures Valid()
      ensures size < 2048 ==> P.Class(size, shift)
      ensures r.None? <==> old(P.NoRoom(pool, shape, size, shift))
      ensures r.None? ==> pool == old(pool) && shape == old(shape)
      ensures r.Some? ==> Grants(old(pool), old(shape), pool, shape, a) && Has(a)
      ensures r.Some? ==> r.value == Start(pool, shape, a) && Length(pool, shape, a) == P.Rounded(size, shift) >= size
      ensures r.Some? ==> P.Chosen(old(pool), old(shape), size, shift, shape, a)
    {
      hide PoolOk, Held, P.NoRoom, P.Class, P.Chosen;
      var p;
      p, r, shape, a, shift := P.Alloc(pool, size, shape);
      pool := p;
    }

    /** ncx_slab_free; `beyond` is what the code's tests make of the memory past the last descriptor. The pool stays
        sound unless the address is that of a chunk which holds the bitmap of its page. */
    method Free(addr: int, beyond: bool) returns (ok: bool, ghost a: Alloc)
      requires Valid() && (addr >= 0 ==> !R.Tail(pool, addr, end, beyond))
      modifies this
      ensures ok == old(R.Accepts(pool, addr, end, beyond))
      ensures R.Effect(old(pool), old(shape), addr, pool, shape, a)
      ensures Valid() <==> !(addr >= 0 && R.BitmapChunk(old(pool), addr))
    {
      hide PoolOk, Held, R.Accepts, R.Effect, R.BitmapChunk;
      ghost var p0, s0 := pool, shape;
      var p;
      p, ok, shape, a := R.FreeAt(pool, addr, end, beyond, shape);
      pool := p;
      R.SoundExactly(p0, s0, addr, pool, shape, a);
    }
  }

  /** The first address of a fresh pool is accepted, although no allocation is live. */
  lemma {:induction false} FreshAccepted(n: nat, end: nat, beyond: bool)
    requires 0 < n < START - 1 && n * 4096 <= end
    ensures R.Accepts(Fresh(n), 0, end, beyond) && R.Undetected(Fresh(n), FreshShape(n), 0, end, beyond)
  {
    hide PoolOk, R.Accepts, R.LiveAt;
    FreshOk(n);
    assert R.FreeRunHead(Fresh(n), FreshShape(n), 0);
    R.AcceptsExactly(Fresh(n), FreshShape(n), 0, end, beyond);
  }

  lemma {:induction false} FreshHasRoom(n: nat, shift: nat)
    requires n > 0
    ensures !P.NoRoom(Fresh(n), FreshShape(n), 8, shift)
  {
    assert Stretch(FreshShape(n), 0, 1);
  }

  lemma {:induction false} ClassEight(shift: nat)
    requires P.Class(8, shift)
    ensures P.Rounded(8, shift) == 8
  {
    Powers();
    if shift > 4 { SizeGrows(4, shift - 1); }
  }

  lemma {:induction false} SizeGrows(a: nat, b: nat)
    requires 3 <= a <= b <= 11
    ensures ChunkSize(a) <= ChunkSize(b)
  {
    Powers();
  }

  lemma {:induction false} SamePool(p: Pool, s: Shape, p': Pool, s': Shape, a: Alloc)
    requires Grants(p, s, p', s', a)
    ensures |p'.m.pages| == |p.m.pages|
  {
  }

  /** An allocation of 8 bytes lies in a page of small chunks. */
  lemma {:induction false} SmallChunk(p: Pool, s: Shape, a: Alloc)
    requires PoolOk(p, s) && Held(p, s, a) && Length(p, s, a) == 8
    ensures a.ChunkOf? && IsChunks(p.m, a.page) && p.m.pages[a.page].kind == Small
  {
    Powers();
    if a.ChunkOf? {
      assert ChunkOk(p, s, a.page);
    }
  }

  /** After one allocation of 8 bytes from a fresh pool some address is accepted where the bitmap lies. */
  method SmallAccepted(n: nat, end: nat, beyond: bool) returns (p: Pool, addr: nat, ghost s: Shape)
    requires 0 < n < START - 1 && n * 4096 <= end
    ensures PoolOk(p, s) && R.BitmapChunk(p, addr) && R.Accepts(p, addr, end, beyond) && !R.LiveAt(p, s, addr)
  {
    hide PoolOk, R.Accepts, R.LiveAt, R.Aligned, R.ChunkAt, Grants, P.NoRoom, P.Class, P.Rounded, R.BitmapChunk, Held,
      Start, Length;
    FreshOk(n);
    var r; ghost var a, shift;
    p, r, s, a, shift := P.Alloc(Fresh(n), 8, FreshShape(n));
    FreshHasRoom(n, shift);
    ClassEight(shift);
    SamePool(Fresh(n), FreshShape(n), p, s, a);
    SmallChunk(p, s, a);
    addr := r.value / 4096 * 4096;
    R.Locate(p, s, a);
    R.BitmapAccepted(p, s, a.page, end, beyond);
  }
}
