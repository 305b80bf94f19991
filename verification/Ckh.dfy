/** Insertion by eviction, rebuilding, and the map operations of the cuckoo hash. The pseudo-random choices are the
    elements of a sequence, whatever it is; a run of evictions that uses them all up ends in `Starved`, where the code
    would go on. */
module Ckh {
  import opened Basics
  import opened Triangular
  import opened CkhTable

  /** ckh_try_bucket_insert: the first empty cell from a random one on, cyclically. */
  method TryBucketInsert<K(!new), V(!new)>(t: Table<K, V>, h: Hashes<K>, b: nat, it: Item<K, V>, offset: nat)
    returns (full: bool, t': Table<K, V>)
    requires Ok(t, h) && b < Pow2(t.lg) && Mine(t, h, it.key, b) && Absent(t.tab, it.key) && offset < CELLS
    ensures full ==> t' == t && BucketFull(t, b)
    ensures !full ==> Ok(t', h) && Added(t, it, t') && !BucketFull(t, b)
  {
    hide CountItems, Pow2, Bucket, Placed, Unique, Absent;
    for i := 0 to CELLS
      invariant forall j :: 0 <= j < i ==> CellAt(t, b, offset, j)
    {
      var c := b * CELLS + (i + offset) % CELLS;
      CellOf(b, (i + offset) % CELLS, Pow2(t.lg));
      if t.tab[c].None? {
        FillOk(t, h, c, it);
        assert !Used(t, c);
        t' := Table(t.lg, t.tab[c := Some(it)], t.count + 1);
        return false, t';
      }
    }
    AllCells(t, b, offset);
    return true, t;
  }

  predicate CellAt<K, V>(t: Table<K, V>, b: nat, offset: nat, j: int) {
    var c := b * CELLS + (j + offset) % CELLS;
    c < |t.tab| && t.tab[c].Some?
  }

  /** Four steps from anywhere visit the four cells. */
  lemma {:induction false} AllCells<K, V>(t: Table<K, V>, b: nat, offset: nat)
    requires offset < CELLS && forall j :: 0 <= j < CELLS ==> CellAt(t, b, offset, j)
    ensures BucketFull(t, b)
  {
    forall i | b * CELLS <= i < (b + 1) * CELLS ensures Used(t, i) {
      var x := i - b * CELLS;
      var j := if x >= offset then x - offset else x + CELLS - offset;
      assert (j + offset) % CELLS == x;
      assert CellAt(t, b, offset, j);
    }
  }

  // ----- ckh_evict_reloc_insert -----

  /** How an attempt ends. `Cycle` is the failure of ckh_try_insert and ckh_rebuild, `NoMemory` that of ckh_grow and
      ckh_insert. */
  datatype Outcome = Done | Cycle | NoMemory | Starved

  /** The bucket where an item evicted from `b` goes: its secondary one, or its primary one if that is `b`. */
  function Other<K, V>(t: Table<K, V>, h: Hashes<K>, key: K, b: nat): nat {
    var b1 := Bucket(h.h1(key), t.lg);
    if b1 == b then Bucket(h.h0(key), t.lg) else b1
  }

  /** The item lies in bucket `b`. */
  ghost predicate InBucket<K, V>(t: Table<K, V>, b: nat, it: Item<K, V>) {
    exists c :: b * CELLS <= c < (b + 1) * CELLS && c < |t.tab| && t.tab[c] == Some(it)
  }

  /** The item of bucket `b` that choice `i` evicts. */
  function Victim<K, V>(t: Table<K, V>, b: nat, i: nat): Item<K, V>
    requires Used(t, b * CELLS + i)
  {
    t.tab[b * CELLS + i].value
  }

  /** One eviction: the item in hand changes places with a random one of the full bucket `b`. */
  method Evict<K(!new), V(!new)>(t: Table<K, V>, h: Hashes<K>, b: nat, it: Item<K, V>, i: nat)
    returns (t': Table<K, V>, it': Item<K, V>, b': nat)
    requires Ok(t, h) && Absent(t.tab, it.key) && b < Pow2(t.lg) && BucketFull(t, b) && Mine(t, h, it.key, b)
    requires i < CELLS
    ensures Ok(t', h) && Conserved(t, it, t', it') && b' < Pow2(t.lg) && Mine(t', h, it'.key, b')
    ensures Used(t, b * CELLS + i) && t'.tab == t.tab[b * CELLS + i := Some(it)]
    ensures it' == Victim(t, b, i) && b' == Other(t, h, it'.key, b) && InBucket(t', b, it)
  {
    hide CountItems, Pow2, Placed, Unique, Absent;
    CellOf(b, i, Pow2(t.lg));
    var c := b * CELLS + i;
    assert Used(t, c);
    SwapOk(t, h, c, it);
    it' := t.tab[c].value;
    t' := t.(tab := t.tab[c := Some(it)]);
    b' := Bucket(h.h1(it'.key), t.lg);
    if b' == b {
      b' := Bucket(h.h0(it'.key), t.lg);
    }
    assert t'.tab[c] == Some(it);
  }

  /** An eviction from another bucket leaves the item where it is. */
  lemma {:induction false} StaysInBucket<K, V>(t: Table<K, V>, b: nat, it: Item<K, V>, b2: nat, i: nat,
    v: Option<Item<K, V>>)
    requires InBucket(t, b, it) && b2 != b && i < CELLS && b2 * CELLS + i < |t.tab|
    ensures InBucket(t.(tab := t.tab[b2 * CELLS + i := v]), b, it)
  {
    var c :| b * CELLS <= c < (b + 1) * CELLS && c < |t.tab| && t.tab[c] == Some(it);
    assert t.tab[b2 * CELLS + i := v][c] == Some(it);
  }

  lemma {:induction false} InBucketStored<K, V>(t: Table<K, V>, b: nat, it: Item<K, V>, left: Item<K, V>)
    requires InBucket(t, b, it) && Absent(t.tab, left.key)
    ensures Stored(t.tab, it) && left.key != it.key
  {
  }

  lemma {:induction false} ConservedStart<K(!new), V(!new)>(t: Table<K, V>, it: Item<K, V>)
    requires Absent(t.tab, it.key)
    ensures Conserved(t, it, t, it)
  {
  }

  lemma {:induction false} ConservedNext<K(!new), V(!new)>(t: Table<K, V>, it: Item<K, V>, t1: Table<K, V>,
    it1: Item<K, V>,
    t2: Table<K, V>, it2: Item<K, V>)
    requires Conserved(t, it, t1, it1) && Conserved(t1, it1, t2, it2)
    ensures Conserved(t, it, t2, it2) && t2.lg == t1.lg && t2.count == t1.count && Absent(t2.tab, it2.key)
  {
  }

  lemma {:induction false} ConservedAdded<K(!new), V(!new)>(t: Table<K, V>, it: Item<K, V>, t1: Table<K, V>,
    it1: Item<K, V>,
    t2: Table<K, V>)
    requires Conserved(t, it, t1, it1) && Added(t1, it1, t2)
    ensures Added(t, it, t2)
  {
  }

  /** The table with the item in hand in the place that choice `i` of bucket `b` names. */
  function Swapped<K, V>(t: Table<K, V>, b: nat, i: nat, it: Item<K, V>): Table<K, V>
    requires Used(t, b * CELLS + i)
  {
    t.(tab := t.tab[b * CELLS + i := Some(it)])
  }

  /** With these choices the eviction loop, in bucket `bucket` with `it` in hand, ends: the evicted item belongs to `b`
      again, or its other bucket has an empty cell. */
  ghost predicate Ends<K, V>(t: Table<K, V>, h: Hashes<K>, b: nat, it: Item<K, V>, bucket: nat, rnd: seq<nat>)
    decreases |rnd|
  {
    && |rnd| >= 2 && Used(t, bucket * CELLS + rnd[0] % CELLS)
    && var t1, v := Swapped(t, bucket, rnd[0] % CELLS, it), Victim(t, bucket, rnd[0] % CELLS);
       var next := Other(t, h, v.key, bucket);
       next == b || !BucketFull(t1, next) || Ends(t1, h, b, v, next, rnd[2..])
  }

  /** With these choices the eviction loop comes back to `b` before any evicted item finds an empty cell. */
  ghost predicate Loops<K, V>(t: Table<K, V>, h: Hashes<K>, b: nat, it: Item<K, V>, bucket: nat, rnd: seq<nat>)
    decreases |rnd|
  {
    && |rnd| >= 2 && Used(t, bucket * CELLS + rnd[0] % CELLS)
    && var t1, v := Swapped(t, bucket, rnd[0] % CELLS, it), Victim(t, bucket, rnd[0] % CELLS);
       var next := Other(t, h, v.key, bucket);
       next == b || (BucketFull(t1, next) && Loops(t1, h, b, v, next, rnd[2..]))
  }

  /** After the first eviction the loop never evicts from `b` again, so a cycle leaves the new item in the table. */
  method EvictReloc<K(!new), V(!new)>(t: Table<K, V>, h: Hashes<K>, b: nat, it: Item<K, V>, rnd: seq<nat>)
    returns (o: Outcome, t': Table<K, V>, it': Item<K, V>, rest: seq<nat>)
    requires Ok(t, h) && Absent(t.tab, it.key) && b < Pow2(t.lg) && BucketFull(t, b) && Mine(t, h, it.key, b)
    ensures Ok(t', h) && |rest| <= |rnd| && o != NoMemory
    ensures if o == Done then Added(t, it, t') else Conserved(t, it, t', it')
    ensures o == Cycle ==> Stored(t'.tab, it) && it'.key != it.key
    ensures |rnd| >= 2 && Returns(t, h, b, rnd[0] % CELLS) ==> o == Cycle && it' == Victim(t, b, rnd[0] % CELLS)
    ensures o != Starved <==> Ends(t, h, b, it, b, rnd)
    ensures o == Cycle <==> Loops(t, h, b, it, b, rnd)
  {
    hide Ok, Pow2, Bucket, Absent, BucketFull, Mine, InBucket, Stored, Conserved, Other, Victim;
    ConservedStart(t, it);
    t', it', rest := t, it, rnd;
    var bucket: nat := b;
    while |rest| >= 2
      invariant Ok(t', h) && Conserved(t, it, t', it') && Absent(t'.tab, it'.key) && t'.lg == t.lg && |rest| <= |rnd|
      invariant bucket < Pow2(t.lg) && BucketFull(t', bucket) && Mine(t', h, it'.key, bucket)
      invariant if bucket == b then t' == t && it' == it && rest == rnd else InBucket(t', b, it)
      invariant bucket != b && |rnd| >= 2 ==> !Returns(t, h, b, rnd[0] % CELLS)
      invariant Ends(t, h, b, it, b, rnd) <==> Ends(t', h, b, it', bucket, rest)
      invariant Loops(t, h, b, it, b, rnd) <==> Loops(t', h, b, it', bucket, rest)
      decreases |rest|
    {
      var t1, it1, tbucket := Evict(t', h, bucket, it', rest[0] % CELLS);
      ConservedNext(t, it, t', it', t1, it1);
      if bucket != b { StaysInBucket(t', b, it, bucket, rest[0] % CELLS, Some(it')); }
      assert t1 == t'.(tab := t1.tab) == Swapped(t', bucket, rest[0] % CELLS, it');
      OtherSame(t', t1, h, it1.key, bucket);
      t', it' := t1, it1;
      if tbucket == b {
        InBucketStored(t', b, it, it');
        return Cycle, t', it', rest[1..];
      }
      bucket := tbucket;
      var full, t2 := TryBucketInsert(t', h, bucket, it', rest[1] % CELLS);
      rest := rest[2..];
      if !full {
        ConservedAdded(t, it, t', it', t2);
        return Done, t2, it', rest;
      }
    }
    return Starved, t', it', rest;
  }

  lemma {:induction false} OtherSame<K, V>(t: Table<K, V>, t': Table<K, V>, h: Hashes<K>, key: K, b: nat)
    requires t'.lg == t.lg
    ensures Other(t', h, key, b) == Other(t, h, key, b)
  {
  }

  /** The item that choice `i` evicts from `b` comes back to `b`. */
  predicate Returns<K, V>(t: Table<K, V>, h: Hashes<K>, b: nat, i: nat) {
    && i < CELLS && Used(t, b * CELLS + i)
    && Other(t, h, Victim(t, b, i).key, b) == b
  }

  // ----- ckh_try_insert -----

  function Pick(rnd: seq<nat>): nat {
    if rnd == [] then 0 else rnd[0] % CELLS
  }

  function Rest(rnd: seq<nat>): (r: seq<nat>)
    ensures |r| <= |rnd|
  {
    if rnd == [] then [] else rnd[1..]
  }

  /** Both buckets of the key are full. */
  ghost predicate NoCell<K, V>(t: Table<K, V>, h: Hashes<K>, key: K) {
    BucketFull(t, Bucket(h.h0(key), t.lg)) && BucketFull(t, Bucket(h.h1(key), t.lg))
  }

  /** Both buckets are full and evicting from the secondary one goes round in a cycle. */
  ghost predicate Circles<K, V>(t: Table<K, V>, h: Hashes<K>, it: Item<K, V>, rnd: seq<nat>) {
    var b := Bucket(h.h1(it.key), t.lg);
    NoCell(t, h, it.key) && Loops(t, h, b, it, b, Rest(Rest(rnd)))
  }

  /** The primary bucket, the secondary bucket, then eviction from the secondary one. */
  method TryInsert<K(!new), V(!new)>(t: Table<K, V>, h: Hashes<K>, it: Item<K, V>, rnd: seq<nat>)
    returns (o: Outcome, t': Table<K, V>, it': Item<K, V>, rest: seq<nat>)
    requires Ok(t, h) && Absent(t.tab, it.key)
    ensures Ok(t', h) && |rest| <= |rnd| && o != NoMemory
    ensures if o == Done then Added(t, it, t') else Conserved(t, it, t', it')
    ensures !NoCell(t, h, it.key) ==> o == Done
    ensures o == Cycle <==> Circles(t, h, it, rnd)
    ensures o == Cycle ==> Stored(t'.tab, it) && it'.key != it.key
    ensures var b := Bucket(h.h1(it.key), t.lg);
      |rnd| >= 4 && NoCell(t, h, it.key) && Returns(t, h, b, rnd[2] % CELLS) ==>
        o == Cycle && it' == Victim(t, b, rnd[2] % CELLS)
  {
    hide Ok, Pow2, Absent, BucketFull, Added, Conserved, Returns, Victim, Stored, Loops;
    it' := it;
    var b0 := Bucket(h.h0(it.key), t.lg);
    var full;
    full, t' := TryBucketInsert(t, h, b0, it, Pick(rnd));
    if !full {
      return Done, t', it, Rest(rnd);
    }
    var b1 := Bucket(h.h1(it.key), t.lg);
    full, t' := TryBucketInsert(t, h, b1, it, Pick(Rest(rnd)));
    if !full {
      return Done, t', it, Rest(Rest(rnd));
    }
    o, t', it', rest := EvictReloc(t, h, b1, it, Rest(Rest(rnd)));
  }

  // ----- ckh_rebuild -----

  /** The same items, whatever the places. */
  ghost predicate SameItems<K(!new), V(!new)>(tab: seq<Option<Item<K, V>>>, tab': seq<Option<Item<K, V>>>) {
    forall x :: Stored(tab', x) <==> Stored(tab, x)
  }

  function EmptyTable<K, V>(lg: nat): (t: Table<K, V>) {
    Table(lg, seq(Pow2(lg) * CELLS, _ => None), 0)
  }

  lemma {:induction false} EmptyOk<K(!new), V(!new)>(lg: nat, h: Hashes<K>)
    ensures Ok(EmptyTable<K, V>(lg), h) && forall x :: !Stored(EmptyTable<K, V>(lg).tab, x)
  {
    CountEmpty<K, V>(Pow2(lg) * CELLS);
  }

  lemma {:induction false} NextItem<K(!new), V(!new)>(cells: seq<Option<Item<K, V>>>, i: nat, t: Table<K, V>)
    requires i < |cells| && cells[i].Some? && Unique(cells) && SameItems(cells[..i], t.tab)
    ensures Absent(t.tab, cells[i].value.key)
    ensures forall x :: Stored(cells[..i + 1], x) <==> Stored(cells[..i], x) || x == cells[i].value
  {
    forall j | 0 <= j < |t.tab| && t.tab[j].Some? ensures t.tab[j].value.key != cells[i].value.key {
      assert Stored(t.tab, t.tab[j].value);
      assert Stored(cells[..i], t.tab[j].value);
    }
    assert cells[..i + 1] == cells[..i] + [cells[i]];
    forall x ensures Stored(cells[..i + 1], x) <==> Stored(cells[..i], x) || x == cells[i].value {
      assert Some(x) in cells[..i + 1] <==> Some(x) in cells[..i] || Some(x) == cells[i];
    }
  }

  lemma {:induction false} SkipCell<K(!new), V(!new)>(cells: seq<Option<Item<K, V>>>, i: nat)
    requires i < |cells| && cells[i].None?
    ensures forall x :: Stored(cells[..i + 1], x) <==> Stored(cells[..i], x)
  {
    assert cells[..i + 1] == cells[..i] + [cells[i]];
  }

  lemma {:induction false} NoneLeft<K, V>(tab: seq<Option<Item<K, V>>>, i: nat)
    requires i < |tab| && CountItems(tab) == 0
    ensures tab[i].None?
  {
    if i > 0 { NoneLeft(tab[1..], i - 1); }
  }

  lemma {:induction false} PrefixIsAll<K(!new), V(!new)>(cells: seq<Option<Item<K, V>>>, i: nat)
    requires i <= |cells| && CountItems(cells[..i]) == CountItems(cells)
    ensures SameItems(cells[..i], cells)
  {
    CountSplit(cells, i);
    forall x ensures Stored(cells, x) <==> Stored(cells[..i], x) {
      if Stored(cells, x) {
        var j :| 0 <= j < |cells| && cells[j] == Some(x);
        if j >= i {
          NoneLeft(cells[i..], j - i);
        } else {
          assert cells[..i][j] == Some(x);
        }
      }
    }
  }

  lemma {:induction false} MoreLeft<K, V>(cells: seq<Option<Item<K, V>>>, i: nat)
    requires i <= |cells| && CountItems(cells[..i]) < CountItems(cells)
    ensures i < |cells|
  {
    assert cells[..|cells|] == cells;
  }

  lemma {:induction false} CountAtMost<K, V>(tab: seq<Option<Item<K, V>>>)
    ensures CountItems(tab) <= |tab|
  {
    if tab != [] { CountAtMost(tab[1..]); }
  }

  lemma {:induction false} CountAll<K, V>(tab: seq<Option<Item<K, V>>>)
    requires forall i :: 0 <= i < |tab| ==> tab[i].Some?
    ensures CountItems(tab) == |tab|
  {
    if tab != [] { CountAll(tab[1..]); }
  }

  /** A full bucket holds four of the items. */
  lemma {:induction false} FullCounts<K, V>(t: Table<K, V>, b: nat)
    requires BucketFull(t, b)
    ensures CountItems(t.tab) >= CELLS
  {
    hide CountItems;
    var lo, hi := b * CELLS, (b + 1) * CELLS;
    assert Used(t, hi - 1);
    CountSplit(t.tab, lo);
    CountSplit(t.tab[lo..], CELLS);
    assert t.tab[lo..][..CELLS] == t.tab[lo..hi];
    forall j | 0 <= j < CELLS ensures t.tab[lo..hi][j].Some? {
      assert Used(t, lo + j);
    }
    CountAll(t.tab[lo..hi]);
  }

  /** With fewer than four items in the table every key has an empty cell. */
  lemma {:induction false} FewHaveCell<K, V>(t: Table<K, V>, h: Hashes<K>, key: K)
    requires Ok(t, h)
    ensures t.count < CELLS ==> !NoCell(t, h, key)
  {
    hide CountItems;
    if NoCell(t, h, key) { FullCounts(t, Bucket(h.h0(key), t.lg)); }
  }

  /** In a table of 2^lg buckets with the first of the items some next one goes round in a cycle. */
  ghost predicate Clogged<K(!new), V(!new)>(from: seq<Option<Item<K, V>>>, h: Hashes<K>, lg: nat) {
    exists i: nat, t: Table<K, V>, rnd :: StopsAt(from, h, lg, i, t, rnd)
  }

  ghost predicate StopsAt<K(!new), V(!new)>(from: seq<Option<Item<K, V>>>, h: Hashes<K>, lg: nat, i: nat,
    t: Table<K, V>, rnd: seq<nat>)
  {
    && i < |from| && from[i].Some? && Ok(t, h) && t.lg == lg && SameItems(from[..i], t.tab)
    && Circles(t, h, from[i].value, rnd)
  }

  /** Every larger table within the limit is clogged. */
  ghost predicate Stuck<K(!new), V(!new)>(t: Table<K, V>, h: Hashes<K>, limit: nat) {
    forall lg: nat :: t.lg < lg && lg + 2 <= limit ==> Clogged(t.tab, h, lg)
  }

  /** Moving `count` items from the old cells into the empty table `t`, whose count is theirs. */
  method Rebuild<K(!new), V(!new)>(t: Table<K, V>, h: Hashes<K>, from: seq<Option<Item<K, V>>>, rnd: seq<nat>)
    returns (o: Outcome, t': Table<K, V>, rest: seq<nat>)
    requires t.(count := 0) == EmptyTable(t.lg) && Unique(from) && t.count == CountItems(from)
    ensures t'.count == t.count && |rest| <= |rnd| && o != NoMemory
    ensures o == Done ==> Ok(t', h) && t'.lg == t.lg && SameItems(from, t'.tab)
    ensures t.count <= CELLS ==> o == Done
    ensures o == Cycle ==> Clogged(from, h, t.lg)
  {
    hide Ok, Pow2, Absent, CountItems, Unique, EmptyTable, SameItems, NoCell, Returns, Victim, Stored, Circles;
    var count := t.count;
    t' := t.(count := 0);
    rest := rnd;
    EmptyOk<K, V>(t.lg, h);
    var i, nins := 0, 0;
    Nothing(t', from);
    while nins < count
      invariant 0 <= i <= |from| && nins == t'.count == CountItems(from[..i])
      invariant Ok(t', h) && t'.lg == t.lg && SameItems(from[..i], t'.tab) && |rest| <= |rnd|
      decreases |from| - i
    {
      MoreLeft(from, i);
      CountNext(from, i);
      if from[i].Some? {
        NextItem(from, i, t');
        var t2, it;
        FewHaveCell(t', h, from[i].value.key);
        ghost var before := rest;
        o, t2, it, rest := TryInsert(t', h, from[i].value, rest);
        if o != Done {
          assert o == Cycle ==> StopsAt(from, h, t.lg, i, t', before);
          return o, t2.(count := count), rest;
        }
        Grown(from, i, t', t2);
        t' := t2;
        nins := nins + 1;
      } else {
        Skipped(from, i, t');
      }
      i := i + 1;
    }
    assert from[..|from|] == from;
    CountPrefix(from, i);
    PrefixIsAll(from, i);
    Same(from[..i], from, t'.tab);
    o := Done;
  }

  lemma {:induction false} CountPrefix<K, V>(from: seq<Option<Item<K, V>>>, i: nat)
    requires i <= |from|
    ensures CountItems(from[..i]) <= CountItems(from)
  {
    CountSplit(from, i);
  }

  lemma {:induction false} Nothing<K(!new), V(!new)>(t: Table<K, V>, from: seq<Option<Item<K, V>>>)
    requires forall x :: !Stored(t.tab, x)
    ensures SameItems(from[..0], t.tab) && CountItems(from[..0]) == 0
  {
  }

  lemma {:induction false} Grown<K(!new), V(!new)>(from: seq<Option<Item<K, V>>>, i: nat, t: Table<K, V>,
    t2: Table<K, V>)
    requires i < |from| && from[i].Some? && SameItems(from[..i], t.tab) && Added(t, from[i].value, t2)
    requires forall x :: Stored(from[..i + 1], x) <==> Stored(from[..i], x) || x == from[i].value
    ensures SameItems(from[..i + 1], t2.tab)
  {
  }

  lemma {:induction false} Skipped<K(!new), V(!new)>(from: seq<Option<Item<K, V>>>, i: nat, t: Table<K, V>)
    requires i < |from| && from[i].None? && SameItems(from[..i], t.tab)
    ensures SameItems(from[..i + 1], t.tab)
  {
    SkipCell(from, i);
  }

  lemma {:induction false} Same<K(!new), V(!new)>(a: seq<Option<Item<K, V>>>, b: seq<Option<Item<K, V>>>,
    c: seq<Option<Item<K, V>>>)
    requires SameItems(a, b) && SameItems(a, c)
    ensures SameItems(b, c)
  {
  }

  // ----- ckh_grow and ckh_shrink -----

  lemma {:induction false} OkFacts<K, V>(t: Table<K, V>, h: Hashes<K>)
    requires Ok(t, h)
    ensures Unique(t.tab) && t.count == CountItems(t.tab)
  {
  }

  /** Doubling until a rebuild succeeds; `limit` is the largest table, in cells, that can be allocated. On failure the
      table is exactly what it was. Four items fit every table. */
  method Grow<K(!new), V(!new)>(t: Table<K, V>, h: Hashes<K>, rnd: seq<nat>, limit: nat)
    returns (o: Outcome, t': Table<K, V>, rest: seq<nat>)
    requires Ok(t, h)
    ensures Ok(t', h) && |rest| <= |rnd| && o != Cycle
    ensures o == Done ==> t.lg < t'.lg && t'.lg + 2 <= limit && SameItems(t.tab, t'.tab) && t'.count == t.count
    ensures o != Done ==> t' == t
    ensures t.lg + 2 >= limit ==> o == NoMemory
    ensures t.lg + 2 < limit && t.count <= CELLS ==> o == Done && t'.lg == t.lg + 1
    ensures o == NoMemory ==> Stuck(t, h, limit)
    ensures forall lg: nat :: o == Done && t.lg < lg < t'.lg ==> Clogged(t.tab, h, lg)
  {
    hide Ok, Pow2, CountItems, Unique, SameItems, Clogged;
    OkFacts(t, h);
    rest := rnd;
    t' := t;
    var cells := t.lg + 2;
    while true
      invariant cells >= t.lg + 2 && t' == t && |rest| <= |rnd|
      invariant cells > t.lg + 2 ==> t.count > CELLS && t.lg + 2 < limit
      invariant forall lg: nat :: t.lg < lg <= cells - 2 ==> Clogged(t.tab, h, lg)
      decreases limit - cells
    {
      cells := cells + 1;
      if cells > limit {
        return NoMemory, t', rest;
      }
      var oldTab := t'.tab;
      var blank := EmptyTable<K, V>(cells - 2);
      t' := Table(cells - 2, blank.tab, t'.count);
      o, t', rest := Rebuild(t', h, oldTab, rest);
      if o == Done {
        return Done, t', rest;
      }
      t' := Table(t.lg, oldTab, t'.count);
      if o == Starved {
        return Starved, t', rest;
      }
    }
  }

  /** Halving, if a rebuild succeeds; otherwise the table is exactly what it was. */
  method Shrink<K(!new), V(!new)>(t: Table<K, V>, h: Hashes<K>, rnd: seq<nat>, room: bool)
    returns (o: Outcome, t': Table<K, V>, rest: seq<nat>)
    requires Ok(t, h) && t.lg > 0
    ensures Ok(t', h) && |rest| <= |rnd|
    ensures if o == Done then t'.lg == t.lg - 1 && SameItems(t.tab, t'.tab) && t'.count == t.count else t' == t
    ensures o == NoMemory <==> !room
    ensures room && t.count <= CELLS ==> o == Done
    ensures o == Cycle ==> Clogged(t.tab, h, t.lg - 1)
  {
    hide Ok, Pow2, CountItems, Unique, SameItems, Clogged;
    OkFacts(t, h);
    if !room {
      return NoMemory, t, rnd;
    }
    var blank := EmptyTable<K, V>(t.lg - 1);
    o, t', rest := Rebuild(Table(t.lg - 1, blank.tab, t.count), h, t.tab, rnd);
    if o != Done {
      t' := Table(t.lg, t.tab, t'.count);
    }
  }

  // ----- ckh_insert -----

  /** The table and the item in hand hold what the table held and the new item. */
  ghost predicate Kept<K(!new), V(!new)>(t: Table<K, V>, it: Item<K, V>, t': Table<K, V>, it': Item<K, V>) {
    && Absent(t'.tab, it'.key) && t'.count == t.count
    && forall x :: Stored(t'.tab, x) || x == it' <==> Stored(t.tab, x) || x == it
  }

  lemma {:induction false} KeptStep<K(!new), V(!new)>(t: Table<K, V>, it: Item<K, V>, t1: Table<K, V>, it1: Item<K, V>,
    t2: Table<K, V>, it2: Item<K, V>, t3: Table<K, V>)
    requires Kept(t, it, t1, it1) && Conserved(t1, it1, t2, it2) && SameItems(t2.tab, t3.tab) && t3.count == t2.count
    ensures Kept(t, it, t3, it2)
  {
    forall i | 0 <= i < |t3.tab| && t3.tab[i].Some? ensures t3.tab[i].value.key != it2.key {
      assert Stored(t3.tab, t3.tab[i].value);
      assert Stored(t2.tab, t3.tab[i].value);
    }
  }

  lemma {:induction false} KeptDone<K(!new), V(!new)>(t: Table<K, V>, it: Item<K, V>, t1: Table<K, V>, it1: Item<K, V>,
    t2: Table<K, V>)
    requires Kept(t, it, t1, it1) && Added(t1, it1, t2)
    ensures t2.count == t.count + 1 && forall x :: Stored(t2.tab, x) <==> Stored(t.tab, x) || x == it
  {
  }

  lemma {:induction false} Reflexive<K(!new), V(!new)>(tab: seq<Option<Item<K, V>>>)
    ensures SameItems(tab, tab)
  {
  }

  lemma {:induction false} KeptStart<K(!new), V(!new)>(t: Table<K, V>, it: Item<K, V>)
    requires Absent(t.tab, it.key)
    ensures Kept(t, it, t, it)
  {
  }

  /** On success the new item is in the table and no other has gone. Otherwise one item is left in hand and nothing else
      is lost. When there is no memory that item is not `held`, the one that was in hand when the table last grew, which
      is the new one if it never did: a table that cannot grow takes the new item and loses an older one. */
  method Insert<K(!new), V(!new)>(t: Table<K, V>, h: Hashes<K>, it: Item<K, V>, rnd: seq<nat>, limit: nat)
    returns (o: Outcome, t': Table<K, V>, it': Item<K, V>, ghost held: Item<K, V>)
    requires Ok(t, h) && Absent(t.tab, it.key)
    ensures Ok(t', h) && t'.lg >= t.lg && o != Cycle
    ensures o == Done ==> t'.count == t.count + 1 && forall x :: Stored(t'.tab, x) <==> Stored(t.tab, x) || x == it
    ensures o != Done ==> Kept(t, it, t', it')
    ensures o == NoMemory ==> Stored(t'.tab, held) && it'.key != held.key && (t'.lg == t.lg ==> held == it)
    ensures !NoCell(t, h, it.key) ==> o == Done
    ensures o == NoMemory ==> Stuck(t', h, limit)
    ensures o == NoMemory || t'.lg > t.lg ==> Circles(t, h, it, rnd)
    ensures Circles(t, h, it, rnd) ==> if t.lg + 2 >= limit then o == NoMemory else o != Done || t'.lg > t.lg
    ensures t.lg + 2 < limit && t.count <= CELLS && Circles(t, h, it, rnd) ==> t'.lg > t.lg
    ensures t.lg + 2 >= limit ==> t'.lg == t.lg
    ensures t.lg + 2 >= limit && t.count == Pow2(t.lg) * CELLS ==> o != Done
    ensures t.lg + 2 >= limit && t.lg == 0 && |rnd| >= 4 ==> o != Starved
  {
    hide Ok, Absent, SameItems, Added, Conserved, Kept, NoCell, Returns, Victim, Stored, Pow2, Stuck, Circles;
    t', it', held := t, it, it;
    var rest := rnd;
    KeptStart(t, it);
    while true
      invariant Ok(t', h) && t'.lg >= t.lg && Kept(t, it, t', it') && Absent(t'.tab, it'.key)
      invariant held == it'
      invariant t'.lg == t.lg ==> t' == t && it' == it && rest == rnd
      invariant t'.lg != t.lg ==> NoCell(t, h, it.key) && t.lg + 2 < limit && Circles(t, h, it, rnd)
      decreases limit - t'.lg
    {
      var t2, it2;
      o, t2, it2, rest := TryInsert(t', h, it', rest);
      if o == Done {
        AddedLg(t', it', t2);
        KeptDone(t, it, t', it', t2);
        Capacity(t2, h);
        return Done, t2, it2, held;
      }
      SameLg(t', it', t2, it2);
      Reflexive(t2.tab);
      KeptStep(t, it, t', it', t2, it2, t2);
      OneBucket(t', h, it'.key);
      if o == Starved {
        return Starved, t2, it2, held;
      }
      var t3;
      o, t3, rest := Grow(t2, h, rest, limit);
      if o != Done {
        return o, t2, it2, held;
      }
      KeptStep(t, it, t', it', t2, it2, t3);
      KeptAbsent(t, it, t3, it2);
      t', it', held := t3, it2, it2;
    }
  }

  /** No table holds more items than it has cells. */
  lemma {:induction false} Capacity<K, V>(t: Table<K, V>, h: Hashes<K>)
    requires Ok(t, h)
    ensures t.count <= Pow2(t.lg) * CELLS
  {
    CountAtMost(t.tab);
  }

  /** In a table of one bucket the first eviction is a cycle. */
  lemma {:induction false} OneBucket<K, V>(t: Table<K, V>, h: Hashes<K>, key: K)
    requires Ok(t, h)
    ensures t.lg == 0 && NoCell(t, h, key) ==> forall i: nat :: i < CELLS ==> Returns(t, h, Bucket(h.h1(key), 0), i)
  {
    if t.lg == 0 && NoCell(t, h, key) {
      forall i: nat | i < CELLS ensures Returns(t, h, Bucket(h.h1(key), 0), i) {
        assert Used(t, i);
      }
    }
  }

  lemma {:induction false} KeptAbsent<K(!new), V(!new)>(t: Table<K, V>, it: Item<K, V>, t': Table<K, V>,
    it': Item<K, V>)
    requires Kept(t, it, t', it')
    ensures Absent(t'.tab, it'.key) && (Stored(t.tab, it') || it' == it)
  {
    assert Stored(t'.tab, it') || it' == it';
  }

  lemma {:induction false} SameAbsent<K(!new), V(!new)>(tab: seq<Option<Item<K, V>>>, tab': seq<Option<Item<K, V>>>,
    key: K)
    requires SameItems(tab, tab') && Absent(tab, key)
    ensures Absent(tab', key)
  {
    forall i | 0 <= i < |tab'| && tab'[i].Some? ensures tab'[i].value.key != key {
      assert Stored(tab', tab'[i].value);
    }
  }

  lemma {:induction false} AddedLg<K(!new), V(!new)>(t: Table<K, V>, it: Item<K, V>, t': Table<K, V>)
    requires Added(t, it, t')
    ensures t'.lg == t.lg
  {
  }

  lemma {:induction false} SameLg<K(!new), V(!new)>(t: Table<K, V>, it: Item<K, V>, t': Table<K, V>, it': Item<K, V>)
    requires Conserved(t, it, t', it')
    ensures t'.lg == t.lg && t'.count == t.count && Absent(t'.tab, it'.key)
  {
  }

  // ----- ckh_isearch -----

  method BucketSearch<K(==, !new), V(!new)>(t: Table<K, V>, h: Hashes<K>, b: nat, key: K) returns (r: Option<nat>)
    requires Ok(t, h) && b < Pow2(t.lg)
    ensures r.Some? ==> r.value < |t.tab| && t.tab[r.value].Some? && t.tab[r.value].value.key == key
    ensures r.None? ==> forall i :: b * CELLS <= i < (b + 1) * CELLS && i < |t.tab| && t.tab[i].Some? ==>
      t.tab[i].value.key != key
  {
    hide Pow2, CountItems, Unique, Placed;
    for c := 0 to CELLS
      invariant forall i :: b * CELLS <= i < b * CELLS + c && i < |t.tab| && t.tab[i].Some? ==>
        t.tab[i].value.key != key
    {
      CellOf(b, c, Pow2(t.lg));
      var cell := t.tab[b * CELLS + c];
      if cell.Some? && key == cell.value.key {
        return Some(b * CELLS + c);
      }
    }
    return None;
  }

  method Find<K(==, !new), V(!new)>(t: Table<K, V>, h: Hashes<K>, key: K) returns (r: Option<nat>)
    requires Ok(t, h)
    ensures r.Some? ==> r.value < |t.tab| && t.tab[r.value].Some? && t.tab[r.value].value.key == key
    ensures r.None? ==> Absent(t.tab, key)
  {
    hide Pow2, CountItems, Unique;
    r := BucketSearch(t, h, Bucket(h.h0(key), t.lg), key);
    if r.None? {
      r := BucketSearch(t, h, Bucket(h.h1(key), t.lg), key);
    }
    if r.None? {
      forall i | 0 <= i < |t.tab| && t.tab[i].Some? ensures t.tab[i].value.key != key {
        assert Mine(t, h, t.tab[i].value.key, i / CELLS);
      }
    }
  }

  // ----- What a failed insertion loses -----

  /** One bucket with the items 0, 1, 2 and 3. */
  function FourItems(): Table<nat, nat> {
    Table(0, [Some(Item(0, 0)), Some(Item(1, 0)), Some(Item(2, 0)), Some(Item(3, 0))], 4)
  }

  lemma {:induction false} FourOk(h: Hashes<nat>)
    ensures Ok(FourItems(), h) && Absent(FourItems().tab, 4)
  {
    var t := FourItems();
    CountAll(t.tab);
    assert Pow2(0) == 1;
    forall i | 0 <= i < 4 ensures Mine(t, h, t.tab[i].value.key, i / CELLS) { }
  }

  lemma {:induction false} FourFacts(x: Item<nat, nat>)
    ensures FourItems().lg == 0 && FourItems().count == Pow2(0) * CELLS == 4
    ensures Stored(FourItems().tab, x) ==> x.key < 4
  {
  }

  /** With no room to grow, whatever the hashes and the choices: item 4 is stored and an older item is lost. */
  method OlderLost(h: Hashes<nat>, rnd: seq<nat>) returns (o: Outcome, t: Table<nat, nat>, lost: Item<nat, nat>)
    requires |rnd| >= 4
    ensures o == NoMemory && Stored(t.tab, Item(4, 0)) && lost.key < 4 && Stored(FourItems().tab, lost)
    ensures Absent(t.tab, lost.key)
  {
    hide Ok, Stored, NoCell, FourItems, Kept, Circles, Stuck;
    FourOk(h);
    FourFacts(Item(4, 0));
    ghost var held;
    o, t, lost, held := Insert(FourItems(), h, Item(4, 0), rnd, 2);
    FourFacts(lost);
    KeptAbsent(FourItems(), Item(4, 0), t, lost);
  }

  ghost predicate OneHash(h: Hashes<nat>) {
    forall key :: h.h0(key) == 0 && h.h1(key) == 0
  }

  /** All items share one bucket, which then is full. */
  lemma {:induction false} AllInOne(t: Table<nat, nat>, h: Hashes<nat>)
    requires OneHash(h) && Ok(t, h) && t.lg == 1 && t.count == 4
    ensures BucketFull(t, 0) && forall c :: 0 <= c < |t.tab| && t.tab[c].Some? ==> c < CELLS
  {
    assert Pow2(1) == 2 * Pow2(0) == 2;
    forall c | 0 <= c < |t.tab| && t.tab[c].Some? ensures c < CELLS {
      assert Mine(t, h, t.tab[c].value.key, c / CELLS);
    }
    CountSplit(t.tab, CELLS);
    CountNone(t.tab[CELLS..]);
    forall c | 0 <= c < CELLS ensures t.tab[..CELLS][c].Some? { CountIsAll(t.tab[..CELLS], c); }
  }

  lemma {:induction false} CountNone<K, V>(tab: seq<Option<Item<K, V>>>)
    requires forall i :: 0 <= i < |tab| ==> tab[i].None?
    ensures CountItems(tab) == 0
  {
    if tab != [] { CountNone(tab[1..]); }
  }

  lemma {:induction false} CountIsAll<K, V>(tab: seq<Option<Item<K, V>>>, i: nat)
    requires i < |tab| && CountItems(tab) == |tab|
    ensures tab[i].Some?
  {
    CountAtMost(tab[1..]);
    if i > 0 { CountIsAll(tab[1..], i - 1); }
  }

  /** The turns of the insertion loop when the table grows once, with the hashes of all keys equal: the choices `pick`
      of the second turn can be such that the new item is the one that is lost. */
  method NewerLost(h: Hashes<nat>, rnd: seq<nat>)
    returns (o: Outcome, t: Table<nat, nat>, lost: Item<nat, nat>, pick: seq<nat>)
    requires OneHash(h) && |rnd| >= 4
    ensures o == NoMemory && t.lg == 1 && lost == Item(4, 0) && Absent(t.tab, 4)
    ensures SameItems(FourItems().tab, t.tab)
  {
    hide Ok, Stored, NoCell, FourItems, Conserved, Added, SameItems, Absent, Returns, Victim, Pow2, OneHash, Bucket,
      Circles, Stuck, Clogged;
    var four, it := FourItems(), Item(4, 0);
    FourOk(h);
    FourFacts(it);
    var t1, hand, rest;
    o, t1, hand, rest := TryInsert(four, h, it, rnd);
    TooMany(four, h, it, t1, o);
    OneBucket(four, h, 4);
    SameLg(four, it, t1, hand);
    var t2;
    o, t2, rest := Grow(t1, h, rest, 3);
    SameAbsent(t1.tab, t2.tab, hand.key);
    SameStored(t1.tab, t2.tab, it);
    var c := FindItem(t2, h, it);
    pick := [0, 0, c, 0];
    o, t, lost, rest := TryInsert(t2, h, hand, pick);
    SameLg(t2, hand, t, lost);
    BackToFour(four, it, t1, hand, t2, t, lost);
    o, t, rest := Grow(t, h, rest, 3);
  }

  lemma {:induction false} TooMany<K(!new), V(!new)>(t: Table<K, V>, h: Hashes<K>, it: Item<K, V>, t': Table<K, V>,
    o: Outcome)
    requires Ok(t', h) && t.count == Pow2(t.lg) * CELLS && (o == Done ==> Added(t, it, t'))
    ensures o != Done
  {
    Capacity(t', h);
  }

  lemma {:induction false} SameStored<K(!new), V(!new)>(tab: seq<Option<Item<K, V>>>, tab': seq<Option<Item<K, V>>>,
    x: Item<K, V>)
    requires SameItems(tab, tab')
    ensures Stored(tab, x) <==> Stored(tab', x)
  {
  }

  /** The cell of an item of the one bucket in use. */
  method FindItem(t: Table<nat, nat>, h: Hashes<nat>, it: Item<nat, nat>) returns (c: nat)
    requires OneHash(h) && Ok(t, h) && t.lg == 1 && t.count == 4 && Stored(t.tab, it)
    ensures c < CELLS && (forall key: nat :: NoCell(t, h, key) && Bucket(h.h1(key), t.lg) == 0) && Returns(t, h, 0, c)
    ensures Victim(t, 0, c) == it
  {
    AllInOne(t, h);
    var cell := Find(t, h, it.key);
    c := cell.value;
  }

  lemma {:induction false} BackToFour<K(!new), V(!new)>(t: Table<K, V>, it: Item<K, V>, t1: Table<K, V>,
    hand: Item<K, V>,
    t2: Table<K, V>, t3: Table<K, V>, lost: Item<K, V>)
    requires Absent(t.tab, it.key) && Conserved(t, it, t1, hand) && SameItems(t1.tab, t2.tab)
    requires Conserved(t2, hand, t3, lost) && lost == it
    ensures SameItems(t.tab, t3.tab) && Absent(t3.tab, it.key)
  {
    forall x ensures Stored(t3.tab, x) <==> Stored(t.tab, x) {
      assert Stored(t2.tab, x) <==> Stored(t1.tab, x);
    }
  }
}
