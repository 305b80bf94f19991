/** The eviction loop of the cuckoo hash is never trapped: whatever was chosen so far, some choices end it. */
module CkhEscape {
  import opened Basics
  import opened Triangular
  import opened CkhTable
  import opened Ckh

  /** A state of the loop: bucket `b` is full and `it`, in hand, belongs there. */
  ghost predicate Looping<K, V>(t: Table<K, V>, h: Hashes<K>, it: Item<K, V>, b: nat) {
    Ok(t, h) && Absent(t.tab, it.key) && b < Pow2(t.lg) && BucketFull(t, b) && Mine(t, h, it.key, b)
  }

  // ----- Ways back -----

  /** The item in cell `i` of bucket `from` leads to bucket `to`. */
  predicate LinkVia<K, V>(t: Table<K, V>, h: Hashes<K>, from: nat, i: nat, to: nat) {
    i < CELLS && Used(t, from * CELLS + i) && Other(t, h, Victim(t, from, i).key, from) == to
  }

  ghost predicate Link<K, V>(t: Table<K, V>, h: Hashes<K>, from: nat, to: nat) {
    exists i :: LinkVia(t, h, from, i, to)
  }

  /** Different buckets, each with an item that leads to the next, down to `b`. */
  ghost predicate Way<K, V>(t: Table<K, V>, h: Hashes<K>, b: nat, way: seq<nat>) {
    && way != [] && way[|way| - 1] == b && (forall k :: 0 <= k < |way| ==> way[k] < Pow2(t.lg))
    && (forall j, k :: 0 <= j < k < |way| ==> way[j] != way[k])
    && forall k :: 0 <= k < |way| - 1 ==> Link(t, h, way[k], way[k + 1])
  }

  lemma {:induction false} WayLength<K, V>(t: Table<K, V>, h: Hashes<K>, b: nat, way: seq<nat>)
    requires Way(t, h, b, way)
    ensures |way| <= Pow2(t.lg)
  {
    hide Link;
    CountDifferent(way);
    assert Elements(way) <= Below(Pow2(t.lg));
    SubsetSize(Elements(way), Below(Pow2(t.lg)));
    BelowSize(Pow2(t.lg));
  }

  function Elements(s: seq<nat>): (r: set<nat>)
    ensures forall x :: x in r <==> x in s
  {
    if s == [] then {} else Elements(s[1..]) + {s[0]}
  }

  lemma {:induction false} CountDifferent(s: seq<nat>)
    requires forall j, k :: 0 <= j < k < |s| ==> s[j] != s[k]
    ensures |Elements(s)| == |s|
  {
    if s != [] {
      CountDifferent(s[1..]);
      assert s[0] !in s[1..];
    }
  }

  lemma {:induction false} BelowSize(n: nat)
    ensures |Below(n)| == n
  {
    if n > 0 { BelowSize(n - 1); }
  }

  lemma {:induction false} Suffix<K, V>(t: Table<K, V>, h: Hashes<K>, b: nat, way: seq<nat>, k: nat)
    requires Way(t, h, b, way) && k < |way|
    ensures Way(t, h, b, way[k..]) && way[k..][0] == way[k]
  {
    hide Link;
    var rest := way[k..];
    forall j | 0 <= j < |rest| - 1 ensures Link(t, h, rest[j], rest[j + 1]) {
      assert Link(t, h, way[k + j], way[k + j + 1]);
    }
  }

  /** An eviction from bucket `at` leaves the links of other buckets, and of its other cells. */
  lemma {:induction false} LinkStays<K, V>(t: Table<K, V>, h: Hashes<K>, at: nat, i: nat, it: Item<K, V>, from: nat,
    j: nat, to: nat)
    requires Used(t, at * CELLS + i) && i < CELLS && LinkVia(t, h, from, j, to) && (from != at || j != i)
    ensures LinkVia(Swapped(t, at, i, it), h, from, j, to)
  {
    hide Bucket;
    assert from * CELLS + j != at * CELLS + i;
  }

  lemma {:induction false} WayStays<K, V>(t: Table<K, V>, h: Hashes<K>, b: nat, way: seq<nat>, at: nat, i: nat,
    it: Item<K, V>)
    requires Way(t, h, b, way) && Used(t, at * CELLS + i) && i < CELLS && at !in way
    ensures Way(Swapped(t, at, i, it), h, b, way)
  {
    hide LinkVia, Pow2;
    var t1 := Swapped(t, at, i, it);
    forall k | 0 <= k < |way| - 1 ensures Link(t1, h, way[k], way[k + 1]) {
      assert Link(t, h, way[k], way[k + 1]);
      var j :| LinkVia(t, h, way[k], j, way[k + 1]);
      assert way[k] in way;
      LinkStays(t, h, at, i, it, way[k], j, way[k + 1]);
    }
  }

  /** The way from `at` itself stays when another cell of `at` is used. */
  lemma {:induction false} FirstStays<K, V>(t: Table<K, V>, h: Hashes<K>, b: nat, way: seq<nat>, c: nat, i: nat,
    it: Item<K, V>)
    requires Way(t, h, b, way) && |way| > 1 && LinkVia(t, h, way[0], c, way[1])
    requires Used(t, way[0] * CELLS + i) && i < CELLS && i != c
    ensures Way(Swapped(t, way[0], i, it), h, b, way)
  {
    hide LinkVia, Pow2, Link;
    Suffix(t, h, b, way, 1);
    WayStays(t, h, b, way[1..], way[0], i, it);
    LinkStays(t, h, way[0], i, it, way[0], c, way[1]);
    LinkHere(Swapped(t, way[0], i, it), h, way[0], c, way[1]);
    InFront(Swapped(t, way[0], i, it), h, b, way[0], way[1..]);
    assert [way[0]] + way[1..] == way;
  }

  lemma {:induction false} LinkHere<K, V>(t: Table<K, V>, h: Hashes<K>, from: nat, i: nat, to: nat)
    requires LinkVia(t, h, from, i, to)
    ensures Link(t, h, from, to)
  {
  }

  lemma {:induction false} InFront<K, V>(t: Table<K, V>, h: Hashes<K>, b: nat, at: nat, way: seq<nat>)
    requires Way(t, h, b, way) && at < Pow2(t.lg) && at !in way && Link(t, h, at, way[0])
    ensures Way(t, h, b, [at] + way)
  {
    hide Link;
    var way' := [at] + way;
    forall j, k | 0 <= j < k < |way'| ensures way'[j] != way'[k] {
      assert way'[k] == way[k - 1] && way[k - 1] in way;
    }
    forall k | 0 <= k < |way'| - 1 ensures Link(t, h, way'[k], way'[k + 1]) {
      if k > 0 { assert Link(t, h, way[k - 1], way[k]); }
    }
  }

  // ----- One eviction -----

  /** The other bucket of an item's other bucket is the first. */
  lemma {:induction false} OtherBack<K, V>(t: Table<K, V>, h: Hashes<K>, key: K, b: nat)
    requires Mine(t, h, key, b) && Other(t, h, key, b) != b
    ensures Other(t, h, key, Other(t, h, key, b)) == b
  {
    hide Bucket;
  }

  /** What evicting choice `i` from the full bucket `b` leaves. */
  lemma {:induction false} Evicted<K(!new), V(!new)>(t: Table<K, V>, h: Hashes<K>, it: Item<K, V>, b: nat, i: nat)
    requires Looping(t, h, it, b) && i < CELLS
    ensures Used(t, b * CELLS + i)
    ensures var t1, v := Swapped(t, b, i, it), Victim(t, b, i);
      var next := Other(t, h, v.key, b);
      && t1.lg == t.lg && next < Pow2(t.lg) && Mine(t, h, v.key, b)
      && (BucketFull(t1, next) ==> Looping(t1, h, v, next))
      && (next == b || Other(t1, h, v.key, next) == b)
      && LinkVia(t1, h, b, i, Other(t, h, it.key, b))
  {
    hide CountItems, Pow2, Placed, Unique, Bucket;
    CellOf(b, i, Pow2(t.lg));
    var c := b * CELLS + i;
    assert Used(t, c);
    SwapOk(t, h, c, it);
    var v := Victim(t, b, i);
    NextBound(t, h, v.key, b);
    if Other(t, h, v.key, b) != b { OtherBack(t, h, v.key, b); }
    assert Used(Swapped(t, b, i, it), c);
  }

  lemma {:induction false} NextBound<K, V>(t: Table<K, V>, h: Hashes<K>, key: K, b: nat)
    ensures Other(t, h, key, b) < Pow2(t.lg) && Mine(t, h, key, Other(t, h, key, b))
  {
  }

  /** The first turn, and what is left to show for the others. */
  lemma {:induction false} EndsStep<K, V>(t: Table<K, V>, h: Hashes<K>, b: nat, it: Item<K, V>, bucket: nat, i: nat,
    rnd: seq<nat>)
    requires |rnd| >= 2 && rnd[0] % CELLS == i && Used(t, bucket * CELLS + i)
    ensures var t1, v := Swapped(t, bucket, i, it), Victim(t, bucket, i);
      var next := Other(t, h, v.key, bucket);
      Ends(t, h, b, it, bucket, rnd) <==> next == b || !BucketFull(t1, next) || Ends(t1, h, b, v, next, rnd[2..])
  {
  }

  // ----- The choices -----

  /** Following a way from the bucket itself. */
  lemma {:induction false} Follow<K(!new), V(!new)>(t: Table<K, V>, h: Hashes<K>, b: nat, it: Item<K, V>, at: nat,
    way: seq<nat>)
    returns (rnd: seq<nat>)
    requires Looping(t, h, it, at) && at != b && Way(t, h, b, way) && way[0] == at
    ensures Ends(t, h, b, it, at, rnd)
    decreases |way|
  {
    hide Looping, LinkVia, Ends, BucketFull, Other, Swapped, Victim;
    assert Link(t, h, way[0], way[1]);
    var c :| LinkVia(t, h, at, c, way[1]);
    ViaFacts(t, h, at, c, way[1]);
    Evicted(t, h, it, at, c);
    var t1, v, next := Swapped(t, at, c, it), Victim(t, at, c), way[1];
    rnd := [c, 0];
    if next != b && BucketFull(t1, next) {
      Suffix(t, h, b, way, 1);
      WayStays(t, h, b, way[1..], at, c, it);
      var more := Follow(t1, h, b, v, next, way[1..]);
      rnd := [c, 0] + more;
      assert rnd[2..] == more;
    }
    EndsStep(t, h, b, it, at, c, rnd);
  }

  lemma {:induction false} ViaFacts<K, V>(t: Table<K, V>, h: Hashes<K>, from: nat, i: nat, to: nat)
    requires LinkVia(t, h, from, i, to)
    ensures 0 <= i < CELLS && Used(t, from * CELLS + i) && Other(t, h, Victim(t, from, i).key, from) == to
  {
  }

  /** Going anywhere until a bucket comes up that has a way. */
  lemma {:induction false} Wander<K(!new), V(!new)>(t: Table<K, V>, h: Hashes<K>, b: nat, it: Item<K, V>, at: nat,
    way: seq<nat>)
    returns (rnd: seq<nat>)
    requires Looping(t, h, it, at) && at != b && way != [] && Way(t, h, b, way) && way[0] == Other(t, h, it.key, at)
    ensures Ends(t, h, b, it, at, rnd)
    decreases Pow2(t.lg) - |way|
  {
    hide Looping, LinkVia, Ends, BucketFull, Other, Swapped, Victim, Way;
    if k :| 0 <= k < |way| && way[k] == at {
      Suffix(t, h, b, way, k);
      rnd := Follow(t, h, b, it, at, way[k..]);
      return;
    }
    Evicted(t, h, it, at, 0);
    var t1, v := Swapped(t, at, 0, it), Victim(t, at, 0);
    var next := Other(t, h, v.key, at);
    rnd := [0, 0];
    if next != b && BucketFull(t1, next) {
      var longer := Longer(t, h, b, it, at, 0, way);
      WayLength(t1, h, b, longer);
      var more;
      if next == at {
        more := Follow(t1, h, b, v, at, longer);
      } else {
        more := Wander(t1, h, b, v, next, longer);
      }
      rnd := [0, 0] + more;
      assert rnd[2..] == more;
    }
    EndsStep(t, h, b, it, at, 0, rnd);
  }

  /** The item put in its place leads on to the way. */
  lemma {:induction false} Longer<K(!new), V(!new)>(t: Table<K, V>, h: Hashes<K>, b: nat, it: Item<K, V>, at: nat,
    i: nat,
    way: seq<nat>) returns (longer: seq<nat>)
    requires Looping(t, h, it, at) && i < CELLS && way != [] && Way(t, h, b, way)
    requires way[0] == Other(t, h, it.key, at) && at !in way
    ensures Used(t, at * CELLS + i) && longer == [at] + way && Way(Swapped(t, at, i, it), h, b, longer)
  {
    hide LinkVia, BucketFull, Other, Victim, Way, Ok, Absent, Mine;
    Evicted(t, h, it, at, i);
    WayStays(t, h, b, way, at, i, it);
    LinkHere(Swapped(t, at, i, it), h, at, i, way[0]);
    InFront(Swapped(t, at, i, it), h, b, at, way);
    longer := [at] + way;
  }

  /** There is a way from the bucket, or from the other bucket of the item in hand. */
  ghost predicate WayFor<K, V>(t: Table<K, V>, h: Hashes<K>, b: nat, it: Item<K, V>, at: nat, way: seq<nat>) {
    way != [] && Way(t, h, b, way) && (way[0] == at || way[0] == Other(t, h, it.key, at))
  }

  /** Every turn that does not end the loop keeps one. */
  lemma {:induction false} WayKept<K(!new), V(!new)>(t: Table<K, V>, h: Hashes<K>, b: nat, it: Item<K, V>, at: nat,
    i: nat,
    way: seq<nat>) returns (way': seq<nat>)
    requires Looping(t, h, it, at) && at != b && WayFor(t, h, b, it, at, way) && i < CELLS
    ensures Used(t, at * CELLS + i)
    ensures var v := Victim(t, at, i);
      WayFor(Swapped(t, at, i, it), h, b, v, Other(t, h, v.key, at), way')
  {
    hide Looping, LinkVia, BucketFull, Other, Swapped, Victim, Way;
    Evicted(t, h, it, at, i);
    if k :| 0 <= k < |way| && way[k] == at {
      Suffix(t, h, b, way, k);
      way' := KeptFrom(t, h, b, it, at, i, way[k..]);
    } else {
      way' := Longer(t, h, b, it, at, i, way);
    }
  }

  lemma {:induction false} KeptFrom<K(!new), V(!new)>(t: Table<K, V>, h: Hashes<K>, b: nat, it: Item<K, V>, at: nat,
    i: nat,
    way: seq<nat>) returns (way': seq<nat>)
    requires Looping(t, h, it, at) && at != b && Way(t, h, b, way) && way[0] == at && i < CELLS
    ensures Used(t, at * CELLS + i)
    ensures var v := Victim(t, at, i);
      WayFor(Swapped(t, at, i, it), h, b, v, Other(t, h, v.key, at), way')
  {
    hide Looping, LinkVia, BucketFull, Other, Swapped, Victim;
    Evicted(t, h, it, at, i);
    assert Link(t, h, way[0], way[1]);
    var c :| LinkVia(t, h, at, c, way[1]);
    ViaFacts(t, h, at, c, way[1]);
    if i == c {
      Suffix(t, h, b, way, 1);
      WayStays(t, h, b, way[1..], at, i, it);
      way' := way[1..];
    } else {
      FirstStays(t, h, b, way, c, i, it);
      way' := way;
    }
  }

  /** After any choices that have not ended the loop, from a state with a way. */
  lemma {:induction false} EndsAfter<K(!new), V(!new)>(t: Table<K, V>, h: Hashes<K>, b: nat, it: Item<K, V>, at: nat,
    way: seq<nat>,
    rnd: seq<nat>) returns (more: seq<nat>)
    requires Looping(t, h, it, at) && at != b && WayFor(t, h, b, it, at, way) && |rnd| % 2 == 0
    ensures Ends(t, h, b, it, at, rnd + more)
    decreases |rnd|
  {
    hide Looping, Ends, BucketFull, Other, Swapped, Victim, Way;
    if rnd == [] {
      if way[0] == at { more := Follow(t, h, b, it, at, way); } else { more := Wander(t, h, b, it, at, way); }
      assert rnd + more == more;
    } else {
      var i := rnd[0] % CELLS;
      Evicted(t, h, it, at, i);
      var t1, v := Swapped(t, at, i, it), Victim(t, at, i);
      var next := Other(t, h, v.key, at);
      more := [];
      if next != b && BucketFull(t1, next) {
        var way' := WayKept(t, h, b, it, at, i, way);
        more := EndsAfter(t1, h, b, v, next, way', rnd[2..]);
        assert (rnd + more)[2..] == rnd[2..] + more;
      }
      EndsStep(t, h, b, it, at, i, rnd + more);
    }
  }

  /** Whatever the choices so far, some more end the loop, by a cycle or with the item in its place. */
  lemma {:induction false} NeverTrapped<K(!new), V(!new)>(t: Table<K, V>, h: Hashes<K>, b: nat, it: Item<K, V>,
    rnd: seq<nat>)
    returns (more: seq<nat>)
    requires Looping(t, h, it, b) && b < Pow2(t.lg) && |rnd| % 2 == 0
    ensures Ends(t, h, b, it, b, rnd + more)
  {
    hide Looping, Ends, BucketFull, Other, Swapped, Victim, Way;
    var extra: seq<nat> := if rnd == [] then [0, 0] else [];
    var first := rnd + extra;
    var i := first[0] % CELLS;
    Evicted(t, h, it, b, i);
    var t1, v := Swapped(t, b, i, it), Victim(t, b, i);
    var next := Other(t, h, v.key, b);
    more := extra;
    if next != b && BucketFull(t1, next) {
      HereWay(t1, h, it, b);
      var tail := EndsAfter(t1, h, b, v, next, [b], first[2..]);
      more := extra + tail;
      assert rnd + more == first + tail && (first + tail)[2..] == first[2..] + tail;
    }
    EndsStep(t, h, b, it, b, i, rnd + more);
  }

  lemma {:induction false} HereWay<K, V>(t: Table<K, V>, h: Hashes<K>, it: Item<K, V>, b: nat)
    requires b < Pow2(t.lg)
    ensures Way(t, h, b, [b])
  {
  }
}
