/** khash: open addressing with triangular probing, tombstones and an in-place rehash. */
module KHash {
  import opened Basics
  import opened Triangular
  import opened RoundUp

  /** The two bits khash keeps per bucket. */
  datatype Flag = Flag(empty: bool, del: bool) {
    predicate Live() { !empty && !del }
  }

  const EMPTY: Flag := Flag(true, false)
  const LIVE: Flag := Flag(false, false)

  /** (khint_t)(n * 0.77 + 0.5) */
  function UpperBound(n: nat): nat {
    (77 * n + 50) / 100
  }

  /** Bucket `b` is the s-th probe of hash `h`, and no earlier probe is an empty bucket. */
  predicate ReachedBy(flags: seq<Flag>, h: nat, b: nat, s: nat)
    requires |flags| > 0
  {
    && Probe(h, s, |flags|) == b
    && forall t: nat :: t < s ==> !flags[Probe(h, t, |flags|)].empty
  }

  ghost predicate Reachable(flags: seq<Flag>, h: nat, b: nat)
    requires |flags| > 0
  {
    exists s: nat :: ReachedBy(flags, h, b, s)
  }

  ghost function LiveSet(flags: seq<Flag>): set<nat> {
    set b: nat | b < |flags| && flags[b].Live()
  }

  ghost function UsedSet(flags: seq<Flag>): set<nat> {
    set b: nat | b < |flags| && !flags[b].empty
  }

  /** `where` lists exactly the live buckets, each under the key it stores. */
  ghost predicate Indexes<K>(flags: seq<Flag>, keys: seq<K>, where: map<K, nat>)
    requires |keys| == |flags|
  {
    && (forall b: nat :: b < |flags| && flags[b].Live() ==> keys[b] in where && where[keys[b]] == b)
    && (forall k :: k in where ==> where[k] < |flags| && flags[where[k]].Live() && keys[where[k]] == k)
  }

  /** The finite map a table stands for. */
  ghost function MapOf<K, V>(where: map<K, nat>, vals: seq<V>): (m: map<K, V>) {
    map k | k in where && where[k] < |vals| :: vals[where[k]]
  }

  /** Every indexed key lies on its own probe sequence. */
  ghost predicate Indexed<K>(hash: K -> nat, flags: seq<Flag>, keys: seq<K>, where: map<K, nat>)
    requires 0 < |flags| == |keys|
  {
    && Indexes(flags, keys, where)
    && forall k :: k in where ==> Reachable(flags, hash(k), where[k])
  }

  lemma {:induction false} ReachableMonotone(flags: seq<Flag>, flags': seq<Flag>, h: nat, b: nat)
    requires 0 < |flags| == |flags'|
    requires forall i: nat :: i < |flags| && !flags[i].empty ==> !flags'[i].empty
    requires Reachable(flags, h, b)
    ensures Reachable(flags', h, b)
  {
    var s: nat :| ReachedBy(flags, h, b, s);
    assert ReachedBy(flags', h, b, s);
  }

  /** A map whose keys and a set of buckets name each other has as many keys as there are buckets. */
  lemma {:induction false} BijectionSize<K>(keys: seq<K>, where: map<K, nat>, buckets: set<nat>)
    requires forall b :: b in buckets ==> b < |keys| && keys[b] in where && where[keys[b]] == b
    requires forall k :: k in where ==> where[k] in buckets && keys[where[k]] == k
    ensures |where| == |buckets|
    decreases buckets
  {
    if buckets == {} {
      assert where == map[];
    } else {
      var b :| b in buckets;
      var rest := where - {keys[b]};
      BijectionSize(keys, rest, buckets - {b});
      assert where == rest[keys[b] := b];
    }
  }

  lemma {:induction false} InjectionSize<K>(keys: seq<K>, where: map<K, nat>, n: nat)
    requires n <= |keys|
    requires forall b: nat :: b < n ==> keys[b] in where && where[keys[b]] == b
    ensures |where| >= n
  {
    if n > 0 {
      var rest := where - {keys[n - 1]};
      InjectionSize(keys, rest, n - 1);
      assert where == rest[keys[n - 1] := n - 1];
    }
  }

  lemma {:induction false} UsedBelow(flags: seq<Flag>)
    ensures |UsedSet(flags)| <= |flags|
    ensures |UsedSet(flags)| < |flags| ==> exists b: nat :: b < |flags| && flags[b].empty
  {
    SubsetSize(UsedSet(flags), Below(|flags|));
    if forall b: nat :: b < |flags| ==> !flags[b].empty {
      assert UsedSet(flags) == Below(|flags|);
    }
  }

  /** An absent-key search may stop at the first empty bucket. */
  lemma {:induction false} AbsentAtEmpty<K>(flags: seq<Flag>, keys: seq<K>, where: map<K, nat>, h: nat, key: K, s: nat)
    requires 0 < |flags| == |keys| && Indexes(flags, keys, where)
    requires key in where ==> Reachable(flags, h, where[key])
    requires flags[Probe(h, s, |flags|)].empty
    requires forall t: nat :: t < s ==>
      flags[Probe(h, t, |flags|)].del || keys[Probe(h, t, |flags|)] != key
    ensures key !in where
  {
  }

  /** Marking a live bucket deleted drops its key and hides no other. */
  lemma {:induction false} Tombstone<K>(hash: K -> nat, flags: seq<Flag>, keys: seq<K>, where: map<K, nat>, x: nat)
    requires 0 < |flags| == |keys| && Indexed(hash, flags, keys, where)
    requires x < |flags| && flags[x].Live()
    ensures var flags' := flags[x := flags[x].(del := true)];
      && Indexed(hash, flags', keys, where - {keys[x]})
      && UsedSet(flags') == UsedSet(flags)
  {
    var flags' := flags[x := flags[x].(del := true)];
    var where' := where - {keys[x]};
    forall k | k in where' ensures Reachable(flags', hash(k), where'[k]) {
      ReachableMonotone(flags, flags', hash(k), where[k]);
    }
  }

  /** Filling a reachable bucket that is not live adds the key and hides no other. */
  lemma {:induction false} Fill<K>(hash: K -> nat, flags: seq<Flag>, keys: seq<K>, where: map<K, nat>, x: nat, key: K)
    requires 0 < |flags| == |keys| && Indexed(hash, flags, keys, where)
    requires x < |flags| && !flags[x].Live() && key !in where
    requires Reachable(flags, hash(key), x)
    ensures Indexed(hash, flags[x := LIVE], keys[x := key], where[key := x])
    ensures UsedSet(flags[x := LIVE]) == UsedSet(flags) + {x}
  {
    var flags', where' := flags[x := LIVE], where[key := x];
    forall k | k in where' ensures Reachable(flags', hash(k), where'[k]) {
      ReachableMonotone(flags, flags', hash(k), where'[k]);
    }
  }

  /** A search that is back at its first bucket has seen every bucket. */
  lemma {:induction false} AbsentAfterRound<K>(flags: seq<Flag>, keys: seq<K>, where: map<K, nat>, h: nat, key: K,
    s: nat, lg: nat)
    requires |flags| == |keys| == Pow2(lg) && Indexes(flags, keys, where)
    requires s >= |flags|
    requires forall t: nat :: t < s ==>
      flags[Probe(h, t, |flags|)].del || keys[Probe(h, t, |flags|)] != key
    ensures key !in where
  {
    if key in where {
      ProbesCover(h, lg, where[key]);
    }
  }

  // ----- The in-place rehash: old and new table share the key and value buffers -----

  /** Bucket `b` still holds an element of the old table. */
  predicate OldAt(old_: seq<Flag>, b: nat) {
    b < |old_| && old_[b].Live()
  }

  /** Bucket `b` already holds an element of the new table. */
  predicate NewAt(new_: seq<Flag>, b: nat) {
    b < |new_| && !new_[b].empty
  }

  ghost predicate Fits<K>(old_: seq<Flag>, new_: seq<Flag>, keys: seq<K>) {
    && 0 < |new_| <= |keys| && |old_| <= |keys|
    && forall b: nat :: b < |new_| ==> new_[b] == EMPTY || new_[b] == LIVE
  }

  /** Every indexed key is either still in the old table or already on its probe sequence in the new one. */
  ghost predicate Moving<K>(hash: K -> nat, old_: seq<Flag>, new_: seq<Flag>, keys: seq<K>, where: map<K, nat>)
    requires Fits(old_, new_, keys)
  {
    && (forall b: nat :: OldAt(old_, b) ==> keys[b] in where && where[keys[b]] == b)
    && (forall b: nat :: NewAt(new_, b) ==> keys[b] in where && where[keys[b]] == b && !OldAt(old_, b))
    && (forall k :: k in where ==>
         && where[k] < |keys| && keys[where[k]] == k
         && (OldAt(old_, where[k]) || (NewAt(new_, where[k]) && Reachable(new_, hash(k), where[k]))))
  }

  lemma {:induction false} StartMove<K>(hash: K -> nat, old_: seq<Flag>, new_: seq<Flag>, keys: seq<K>,
    keys': seq<K>, where: map<K, nat>)
    requires |keys| == |old_| && Indexes(old_, keys, where)
    requires |keys| <= |keys'| && keys'[..|keys|] == keys
    requires 0 < |new_| <= |keys'| && forall b: nat :: b < |new_| ==> new_[b] == EMPTY
    ensures Moving(hash, old_, new_, keys', where)
  {
    assert forall b: nat :: b < |keys| ==> keys'[b] == keys'[..|keys|][b] == keys[b];
  }

  /** Taking an element out of the old table. */
  lemma {:induction false} PickUp<K>(hash: K -> nat, old_: seq<Flag>, new_: seq<Flag>, keys: seq<K>, where: map<K,
    nat>, j: nat)
    requires Fits(old_, new_, keys) && Moving(hash, old_, new_, keys, where)
    requires OldAt(old_, j)
    ensures keys[j] in where && where[keys[j]] == j
    ensures Moving(hash, old_[j := old_[j].(del := true)], new_, keys, where - {keys[j]})
    ensures LiveSet(old_[j := old_[j].(del := true)]) == LiveSet(old_) - {j}
    ensures |where - {keys[j]}| == |where| - 1
    ensures forall k :: k in where - {keys[j]} ==> where[k] != j
  {
    assert where == (where - {keys[j]})[keys[j] := j];
  }

  /** Writing the element in hand into a free bucket of the new table. */
  lemma {:induction false} PutDown<K>(hash: K -> nat, old_: seq<Flag>, new_: seq<Flag>, keys: seq<K>, where: map<K,
    nat>, i: nat, key: K)
    requires Fits(old_, new_, keys) && Moving(hash, old_, new_, keys, where)
    requires i < |new_| && new_[i].empty && !OldAt(old_, i)
    requires key !in where && Reachable(new_, hash(key), i)
    ensures forall k :: k in where ==> where[k] != i
    ensures Moving(hash, old_, new_[i := LIVE], keys[i := key], where[key := i])
  {
    var new', keys', where' := new_[i := LIVE], keys[i := key], where[key := i];
    forall k | k in where' && !OldAt(old_, where'[k])
      ensures NewAt(new', where'[k]) && Reachable(new', hash(k), where'[k])
    {
      ReachableMonotone(new_, new', hash(k), where'[k]);
    }
    forall k | k in where ensures where[k] != i {
      assert OldAt(old_, where[k]) || NewAt(new_, where[k]);
    }
  }

  lemma {:induction false} FinishMove<K>(hash: K -> nat, old_: seq<Flag>, new_: seq<Flag>, keys: seq<K>, where: map<K,
    nat>)
    requires Fits(old_, new_, keys) && Moving(hash, old_, new_, keys, where)
    requires forall b: nat :: b < |old_| ==> !old_[b].Live()
    ensures Indexed(hash, new_, keys[..|new_|], where)
    ensures |UsedSet(new_)| == |where|
  {
    forall b: nat | b < |new_| && new_[b].Live()
      ensures keys[..|new_|][b] in where && where[keys[..|new_|][b]] == b
    {
      assert NewAt(new_, b);
    }
    forall b | b in UsedSet(new_) ensures keys[b] in where && where[keys[b]] == b {
      assert NewAt(new_, b);
    }
    BijectionSize(keys, where, UsedSet(new_));
  }

  /** With fewer elements than new buckets there is always a free new bucket. */
  lemma {:induction false} RoomLeft<K>(hash: K -> nat, old_: seq<Flag>, new_: seq<Flag>, keys: seq<K>, where: map<K,
    nat>)
    requires Fits(old_, new_, keys) && Moving(hash, old_, new_, keys, where)
    requires |where| < |new_|
    ensures exists b: nat :: b < |new_| && new_[b].empty
  {
    if forall b: nat :: b < |new_| ==> !new_[b].empty {
      assert forall b: nat :: b < |new_| ==> NewAt(new_, b);
      InjectionSize(keys, where, |new_|);
    }
  }

  lemma {:induction false} AddToMap<K, V>(where: map<K, nat>, vals: seq<V>, k: K, i: nat, v: V)
    requires i < |vals| && k !in where && forall k' :: k' in where ==> where[k'] != i
    ensures MapOf(where[k := i], vals[i := v]) == MapOf(where, vals)[k := v]
  {
  }

  lemma {:induction false} RemoveFromMap<K, V>(where: map<K, nat>, vals: seq<V>, k: K)
    ensures MapOf(where - {k}, vals) == MapOf(where, vals) - {k}
  {
  }

  /** The rehash between two moves: `all` is the content of the old and new table together. */
  ghost predicate Settled<K, V>(hash: K -> nat, old_: seq<Flag>, new_: seq<Flag>, keys: seq<K>, vals: seq<V>,
                                where: map<K, nat>, all: map<K, V>) {
    && |vals| == |keys| && Fits(old_, new_, keys) && Moving(hash, old_, new_, keys, where)
    && |where| == |all| <= |new_|
    && MapOf(where, vals) == all
  }

  /** The rehash within a chain of moves: everything but the element in hand is in one of the tables. */
  ghost predicate Carrying<K, V>(hash: K -> nat, old_: seq<Flag>, new_: seq<Flag>, keys: seq<K>, vals: seq<V>,
                                 where: map<K, nat>, key: K, val: V, all: map<K, V>) {
    && |vals| == |keys| && Fits(old_, new_, keys) && Moving(hash, old_, new_, keys, where)
    && |where| + 1 == |all| <= |new_|
    && key !in where && key in all && all[key] == val
    && MapOf(where, vals) == all - {key}
  }

  lemma {:induction false} Lift<K, V>(hash: K -> nat, old_: seq<Flag>, new_: seq<Flag>, keys: seq<K>, vals: seq<V>,
                   where: map<K, nat>, all: map<K, V>, j: nat)
    requires Settled(hash, old_, new_, keys, vals, where, all) && OldAt(old_, j)
    ensures Carrying(hash, old_[j := old_[j].(del := true)], new_, keys, vals, where - {keys[j]}, keys[j], vals[j], all)
    ensures LiveSet(old_[j := old_[j].(del := true)]) == LiveSet(old_) - {j}
  {
    PickUp(hash, old_, new_, keys, where, j);
    RemoveFromMap(where, vals, keys[j]);
    hide Moving;
  }

  lemma {:induction false} Drop<K, V>(hash: K -> nat, old_: seq<Flag>, new_: seq<Flag>, keys: seq<K>, vals: seq<V>,
                   where: map<K, nat>, key: K, val: V, all: map<K, V>, i: nat)
    requires Carrying(hash, old_, new_, keys, vals, where, key, val, all)
    requires i < |new_| && new_[i].empty && Reachable(new_, hash(key), i) && !OldAt(old_, i)
    ensures Settled(hash, old_, new_[i := LIVE], keys[i := key], vals[i := val], where[key := i], all)
  {
    hide Moving, Reachable;
    PutDown(hash, old_, new_, keys, where, i, key);
    AddToMap(where, vals, key, i, val);
    assert (all - {key})[key := val] == all;
  }

  /** Kicking out the old element of bucket `i`: it becomes the element in hand. */
  lemma {:induction false} Kick<K, V>(hash: K -> nat, old_: seq<Flag>, new_: seq<Flag>, keys: seq<K>, vals: seq<V>,
                   where: map<K, nat>, key: K, val: V, all: map<K, V>, i: nat)
    requires Carrying(hash, old_, new_, keys, vals, where, key, val, all)
    requires i < |new_| && new_[i].empty && Reachable(new_, hash(key), i) && OldAt(old_, i)
    ensures Carrying(hash, old_[i := old_[i].(del := true)], new_[i := LIVE], keys[i := key], vals[i := val],
                     (where - {keys[i]})[key := i], keys[i], vals[i], all)
    ensures LiveSet(old_[i := old_[i].(del := true)]) == LiveSet(old_) - {i}
  {
    PickUp(hash, old_, new_, keys, where, i);
    RemoveFromMap(where, vals, keys[i]);
    var old', where' := old_[i := old_[i].(del := true)], where - {keys[i]};
    PutDown(hash, old', new_, keys, where', i, key);
    AddToMap(where', vals, key, i, val);
    hide Moving, Reachable;
    assert keys[i] in MapOf(where, vals);
    assert all - {key} - {keys[i]} == all - {keys[i]} - {key};
    assert (all - {keys[i]} - {key})[key := val] == all - {keys[i]};
  }

  lemma {:induction false} RoomToCarry<K,
    V>(hash: K -> nat, old_: seq<Flag>, new_: seq<Flag>, keys: seq<K>, vals: seq<V>,
                          where: map<K, nat>, key: K, val: V, all: map<K, V>)
    requires Carrying(hash, old_, new_, keys, vals, where, key, val, all)
    ensures exists b: nat :: b < |new_| && new_[b].empty
  {
    RoomLeft(hash, old_, new_, keys, where);
  }

  /** The first empty bucket on the probe sequence of hash `h`. */
  method FindEmpty(flags: seq<Flag>, h: nat, ghost lg: nat) returns (i: nat)
    requires |flags| == Pow2(lg)
    requires exists b: nat :: b < |flags| && flags[b].empty
    ensures i < |flags| && flags[i].empty && Reachable(flags, h, i)
  {
    hide Pow2, Probe, Home, Advance;
    ghost var b: nat :| b < |flags| && flags[b].empty;
    ProbesCover(h, lg, b);
    ghost var s: nat :| s < |flags| && Probe(h, s, |flags|) == b;
    var step := 0;
    i := Home(h, |flags|);
    ProbeStart(h, |flags|);
    while !flags[i].empty
      invariant i == Probe(h, step, |flags|) && step <= s
      invariant forall t: nat :: t < step ==> !flags[Probe(h, t, |flags|)].empty
      decreases s - step
    {
      step := step + 1;
      ProbeStep(h, step - 1, |flags|);
      i := Advance(i, step, |flags|);
    }
    assert ReachedBy(flags, h, i, step);
  }

  /** The kick-out process: move the element of old bucket `j`, and every element it displaces in
      turn, to its place in the new table. */
  method Relocate<K(==), V>(hash: K -> nat, oldFlags: seq<Flag>, newFlags: seq<Flag>, oldKeys: seq<K>, oldVals: seq<V>,
                            ghost oldWhere: map<K, nat>, ghost all: map<K, V>, j: nat, ghost newLg: nat)
    returns (flags: seq<Flag>, placed: seq<Flag>, keys: seq<K>, vals: seq<V>, ghost where: map<K, nat>)
    requires Settled(hash, oldFlags, newFlags, oldKeys, oldVals, oldWhere, all)
    requires OldAt(oldFlags, j) && |newFlags| == Pow2(newLg)
    ensures |keys| == |vals| == |oldKeys| && |placed| == |newFlags| && |flags| == |oldFlags|
    ensures Settled(hash, flags, placed, keys, vals, where, all)
    ensures LiveSet(flags) <= LiveSet(oldFlags) - {j}
  {
    assert |oldVals| == |oldKeys| && |newFlags| <= |oldKeys|;
    hide Settled, Carrying, Reachable;
    keys, vals, placed := oldKeys, oldVals, newFlags;
    var key, val := keys[j], vals[j];
    Lift(hash, oldFlags, placed, keys, vals, oldWhere, all, j);
    flags, where := oldFlags[j := oldFlags[j].(del := true)], oldWhere - {key};
    while true
      invariant |keys| == |vals| == |oldKeys| && |placed| == |newFlags| && |flags| == |oldFlags|
      invariant Carrying(hash, flags, placed, keys, vals, where, key, val, all)
      invariant LiveSet(flags) <= LiveSet(oldFlags) - {j}
      decreases LiveSet(flags)
    {
      RoomToCarry(hash, flags, placed, keys, vals, where, key, val, all);
      var i := FindEmpty(placed, hash(key), newLg);
      if i < |flags| && flags[i].Live() {
        Kick(hash, flags, placed, keys, vals, where, key, val, all, i);
        where := (where - {keys[i]})[key := i];
        placed := placed[i := LIVE];
        var tmpKey, tmpVal := keys[i], vals[i];
        keys, vals := keys[i := key], vals[i := val];
        key, val := tmpKey, tmpVal;
        flags := flags[i := flags[i].(del := true)];
      } else {
        Drop(hash, flags, placed, keys, vals, where, key, val, all, i);
        placed := placed[i := LIVE];
        keys, vals, where := keys[i := key], vals[i := val], where[key := i];
        break;
      }
    }
  }

  /** Empty the old table bucket by bucket. */
  method RelocateAll<K(==), V>(hash: K -> nat, flags0: seq<Flag>, newFlags0: seq<Flag>, keys0: seq<K>, vals0: seq<V>,
                               ghost where0: map<K, nat>, ghost all: map<K, V>, ghost newLg: nat)
    returns (flags: seq<Flag>, newFlags: seq<Flag>, keys: seq<K>, vals: seq<V>, ghost where: map<K, nat>)
    requires Settled(hash, flags0, newFlags0, keys0, vals0, where0, all)
    requires |newFlags0| == Pow2(newLg) && |keys0| == |vals0|
    ensures |keys| == |vals| == |keys0| && |newFlags| == |newFlags0|
    ensures Settled(hash, flags, newFlags, keys, vals, where, all)
    ensures LiveSet(flags) == {}
  {
    flags, newFlags, keys, vals, where := flags0, newFlags0, keys0, vals0, where0;
    hide Settled, Pow2;
    var j := 0;
    while j != |flags|
      invariant j <= |flags| && |keys| == |vals| == |keys0| && |newFlags| == |newFlags0|
      invariant Settled(hash, flags, newFlags, keys, vals, where, all)
      invariant forall b :: b in LiveSet(flags) ==> b >= j
      decreases |flags| - j
    {
      if flags[j].Live() {
        flags, newFlags, keys, vals, where := Relocate(hash, flags, newFlags, keys, vals, where, all, j, newLg);
      }
      j := j + 1;
    }
    assert LiveSet(flags) == {};
  }

  predicate DelAt(flags: seq<Flag>, h: nat, t: nat)
    requires |flags| > 0
  {
    flags[Probe(h, t, |flags|)].del
  }

  /** The probe for an absent key stops at step `e`: at the first empty bucket, or where the round closes. */
  ghost predicate StopsAt(flags: seq<Flag>, h: nat, e: nat)
    requires |flags| > 0
  {
    && (forall t: nat :: t < e ==> !flags[Probe(h, t, |flags|)].empty)
    && (flags[Probe(h, e, |flags|)].empty || e == 2 * |flags| - 1)
  }

  /** The bucket for an absent key: the last tombstone met before the probe stops, else where it stops. */
  ghost predicate SlotAt(flags: seq<Flag>, h: nat, e: nat, s: nat)
    requires |flags| > 0
  {
    && StopsAt(flags, h, e) && s <= e
    && (s < e ==> DelAt(flags, h, s)) && forall t: nat :: s < t < e || (s == e && t < e) ==> !DelAt(flags, h, t)
  }

  ghost predicate SlotFor(flags: seq<Flag>, h: nat, x: nat) {
    |flags| > 0 && exists e: nat, s: nat :: SlotAt(flags, h, e, s) && x == Probe(h, s, |flags|)
  }

  /** kh_put's search for the bucket of `key`: its own bucket if stored, else a bucket to fill. */
  method FindSlot<K(==)>(flags: seq<Flag>, keys: seq<K>, h: nat, key: K, ghost where: map<K, nat>, ghost lg: nat)
    returns (x: nat, ghost e: nat, ghost s: nat)
    requires |flags| == |keys| == Pow2(lg) && Indexes(flags, keys, where)
    requires key in where ==> Reachable(flags, h, where[key])
    ensures x < |flags|
    ensures key in where ==> x == where[key]
    ensures key !in where && !flags[x].Live() ==> Reachable(flags, h, x)
    ensures key !in where && flags[x].Live() ==> forall b: nat :: b < |flags| ==> flags[b].Live()
    ensures key !in where ==> SlotAt(flags, h, e, s) && x == Probe(h, s, |flags|)
  {
    hide Pow2, Probe, Home, Advance;
    e, s := 0, 0;
    var n := |flags|;
    var site, i, step := n, Home(h, n), 0;
    ProbeStart(h, n);
    x := n;
    if flags[i].empty {
      x := i;
      assert ReachedBy(flags, h, x, 0);
    } else {
      var last := i;
      ghost var siteStep := 0;
      while !flags[i].empty && (flags[i].del || keys[i] != key)
        invariant i == Probe(h, step, n) && last == Probe(h, 0, n)
        invariant step < 2 * n - 1 && x == n
        invariant forall t: nat :: t < step ==>
          && !flags[Probe(h, t, n)].empty
          && (flags[Probe(h, t, n)].del || keys[Probe(h, t, n)] != key)
        invariant site == n ==> forall t: nat :: t < step ==> !flags[Probe(h, t, n)].del
        invariant site != n ==> siteStep < step && site == Probe(h, siteStep, n) && flags[site].del
        invariant site != n ==> forall t: nat :: siteStep < t < step ==> !flags[Probe(h, t, n)].del
        decreases 2 * n - step
      {
        if flags[i].del { site, siteStep := i, step; }
        step := step + 1;
        ProbeStep(h, step - 1, n);
        ProbeReturns(h, lg, step);
        i := Advance(i, step, n);
        if i == last {
          AbsentAfterRound(flags, keys, where, h, key, step, lg);
          RoundSeesAll(flags, h, step, lg);
          x := site;
          break;
        }
      }
      e, s := step, if site == n then step else siteStep;
      if x == n {
        if flags[i].empty { AbsentAtEmpty(flags, keys, where, h, key, step); }
        assert ReachedBy(flags, h, i, step);
        if flags[i].empty && site != n { x := site; } else { x := i; }
      }
      assert site != n ==> ReachedBy(flags, h, site, siteStep);
      if key !in where { StopsHere(flags, keys, h, key, where, i, step); }
    }
  }

  lemma {:induction false} StopsHere<K>(flags: seq<Flag>, keys: seq<K>, h: nat, key: K, where: map<K, nat>, i: nat,
    step: nat)
    requires |flags| == |keys| > 0 && Indexes(flags, keys, where) && key !in where && i == Probe(h, step, |flags|)
    requires forall t: nat :: t < step ==> !flags[Probe(h, t, |flags|)].empty
    requires flags[i].empty || (!flags[i].del && keys[i] == key) || step == 2 * |flags| - 1
    ensures StopsAt(flags, h, step)
  {
    hide Probe;
  }

  /** A full round that met neither an empty bucket nor a tombstone saw only live buckets. */
  lemma {:induction false} RoundSeesAll(flags: seq<Flag>, h: nat, s: nat, lg: nat)
    requires |flags| == Pow2(lg) && s >= |flags|
    requires forall t: nat :: t < s ==> !flags[Probe(h, t, |flags|)].empty
    ensures (forall t: nat :: t < s ==> !flags[Probe(h, t, |flags|)].del) ==>
      forall b: nat :: b < |flags| ==> flags[b].Live()
  {
    if forall t: nat :: t < s ==> !flags[Probe(h, t, |flags|)].del {
      forall b: nat | b < |flags| ensures flags[b].Live() {
        ProbesCover(h, lg, b);
      }
    }
  }

  /** The header fields, the bucket flags and keys, and the ghost index, as one value. */
  datatype Table<K> = Table(nBuckets: nat, size: nat, nOccupied: nat, upperBound: nat,
                            flags: seq<Flag>, keys: seq<K>, lg: nat, where: map<K, nat>)

  ghost predicate Ok<K>(hash: K -> nat, t: Table<K>) {
    && |t.flags| == |t.keys| == t.nBuckets
    && t.size == |t.where|
    && t.nOccupied == |UsedSet(t.flags)|
    && (t.nOccupied <= t.upperBound || t.nBuckets == TOP)
    && if t.nBuckets == 0 then t.upperBound == 0 && t.where == map[]
       else
         && t.upperBound == UpperBound(t.nBuckets)
         && 2 <= t.lg <= 31 && t.nBuckets == Pow2(t.lg)
         && Indexed(hash, t.flags, t.keys, t.where)
  }

  lemma {:induction false} DelOk<K>(hash: K -> nat, t: Table<K>, x: nat) returns (t': Table<K>)
    requires Ok(hash, t) && x < t.nBuckets && t.flags[x].Live()
    ensures t.size > 0
    ensures t' == t.(size := t.size - 1, flags := t.flags[x := t.flags[x].(del := true)],
                     where := t.where - {t.keys[x]})
    ensures Ok(hash, t')
  {
    t' := t.(size := |t.where| - 1, flags := t.flags[x := t.flags[x].(del := true)],
             where := t.where - {t.keys[x]});
    Tombstone(hash, t.flags, t.keys, t.where, x);
    assert t.keys[x] in t.where;
    assert t.where == (t.where - {t.keys[x]})[t.keys[x] := x];
  }

  lemma {:induction false} PutOk<K>(hash: K -> nat, t: Table<K>, x: nat, key: K) returns (t': Table<K>)
    requires Ok(hash, t) && t.nBuckets > 0 && x < t.nBuckets && !t.flags[x].Live() && key !in t.where
    requires Reachable(t.flags, hash(key), x)
    requires t.nOccupied < t.upperBound || t.nBuckets == TOP
    ensures t' == t.(size := t.size + 1, nOccupied := if t.flags[x].empty then t.nOccupied + 1 else t.nOccupied,
                     flags := t.flags[x := LIVE], keys := t.keys[x := key], where := t.where[key := x])
    ensures Ok(hash, t')
    ensures forall k :: k in t.where ==> t.where[k] != x
  {
    t' := t.(size := t.size + 1, nOccupied := if t.flags[x].empty then t.nOccupied + 1 else t.nOccupied,
             flags := t.flags[x := LIVE], keys := t.keys[x := key], where := t.where[key := x]);
    Fill(hash, t.flags, t.keys, t.where, x, key);
    assert x in UsedSet(t.flags) <==> !t.flags[x].empty;
    assert x in UsedSet(t.flags) ==> UsedSet(t.flags) + {x} == UsedSet(t.flags);
  }

  /** The live buckets are among the used ones, and those among all. */
  lemma {:induction false} SizeBounds<K>(hash: K -> nat, t: Table<K>)
    requires Ok(hash, t)
    ensures t.size <= t.nOccupied <= t.nBuckets
    ensures t.nBuckets > 0 ==>
      t.size == |LiveSet(t.flags)| && 4 <= t.nBuckets <= TOP && t.upperBound == UpperBound(t.nBuckets)
  {
    if t.nBuckets > 0 {
      BijectionSize(t.keys, t.where, LiveSet(t.flags));
      SubsetSize(LiveSet(t.flags), UsedSet(t.flags));
      WordIsPow2();
      Pow2Mono(2, t.lg);
      Pow2Mono(t.lg, 31);
      assert Pow2(2) == 4;
    }
    UsedBelow(t.flags);
  }

  lemma {:induction false} AllLive(flags: seq<Flag>)
    ensures |LiveSet(flags)| == |flags| <==> forall b: nat :: b < |flags| ==> flags[b].Live()
  {
    if forall b: nat :: b < |flags| ==> flags[b].Live() {
      assert LiveSet(flags) == Below(|flags|);
    } else if |LiveSet(flags)| == |flags| {
      SubsetOfEqualSize(LiveSet(flags), Below(|flags|));
      assert forall b: nat :: b in Below(|flags|) ==> flags[b].Live();
    }
  }

  /** Where kh_put's two resize requests lead. */
  lemma {:induction false} RequestSame(lg: nat, n: nat)
    requires 2 <= lg <= 31 && ResizeTarget(Pow2(lg) - 1, n)
    ensures n == Pow2(lg)
  {
    var r: nat :| RoundedUp(Pow2(lg) - 1, r) && n == if r < 4 then 4 else r;
    assert Pow2(2) == 4;
    Pow2Mono(2, lg);
    RoundedUpTo(Pow2(lg) - 1, r, lg);
  }

  lemma {:induction false} RequestDouble(lg: nat, n: nat)
    requires 2 <= lg <= 31 && ResizeTarget(Pow2(lg) + 1, n)
    ensures n == if lg < 31 then 2 * Pow2(lg) else 4
  {
    var r: nat :| RoundedUp(Pow2(lg) + 1, r) && n == if r < 4 then 4 else r;
    assert Pow2(2) == 4;
    Pow2Mono(2, lg);
    if lg < 31 {
      RoundedUpTo(Pow2(lg) + 1, r, lg + 1);
    } else {
      WordIsPow2();
    }
  }

  lemma {:induction false} RequestFirst(n: nat)
    requires ResizeTarget(1, n)
    ensures n == 4
  {
    var r: nat :| RoundedUp(1, r) && n == if r < 4 then 4 else r;
    assert Pow2(0) == 1;
    RoundedUpTo(1, r, 0);
  }

  lemma {:induction false} RequestArithmetic(n: nat, size: nat, occupied: nat)
    requires 4 <= n <= TOP && size <= occupied <= n && (occupied <= UpperBound(n) || n == TOP)
    ensures n > (2 * size) % WORD ==> n == TOP || size < UpperBound(n)
    ensures n < TOP ==> size < UpperBound(2 * n)
    ensures n == TOP <= (2 * size) % WORD ==> size >= UpperBound(4)
  {
    if size < TOP { assert (2 * size) % WORD == 2 * size; }
  }

  /** kh_put's choice between rehashing and doubling: below 2^31 buckets the request is always accepted,
      at 2^31 the doubled request wraps to 4 and is always refused. */
  lemma {:induction false} RequestsAccepted<K>(hash: K -> nat, t: Table<K>)
    requires Ok(hash, t)
    ensures t.nBuckets > (2 * t.size) % WORD ==> t.nBuckets == TOP || t.size < UpperBound(t.nBuckets)
    ensures 0 < t.nBuckets < TOP ==> t.size < UpperBound(2 * t.nBuckets)
    ensures t.nBuckets == 0 ==> t.size == 0 < UpperBound(4)
    ensures t.nBuckets == TOP <= (2 * t.size) % WORD ==> t.size >= UpperBound(4)
    ensures t.nBuckets > 0 ==> t.nBuckets == Pow2(t.lg) && 2 <= t.lg <= 31 && (t.lg == 31 <==> t.nBuckets == TOP)
    ensures t.nBuckets <= TOP && t.upperBound == if t.nBuckets == 0 then 0 else UpperBound(t.nBuckets)
  {
    SizeBounds(hash, t);
    if t.nBuckets > 0 {
      WordIsPow2();
      if t.lg < 31 { Pow2Mono(t.lg + 1, 31); }
      RequestArithmetic(t.nBuckets, t.size, t.nOccupied);
    }
  }

  /** Below the ceiling `size << 1` loses no bit. */
  lemma {:induction false} NoShiftLoss<K>(hash: K -> nat, t: Table<K>)
    requires Ok(hash, t) && t.nBuckets < TOP
    ensures 2 * t.size < WORD
  {
    hide Ok;
    SizeBounds(hash, t);
  }

  lemma {:induction false} SlotFacts<K>(hash: K -> nat, t: Table<K>, key: K)
    requires Ok(hash, t) && t.nBuckets > 0
    ensures |t.flags| == |t.keys| == Pow2(t.lg) && Indexes(t.flags, t.keys, t.where)
    ensures key in t.where ==> Reachable(t.flags, hash(key), t.where[key])
    ensures |t.flags| == t.nBuckets
  {
  }

  /** What the slot found means: the key's own bucket, a bucket to fill, or, in a table that is entirely
      live, the bucket of some other key. */
  lemma {:induction false} SlotOutcome<K>(hash: K -> nat, t: Table<K>, key: K, x: nat)
    requires Ok(hash, t) && t.nBuckets > 0 && x < t.nBuckets
    requires t.nOccupied < t.upperBound || t.nBuckets == TOP
    requires key in t.where ==> x == t.where[key]
    requires key !in t.where && t.flags[x].Live() ==> forall b: nat :: b < t.nBuckets ==> t.flags[b].Live()
    ensures key in t.where ==> t.flags[x].Live() && t.keys[x] == key
    ensures key !in t.where ==> (t.flags[x].Live() <==> t.size >= TOP)
    ensures key !in t.where && t.flags[x].Live() ==> t.keys[x] != key
  {
    SizeBounds(hash, t);
    AllLive(t.flags);
  }

  function Identity(k: nat): nat { k }

  /** The table kh_put cannot extend: 2^31 live buckets, here the keys 0, 1, 2, ... each in its own bucket. */
  lemma {:induction false} FullTable() returns (t: Table<nat>)
    ensures Ok(Identity, t) && t.size == t.nBuckets == TOP
    ensures forall b: nat :: b < t.nBuckets ==> t.flags[b].Live()
  {
    WordIsPow2();
    t := FullTableOf(TOP, 31);
  }

  lemma {:induction false} FullTableOf(n: nat, lg: nat) returns (t: Table<nat>)
    requires n == TOP == Pow2(lg) && lg == 31
    ensures Ok(Identity, t) && t.size == t.nBuckets == n
    ensures forall b: nat :: b < n ==> t.flags[b].Live()
  {
    hide Pow2, Below, Probe, Reachable, UpperBound;
    var where := map k: nat | k in Below(n) :: k;
    t := Table(n, n, n, UpperBound(n), seq(n, _ => LIVE), seq(n, i => i), lg, where);
    assert UsedSet(t.flags) == Below(n);
    assert where.Keys == Below(n);
    forall k | k in where ensures Reachable(t.flags, Identity(k), where[k]) {
      AtHome(t.flags, k);
    }
  }

  lemma {:induction false} AtHome(flags: seq<Flag>, k: nat)
    requires k < |flags|
    ensures Reachable(flags, k, k)
  {
    assert ReachedBy(flags, k, k, 0);
  }

  lemma {:induction false} MapOfSize<K, V>(where: map<K, nat>, vals: seq<V>)
    requires forall k :: k in where ==> where[k] < |vals|
    ensures MapOf(where, vals).Keys == where.Keys && |MapOf(where, vals)| == |where|
  {
    var m := MapOf(where, vals);
    assert m.Keys == where.Keys;
    assert |m| == |m.Keys| && |where| == |where.Keys|;
  }

  /** Before the rehash: the whole content is in the old table. */
  lemma {:induction false} BeginRehash<K,
    V>(hash: K -> nat, t: Table<K>, vals: seq<V>, newFlags: seq<Flag>, keys': seq<K>, vals': seq<V>)
    requires Ok(hash, t) && |vals| == t.nBuckets
    requires |keys'| == |vals'| >= t.nBuckets && keys'[..t.nBuckets] == t.keys && vals'[..t.nBuckets] == vals
    requires 0 < |newFlags| <= |keys'| && forall b: nat :: b < |newFlags| ==> newFlags[b] == EMPTY
    requires t.size < |newFlags|
    ensures Settled(hash, t.flags, newFlags, keys', vals', t.where, MapOf(t.where, vals))
    ensures |MapOf(t.where, vals)| == t.size
  {
    StartMove(hash, t.flags, newFlags, t.keys, keys', t.where);
    MapOfSize(t.where, vals);
    hide Moving;
    assert forall b: nat :: b < t.nBuckets ==> vals'[b] == vals'[..t.nBuckets][b] == vals[b];
    assert MapOf(t.where, vals') == MapOf(t.where, vals);
  }

  /** After the rehash: no tombstones, every key on its probe sequence, the same content. */
  lemma {:induction false} EndRehash<K,
    V>(hash: K -> nat, flags: seq<Flag>, placed: seq<Flag>, keys: seq<K>, vals: seq<V>,
                        where: map<K, nat>, all: map<K, V>, lg: nat) returns (t: Table<K>)
    requires Settled(hash, flags, placed, keys, vals, where, all)
    requires LiveSet(flags) == {}
    requires 2 <= lg <= 31 && |placed| == Pow2(lg) && |all| < UpperBound(|placed|)
    ensures t == Table(|placed|, |all|, |all|, UpperBound(|placed|), placed, keys[..|placed|], lg, where)
    ensures Ok(hash, t) && MapOf(where, vals[..|placed|]) == all
    ensures forall b: nat :: b < |placed| ==> !placed[b].del
  {
    assert forall b: nat :: b < |flags| && flags[b].Live() ==> b in LiveSet(flags);
    FinishMove(hash, flags, placed, keys, where);
    t := Table(|placed|, |all|, |all|, UpperBound(|placed|), placed, keys[..|placed|], lg, where);
    var n := |placed|;
    assert forall b: nat :: b < n ==> vals[..n][b] == vals[b];
  }

  /** What kh_resize makes of a request: the least power of two, at least 4; requests above 2^31 (and 0)
      wrap to 0 and so ask for 4. */
  ghost predicate ResizeTarget(requested: nat, n: nat) {
    exists r: nat :: RoundedUp(requested, r) && n == if r < 4 then 4 else r
  }

  lemma {:induction false} TargetLg(requested: nat, r: nat) returns (lg: nat)
    requires RoundedUp(requested, r)
    ensures ResizeTarget(requested, if r < 4 then 4 else r)
    ensures 2 <= lg <= 31 && Pow2(lg) == if r < 4 then 4 else r
  {
    assert Pow2(0) == 1 && Pow2(1) == 2 && Pow2(2) == 4;
    if r < 4 {
      lg := 2;
    } else {
      lg :| lg <= 31 && r == Pow2(lg);
    }
  }

  /** realloc: the common prefix is kept, the rest is whatever was there. */
  method Realloc<T(0)>(s: seq<T>, n: nat) returns (r: seq<T>)
    ensures |r| == n
    ensures n <= |s| ==> r == s[..n]
    ensures n >= |s| ==> r[..|s|] == s
  {
    if n <= |s| {
      r := s[..n];
    } else {
      var extra := new T[n - |s|];
      r := s + extra[..];
    }
  }

  /** The rehash of kh_resize into `n` buckets, growing or shrinking. */
  method Rehash<K(==, 0), V(0)>(hash: K -> nat, n: nat, flags: seq<Flag>, keys: seq<K>, vals: seq<V>,
                                ghost t: Table<K>, ghost newLg: nat)
    returns (newFlags: seq<Flag>, newKeys: seq<K>, newVals: seq<V>, ghost t': Table<K>)
    requires Ok(hash, t) && t.flags == flags && t.keys == keys && |vals| == t.nBuckets
    requires 2 <= newLg <= 31 && n == Pow2(newLg) && t.size < UpperBound(n)
    ensures |newFlags| == |newVals| == n
    ensures t' == Table(n, t.size, t.size, UpperBound(n), newFlags, newKeys, newLg, t'.where)
    ensures Ok(hash, t') && MapOf(t'.where, newVals) == MapOf(t.where, vals)
    ensures forall b: nat :: b < n ==> !newFlags[b].del
  {
    newFlags := seq(n, _ => EMPTY);
    newKeys, newVals := keys, vals;
    if |flags| < n {
      newKeys := Realloc(keys, n);
      newVals := Realloc(vals, n);
    }
    BeginRehash(hash, t, vals, newFlags, newKeys, newVals);
    ghost var all := MapOf(t.where, vals);
    hide Ok, Settled, Pow2, MapOf;
    var oldFlags;
    ghost var where;
    oldFlags, newFlags, newKeys, newVals, where :=
      RelocateAll(hash, flags, newFlags, newKeys, newVals, t.where, all, newLg);
    t' := EndRehash(hash, oldFlags, newFlags, newKeys, newVals, where, all, newLg);
    if |flags| > n {
      newKeys := Realloc(newKeys, n);
      newVals := Realloc(newVals, n);
    } else {
      assert newKeys[..n] == newKeys && newVals[..n] == newVals;
    }
  }

  /** What an accepted resize leaves: no tombstone. */
  ghost predicate Cleaned<K>(t: Table<K>) {
    t.nOccupied == t.size && t.nBuckets == |t.flags| && forall b: nat :: b < t.nBuckets ==> !t.flags[b].del
  }

  /** The number of buckets that kh_put resizes a table to which is too full. */
  function NextBuckets(n: nat, size: nat): nat {
    if n > 2 * size then n else if n == 0 then 4 else 2 * n
  }

  class KHash<K(==, 0), V(0)> {
    const hash: K -> nat
    var nBuckets: nat
    var size: nat
    var nOccupied: nat
    var upperBound: nat
    var flags: seq<Flag>
    var keys: seq<K>
    var vals: seq<V>
    ghost var lg: nat
    ghost var where: map<K, nat>

    /** kh_init: a zeroed header with no buckets. */
    constructor (hash: K -> nat)
      ensures Valid() && Contents() == map[] && this.hash == hash
      ensures nBuckets == 0
    {
      this.hash := hash;
      nBuckets, size, nOccupied, upperBound := 0, 0, 0, 0;
      flags, keys, vals := [], [], [];
      lg, where := 0, map[];
    }

    ghost function State(): Table<K>
      reads this
    {
      Table(nBuckets, size, nOccupied, upperBound, flags, keys, lg, where)
    }

    ghost predicate Valid()
      reads this
    {
      Ok(hash, State()) && |vals| == nBuckets
    }

    /** The finite map the table stands for. */
    ghost function Contents(): (m: map<K, V>)
      requires Valid()
      reads this
      ensures m.Keys == where.Keys
    {
      MapOf(where, vals)
    }

    /** Below the 32-bit ceiling an empty bucket always exists. */
    lemma {:induction false} EmptyBucketExists()
      requires Valid() && 0 < nBuckets < TOP
      ensures nOccupied <= upperBound < nBuckets
      ensures exists b: nat :: b < nBuckets && flags[b].empty
    {
      assert Pow2(2) == 4;
      Pow2Mono(2, lg);
      UsedBelow(flags);
    }

    /** kh_get: the bucket holding `key`, or nBuckets when it is not stored. */
    method Get(key: K) returns (x: nat)
      requires Valid()
      ensures x <= nBuckets
      ensures x < nBuckets ==> flags[x].Live() && keys[x] == key && key in Contents() && vals[x] == Contents()[key]
      ensures x == nBuckets <==> key !in Contents()
    {
      hide Pow2, Probe, Home, Advance;
      if nBuckets == 0 { return 0; }
      var h := hash(key);
      var i, step := Home(h, nBuckets), 0;
      ProbeStart(h, nBuckets);
      var last := i;
      while !flags[i].empty && (flags[i].del || keys[i] != key)
        invariant i == Probe(h, step, nBuckets) && last == Probe(h, 0, nBuckets)
        invariant step < 2 * nBuckets - 1
        invariant forall t: nat :: t < step ==>
          flags[Probe(h, t, nBuckets)].del || keys[Probe(h, t, nBuckets)] != key
        decreases 2 * nBuckets - step
      {
        step := step + 1;
        ProbeStep(h, step - 1, nBuckets);
        ProbeReturns(h, lg, step);
        i := Advance(i, step, nBuckets);
        if i == last {
          AbsentAfterRound(flags, keys, where, h, key, step, lg);
          return nBuckets;
        }
      }
      if flags[i].empty {
        AbsentAtEmpty(flags, keys, where, h, key, step);
      }
      return if flags[i].empty || flags[i].del then nBuckets else i;
    }

    /** kh_resize: if the elements fit under the target's upper bound, rehash in place. */
    method Resize(requested: nat) returns (n: nat)
      requires Valid() && requested < WORD
      modifies this
      ensures Valid() && Contents() == old(Contents()) && size == old(size)
      ensures ResizeTarget(requested, n)
      ensures size >= UpperBound(n) ==> State() == old(State())
      ensures size < UpperBound(n) ==>
        nBuckets == n && Cleaned(State())
    {
      hide Ok, RoundedUp, ResizeTarget, Pow2, MapOf, UpperBound;
      n := RoundUp32(requested);
      ghost var newLg := TargetLg(requested, n);
      if n < 4 { n := 4; }
      if size >= UpperBound(n) { return; }
      ghost var t;
      flags, keys, vals, t := Rehash(hash, n, flags, keys, vals, State(), newLg);
      nBuckets := n;
      nOccupied := size;
      upperBound := UpperBound(n);
      where, lg := t.where, newLg;
      assert State() == t;
    }

    /** The resize step of kh_put. Below the 32-bit ceiling it always leaves a bucket to spare. */
    method MakeRoom()
      requires Valid()
      modifies this
      ensures Valid() && Contents() == old(Contents())
      ensures nBuckets > 0 && (nOccupied < upperBound || nBuckets == TOP)
      ensures size == old(size) && nBuckets >= old(nBuckets)
      ensures State() == old(State()) || Cleaned(State())
      ensures old(nOccupied) < old(upperBound) ==> State() == old(State())
      ensures old(nOccupied) >= old(upperBound) && old(nBuckets) < TOP ==>
        Cleaned(State()) && nBuckets == NextBuckets(old(nBuckets), size)
    {
      hide Ok, ResizeTarget, Pow2, MapOf, UpperBound;
      RequestsAccepted(hash, State());
      if nBuckets < TOP { NoShiftLoss(hash, State()); }
      if nOccupied >= upperBound {
        if nBuckets > (2 * size) % WORD {
          var n := Resize(nBuckets - 1);
          RequestSame(old(lg), n);
        } else {
          var n := Resize(nBuckets + 1);
          if old(nBuckets) > 0 { RequestDouble(old(lg), n); } else { RequestFirst(n); }
        }
        RequestsAccepted(hash, State());
      }
    }

    /** kh_put: find or create the bucket of `key`; ret is 0 when it was present, 1 when a fresh bucket and
        2 when a tombstone was taken, all told by the table as the resize step leaves it (`mid`). Only a table of 2^31
        live buckets cannot take a new key: there the call claims success for the bucket of some other key. */
    method Put(key: K) returns (x: nat, ret: int, ghost mid: Table<K>)
      requires Valid()
      modifies this
      ensures Valid() && x < nBuckets && flags[x].Live()
      ensures key in old(Contents()) ==> ret == 0 && keys[x] == key && Contents() == old(Contents())
      ensures key !in old(Contents()) && old(size) < TOP ==>
        ret in {1, 2} && keys[x] == key && Contents() == old(Contents())[key := vals[x]]
      ensures key !in old(Contents()) && old(size) >= TOP ==>
        ret == 0 && keys[x] != key && Contents() == old(Contents())
      ensures mid == old(State()) || Cleaned(mid)
      ensures old(nOccupied) < old(upperBound) ==> mid == old(State())
      ensures old(nOccupied) >= old(upperBound) && old(nBuckets) < TOP ==>
        Cleaned(mid) && mid.nBuckets == NextBuckets(old(nBuckets), old(size))
      ensures nBuckets == mid.nBuckets == |mid.flags| && x < nBuckets
      ensures key !in old(Contents()) ==> SlotFor(mid.flags, hash(key), x)
      ensures ret == (if mid.flags[x].empty then 1 else if mid.flags[x].del then 2 else 0)
      ensures size == old(size) + (if ret == 0 then 0 else 1)
      ensures nOccupied == mid.nOccupied + (if ret == 1 then 1 else 0)
    {
      hide Ok, Indexes, Reachable, Pow2, UpperBound, LiveSet, MapOf;
      MakeRoom();
      mid := State();
      SlotFacts(hash, State(), key);
      ghost var e, s;
      x, e, s := FindSlot(flags, keys, hash(key), key, where, lg);
      SlotOutcome(hash, State(), key, x);
      if flags[x].Live() {
        ret := 0;
      } else {
        ghost var t := PutOk(hash, State(), x, key);
        AddToMap(where, vals, key, x, vals[x]);
        keys := keys[x := key];
        size := size + 1;
        if flags[x].empty {
          nOccupied := nOccupied + 1;
          ret := 1;
        } else {
          ret := 2;
        }
        flags := flags[x := LIVE];
        where := where[key := x];
        assert vals[x := vals[x]] == vals;
        assert State() == t;
      }
    }

    /** kh_value(h, x) = v */
    method SetValue(x: nat, v: V)
      requires Valid() && x < nBuckets && flags[x].Live()
      modifies this
      ensures Valid() && State() == old(State())
      ensures Contents() == old(Contents())[keys[x] := v]
    {
      vals := vals[x := v];
    }

    /** kh_clear: drop everything, keep the buckets. */
    method Clear()
      requires Valid()
      modifies this
      ensures Valid() && Contents() == map[] && nBuckets == old(nBuckets)
    {
      flags := seq(nBuckets, _ => EMPTY);
      size, nOccupied, where := 0, 0, map[];
      assert UsedSet(flags) == {};
    }

    /** kh_del: turn a live bucket into a tombstone. */
    method Del(x: nat)
      requires Valid() && x <= nBuckets
      modifies this
      ensures Valid() && nBuckets == old(nBuckets)
      ensures x < nBuckets && old(flags[x]).Live() ==> Contents() == old(Contents()) - {old(keys[x])}
      ensures !(x < nBuckets && old(flags[x]).Live()) ==> Contents() == old(Contents())
    {
      hide Indexed;
      if x != nBuckets && flags[x].Live() {
        ghost var t := DelOk(hash, State(), x);
        RemoveFromMap(where, vals, keys[x]);
        flags := flags[x := flags[x].(del := true)];
        size := size - 1;
        where := where - {keys[x]};
        assert State() == t;
      }
    }
  }
}
