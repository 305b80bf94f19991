/** The cuckoo hash as a finite map. */
module CkhMap {
  import opened Basics
  import opened Triangular
  import opened CkhTable
  import opened Ckh

  ghost predicate Maps<K, V>(m: map<K, V>, it: Item<K, V>) {
    it.key in m && m[it.key] == it.data
  }

  ghost predicate Holds<K(!new), V(!new)>(tab: seq<Option<Item<K, V>>>, m: map<K, V>) {
    forall it :: Stored(tab, it) <==> Maps(m, it)
  }

  lemma {:induction false} AbsentKey<K(!new), V(!new)>(tab: seq<Option<Item<K, V>>>, m: map<K, V>, key: K)
    requires Holds(tab, m)
    ensures Absent(tab, key) <==> key !in m
  {
    if key in m {
      assert Maps(m, Item(key, m[key]));
      assert Stored(tab, Item(key, m[key]));
      var i :| 0 <= i < |tab| && tab[i] == Some(Item(key, m[key]));
    } else {
      forall i | 0 <= i < |tab| && tab[i].Some? ensures tab[i].value.key != key {
        assert Stored(tab, tab[i].value);
      }
    }
  }

  lemma {:induction false} HoldsAdded<K(!new), V(!new)>(tab: seq<Option<Item<K, V>>>, tab': seq<Option<Item<K, V>>>,
    m: map<K, V>,
    it: Item<K, V>)
    requires Holds(tab, m) && it.key !in m && forall x :: Stored(tab', x) <==> Stored(tab, x) || x == it
    ensures Holds(tab', m[it.key := it.data])
  {
    forall x ensures Stored(tab', x) <==> Maps(m[it.key := it.data], x) {
      assert Stored(tab, x) <==> Maps(m, x);
    }
  }

  lemma {:induction false} HoldsRemoved<K(!new), V(!new)>(tab: seq<Option<Item<K, V>>>, tab': seq<Option<Item<K, V>>>,
    m: map<K, V>,
    it: Item<K, V>)
    requires Holds(tab, m) && Stored(tab, it) && forall x :: Stored(tab', x) <==> Stored(tab, x) && x != it
    ensures Maps(m, it) && Holds(tab', m - {it.key})
  {
    forall x ensures Stored(tab', x) <==> Maps(m - {it.key}, x) {
      assert Stored(tab, x) <==> Maps(m, x);
    }
  }

  lemma {:induction false} HoldsSame<K(!new), V(!new)>(tab: seq<Option<Item<K, V>>>, tab': seq<Option<Item<K, V>>>,
    m: map<K, V>)
    requires Holds(tab, m) && SameItems(tab, tab')
    ensures Holds(tab', m)
  {
  }

  lemma {:induction false} CellStored<K, V>(tab: seq<Option<Item<K, V>>>, i: nat)
    requires i < |tab| && tab[i].Some?
    ensures Stored(tab, tab[i].value)
  {
    assert tab[i] == Some(tab[i].value);
  }

  lemma {:induction false} KeepsSize<K, V>(m: map<K, V>, k: K)
    requires k in m
    ensures |m - {k}| == |m| - 1
  {
    assert m == (m - {k})[k := m[k]];
  }

  lemma {:induction false} KeptHolds<K(!new), V(!new)>(t: Table<K, V>, t': Table<K, V>, m: map<K, V>, it: Item<K, V>,
    left: Item<K, V>)
    requires Holds(t.tab, m) && it.key !in m && Kept(t, it, t', left)
    ensures Maps(m[it.key := it.data], left) && Holds(t'.tab, m[it.key := it.data] - {left.key}) && t'.count == t.count
  {
    var m1 := m[it.key := it.data];
    assert Maps(m1, left) by {
      assert Stored(t'.tab, left) || left == left;
      assert Stored(t.tab, left) <==> Maps(m, left);
    }
    forall x ensures Stored(t'.tab, x) <==> Maps(m1 - {left.key}, x) {
      assert Stored(t.tab, x) <==> Maps(m, x);
      if Stored(t'.tab, x) {
        var i :| 0 <= i < |t'.tab| && t'.tab[i] == Some(x);
      }
    }
  }

  class CkhMap<K(==, !new), V(!new)> {
    var t: Table<K, V>
    const h: Hashes<K>
    const lgMin: nat
    /** The largest table, in cells, that can be allocated. */
    const limit: nat
    ghost var contents: map<K, V>

    ghost predicate Valid()
      reads this
    {
      Ok(t, h) && Holds(t.tab, contents) && t.count == |contents| && lgMin <= t.lg
    }

    /** ckh_new with room for at least `minitems` at three quarters full. */
    constructor (minitems: nat, h: Hashes<K>, limit: nat)
      requires minitems > 0
      ensures Valid() && contents == map[] && t.count == 0
      ensures minitems * 4 <= Pow2(t.lg) * CELLS * 3
    {
      var mincells := (minitems + (3 - minitems % 3)) / 3 * 4;
      var lg := 2;
      while Pow2(lg) < mincells
        invariant lg >= 2
        decreases mincells - Pow2(lg)
      {
        lg := lg + 1;
      }
      this.lgMin := lg - 2;
      this.h := h;
      this.limit := limit;
      t := EmptyTable(lg - 2);
      contents := map[];
      new;
      EmptyOk<K, V>(t.lg, h);
      assert Pow2(lg) == 2 * Pow2(lg - 1) == 4 * Pow2(lg - 2);
    }

    /** ckh_search */
    method Search(key: K) returns (r: Option<V>)
      requires Valid()
      ensures r == if key in contents then Some(contents[key]) else None
    {
      hide Ok, Stored;
      var cell := Find(t, h, key);
      AbsentKey(t.tab, contents, key);
      if cell.Some? {
        CellStored(t.tab, cell.value);
        assert Maps(contents, t.tab[cell.value].value);
        return Some(t.tab[cell.value].value.data);
      }
      return None;
    }

    /** ckh_insert. Without memory the binding in hand when the table last grew is kept and another one is lost: in a
        table that did not grow the new binding is kept and an older one is lost. */
    method Put(key: K, data: V, rnd: seq<nat>) returns (o: Outcome, ghost left: Item<K, V>, ghost held: Item<K, V>)
      requires Valid() && key !in contents
      modifies this
      ensures Valid() && o in {Done, NoMemory, Starved}
      ensures o == Done ==> contents == old(contents)[key := data]
      ensures o != Done ==>
        Maps(old(contents)[key := data], left) && contents == old(contents)[key := data] - {left.key}
      ensures o == NoMemory ==> Maps(contents, held)
      ensures o == NoMemory && t.lg == old(t.lg) ==> held == Item(key, data) && Maps(old(contents), left)
      ensures old(t.lg) + 2 >= limit ==> t.lg == old(t.lg)
      ensures old(t.lg) + 2 >= limit && |old(contents)| == Pow2(t.lg) * CELLS ==> o != Done
      ensures !old(NoCell(t, h, key)) ==> o == Done
      ensures o == NoMemory ==> Stuck(t, h, limit)
      ensures o == NoMemory || t.lg > old(t.lg) ==> old(Circles(t, h, Item(key, data), rnd))
      ensures old(Circles(t, h, Item(key, data), rnd)) ==>
        if old(t.lg) + 2 >= limit then o == NoMemory else o != Done || t.lg > old(t.lg)
      ensures old(t.lg) + 2 < limit && |old(contents)| <= CELLS && old(Circles(t, h, Item(key, data), rnd)) ==>
        t.lg > old(t.lg)
    {
      hide Ok, Stored, Kept, NoCell, Pow2, Stuck, Circles;
      AbsentKey(t.tab, contents, key);
      var t', it;
      o, t', it, held := Insert(t, h, Item(key, data), rnd, limit);
      left := it;
      if o == Done {
        HoldsAdded(t.tab, t'.tab, contents, Item(key, data));
        contents := contents[key := data];
      } else {
        KeptHolds(t, t', contents, Item(key, data), it);
        KeepsSize(contents[key := data], it.key);
        contents := contents[key := data] - {it.key};
      }
      t := t';
    }

    /** ckh_remove. The table is halved, if that can be done, once it is less than a quarter full. */
    method Remove(key: K, rnd: seq<nat>, room: bool) returns (r: Option<Item<K, V>>, ghost o: Outcome)
      requires Valid()
      modifies this
      ensures Valid() && contents == old(contents) - {key}
      ensures r == if key in old(contents) then Some(Item(key, old(contents)[key])) else None
      ensures t.lg == if o == Done then old(t.lg) - 1 else old(t.lg)
      ensures var sparse := r.Some? && |contents| < Pow2(old(t.lg)) && old(t.lg) > lgMin;
        && (o == NoMemory <==> !(sparse && room))
        && (sparse && room && |contents| <= CELLS ==> o == Done)
      ensures o == Cycle ==> Clogged(t.tab, h, t.lg - 1)
    {
      hide Ok, Stored, Pow2, Clogged;
      o := NoMemory;
      var cell := Find(t, h, key);
      AbsentKey(t.tab, contents, key);
      if cell.None? {
        assert contents - {key} == contents;
        return None, o;
      }
      CellStored(t.tab, cell.value);
      ClearOk(t, h, cell.value);
      r := t.tab[cell.value];
      HoldsRemoved(t.tab, t.tab[cell.value := None], contents, r.value);
      KeepsSize(contents, key);
      contents := contents - {key};
      t := Table(t.lg, t.tab[cell.value := None], t.count - 1);
      if t.count < Pow2(t.lg) && t.lg > lgMin {
        var done, t', rest := Shrink(t, h, rnd, room);
        o := done;
        if o == Done {
          HoldsSame(t.tab, t'.tab, contents);
        }
        t := t';
      }
    }
  }
}
