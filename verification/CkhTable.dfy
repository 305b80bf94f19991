/** The cuckoo hash table: two buckets of four cells for every key. */
module CkhTable {
  import opened Basics
  import opened Triangular

  datatype Item<K, V> = Item(key: K, data: V)

  /** 2^lg buckets of four cells. */
  datatype Table<K, V> = Table(lg: nat, tab: seq<Option<Item<K, V>>>, count: nat)

  /** The two hashes of a key. */
  datatype Hashes<!K> = Hashes(h0: K -> nat, h1: K -> nat)

  const CELLS: nat := 4

  function Bucket(h: nat, lg: nat): nat {
    Home(h, Pow2(lg))
  }

  /** Bucket `b` is one of the two of `key`. */
  predicate Mine<K, V>(t: Table<K, V>, h: Hashes<K>, key: K, b: nat) {
    b == Bucket(h.h0(key), t.lg) || b == Bucket(h.h1(key), t.lg)
  }

  ghost predicate Stored<K, V>(tab: seq<Option<Item<K, V>>>, it: Item<K, V>) {
    Some(it) in tab
  }

  function CountItems<K, V>(tab: seq<Option<Item<K, V>>>): nat {
    if tab == [] then 0 else (if tab[0].Some? then 1 else 0) + CountItems(tab[1..])
  }

  /** Every item sits in one of its two buckets. */
  ghost predicate Placed<K, V>(t: Table<K, V>, h: Hashes<K>) {
    forall i :: 0 <= i < |t.tab| && t.tab[i].Some? ==> Mine(t, h, t.tab[i].value.key, i / CELLS)
  }

  /** No key occurs twice. */
  ghost predicate Unique<K, V>(tab: seq<Option<Item<K, V>>>) {
    forall i, j :: 0 <= i < j < |tab| && tab[i].Some? && tab[j].Some? ==> tab[i].value.key != tab[j].value.key
  }

  ghost predicate Absent<K, V>(tab: seq<Option<Item<K, V>>>, key: K) {
    forall i :: 0 <= i < |tab| && tab[i].Some? ==> tab[i].value.key != key
  }

  ghost predicate Ok<K, V>(t: Table<K, V>, h: Hashes<K>) {
    |t.tab| == Pow2(t.lg) * CELLS && Placed(t, h) && Unique(t.tab) && t.count == CountItems(t.tab)
  }

  predicate Used<K, V>(t: Table<K, V>, i: int) {
    0 <= i < |t.tab| && t.tab[i].Some?
  }

  /** All four cells of bucket `b` are taken. */
  ghost predicate BucketFull<K, V>(t: Table<K, V>, b: nat) {
    forall i :: b * CELLS <= i < (b + 1) * CELLS ==> Used(t, i)
  }

  /** Table plus item in hand hold what they held. */
  ghost predicate Conserved<K(!new), V(!new)>(t: Table<K, V>, it: Item<K, V>, t': Table<K, V>, it': Item<K, V>) {
    && t'.lg == t.lg && t'.count == t.count && Absent(t'.tab, it'.key)
    && forall x :: Stored(t'.tab, x) || x == it' <==> Stored(t.tab, x) || x == it
  }

  /** The item has its place. */
  ghost predicate Added<K(!new), V(!new)>(t: Table<K, V>, it: Item<K, V>, t': Table<K, V>) {
    t'.lg == t.lg && t'.count == t.count + 1 && forall x :: Stored(t'.tab, x) <==> Stored(t.tab, x) || x == it
  }

  // ----- Counting -----

  lemma {:induction false} CountSet<K, V>(tab: seq<Option<Item<K, V>>>, i: nat, v: Option<Item<K, V>>)
    requires i < |tab|
    ensures CountItems(tab[i := v]) == CountItems(tab) - (if tab[i].Some? then 1 else 0) + (if v.Some? then 1 else 0)
  {
    if i > 0 {
      CountSet(tab[1..], i - 1, v);
      assert tab[i := v][1..] == tab[1..][i - 1 := v];
    } else {
      assert tab[i := v][1..] == tab[1..];
    }
  }

  lemma {:induction false} CountSplit<K, V>(tab: seq<Option<Item<K, V>>>, i: nat)
    requires i <= |tab|
    ensures CountItems(tab) == CountItems(tab[..i]) + CountItems(tab[i..])
  {
    if i == 0 {
      assert tab[i..] == tab;
    } else {
      CountSplit(tab[1..], i - 1);
      assert tab[1..][..i - 1] == tab[..i][1..] && tab[1..][i - 1..] == tab[i..];
    }
  }

  lemma {:induction false} CountNext<K, V>(tab: seq<Option<Item<K, V>>>, i: nat)
    requires i < |tab|
    ensures CountItems(tab[..i + 1]) == CountItems(tab[..i]) + (if tab[i].Some? then 1 else 0)
  {
    CountSplit(tab[..i + 1], i);
    assert tab[..i + 1][..i] == tab[..i] && tab[..i + 1][i..] == [tab[i]];
  }

  lemma {:induction false} CountEmpty<K, V>(n: nat)
    ensures CountItems(seq<Option<Item<K, V>>>(n, _ => None)) == 0
  {
    if n > 0 {
      CountEmpty<K, V>(n - 1);
      assert seq<Option<Item<K, V>>>(n, _ => None)[1..] == seq<Option<Item<K, V>>>(n - 1, _ => None);
    }
  }

  // ----- One cell changes -----

  /** Cell arithmetic. */
  lemma {:induction false} CellOf(b: nat, c: nat, n: nat)
    requires b < n && c < CELLS
    ensures b * CELLS + c < n * CELLS && (b * CELLS + c) / CELLS == b
  {
  }

  /** Filling an empty cell of a key's bucket. */
  lemma {:induction false} FillOk<K(!new), V(!new)>(t: Table<K, V>, h: Hashes<K>, i: nat, it: Item<K, V>)
    requires Ok(t, h) && i < |t.tab| && t.tab[i].None? && Mine(t, h, it.key, i / CELLS) && Absent(t.tab, it.key)
    ensures Ok(Table(t.lg, t.tab[i := Some(it)], t.count + 1), h)
    ensures Added(t, it, Table(t.lg, t.tab[i := Some(it)], t.count + 1))
  {
    hide CountItems, Bucket;
    CountSet(t.tab, i, Some(it));
    var tab := t.tab[i := Some(it)];
    forall x ensures Stored(tab, x) <==> Stored(t.tab, x) || x == it {
      if Stored(t.tab, x) {
        var j :| 0 <= j < |t.tab| && t.tab[j] == Some(x);
        assert tab[j] == Some(x);
      }
      assert tab[i] == Some(it);
    }
  }

  /** Swapping the item in hand with a stored one. */
  lemma {:induction false} SwapOk<K(!new), V(!new)>(t: Table<K, V>, h: Hashes<K>, i: nat, it: Item<K, V>)
    requires Ok(t, h) && i < |t.tab| && t.tab[i].Some? && Mine(t, h, it.key, i / CELLS) && Absent(t.tab, it.key)
    ensures Ok(t.(tab := t.tab[i := Some(it)]), h) && Mine(t, h, t.tab[i].value.key, i / CELLS)
    ensures Conserved(t, it, t.(tab := t.tab[i := Some(it)]), t.tab[i].value)
  {
    hide CountItems, Bucket;
    CountSet(t.tab, i, Some(it));
    var tab := t.tab[i := Some(it)];
    forall x ensures Stored(tab, x) || x == t.tab[i].value <==> Stored(t.tab, x) || x == it {
      if Stored(t.tab, x) {
        var j :| 0 <= j < |t.tab| && t.tab[j] == Some(x);
        assert j != i ==> tab[j] == Some(x);
      }
      assert tab[i] == Some(it) && t.tab[i] == Some(t.tab[i].value);
    }
  }

  /** Emptying a cell. */
  lemma {:induction false} ClearOk<K(!new), V(!new)>(t: Table<K, V>, h: Hashes<K>, i: nat)
    requires Ok(t, h) && i < |t.tab| && t.tab[i].Some?
    ensures t.count > 0 && Ok(Table(t.lg, t.tab[i := None], t.count - 1), h)
    ensures forall x :: Stored(t.tab[i := None], x) <==> Stored(t.tab, x) && x != t.tab[i].value
  {
    hide CountItems, Bucket;
    CountSet(t.tab, i, None);
    var tab := t.tab[i := None];
    forall x ensures Stored(tab, x) <==> Stored(t.tab, x) && x != t.tab[i].value {
      if Stored(t.tab, x) {
        var j :| 0 <= j < |t.tab| && t.tab[j] == Some(x);
        assert j != i ==> tab[j] == Some(x);
      }
      if Stored(tab, x) {
        var j :| 0 <= j < |tab| && tab[j] == Some(x);
        assert j != i && t.tab[j] == Some(x);
      }
    }
  }
}
