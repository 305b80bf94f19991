/** HASH_SRT on the linked list: runs are merged by relinking, with next, prev, head and tail correct at the end. */
module UtMerge {
  import opened UtLinks
  import opened UtSort

  function El(s: seq<nat>, k: int): Ptr {
    if 0 <= k < |s| then To(s[k]) else Null
  }

  /** From any element of `s` the next fields lead to the end. */
  ghost predicate Chain(m: Links, s: seq<nat>) {
    forall k :: 0 <= k < |s| ==> s[k] in m && m[s[k]].next == El(s, k + 1)
  }

  /** The next fields lead through `s`, and from its last element anywhere. */
  ghost predicate Run(m: Links, s: seq<nat>) {
    forall k :: 0 <= k < |s| ==> s[k] in m && (k + 1 < |s| ==> m[s[k]].next == To(s[k + 1]))
  }

  /** Output so far: linked both ways, except that the last next field is still to be written. */
  ghost predicate Output(m: Links, s: seq<nat>) {
    forall k :: 0 <= k < |s| ==>
      s[k] in m && m[s[k]].prev == El(s, k - 1) && (k + 1 < |s| ==> m[s[k]].next == To(s[k + 1]))
  }

  ghost predicate Distinct(s: seq<nat>) {
    forall i, j :: 0 <= i < j < |s| ==> s[i] != s[j]
  }

  ghost predicate Off(s: seq<nat>, t: seq<nat>) {
    forall x: nat :: x in s ==> x !in t
  }

  /** Appending element `e` to the output. */
  function Emit(m: Links, tail: Ptr, e: nat): Links
    requires e in m && (tail.To? ==> tail.i in m)
  {
    var m1 := if tail.To? then SetNext(m, tail.i, To(e)) else m;
    SetPrev(m1, e, tail)
  }

  lemma {:induction false} EmitOutput(m: Links, out: seq<nat>, e: nat)
    requires Output(m, out) && e in m && e !in out && Distinct(out)
    ensures El(out, |out| - 1).To? ==> El(out, |out| - 1).i in m
    ensures Output(Emit(m, El(out, |out| - 1), e), out + [e]) && Distinct(out + [e])
  {
  }

  /** Elements that are neither the tail nor emitted keep their next field. */
  lemma {:induction false} EmitRun(m: Links, out: seq<nat>, e: nat, s: seq<nat>)
    requires Run(m, s) && e in m && Off(s, out) && (El(out, |out| - 1).To? ==> El(out, |out| - 1).i in m)
    ensures Run(Emit(m, El(out, |out| - 1), e), s)
  {
    var m' := Emit(m, El(out, |out| - 1), e);
    forall k | 0 <= k < |s| ensures s[k] in m' && (k + 1 < |s| ==> m'[s[k]].next == To(s[k + 1])) {
      assert s[k] in s;
    }
  }

  lemma {:induction false} EmitChain(m: Links, out: seq<nat>, e: nat, s: seq<nat>)
    requires Chain(m, s) && e in m && Off(s, out) && (El(out, |out| - 1).To? ==> El(out, |out| - 1).i in m)
    ensures Chain(Emit(m, El(out, |out| - 1), e), s)
  {
    var m' := Emit(m, El(out, |out| - 1), e);
    forall k | 0 <= k < |s| ensures s[k] in m' && m'[s[k]].next == El(s, k + 1) {
      assert s[k] in s;
    }
  }

  /** The state of a merge: output, rest of the first run, everything after it. */
  ghost predicate Merging(m: Links, out: seq<nat>, p: seq<nat>, q: seq<nat>) {
    && Output(m, out) && Run(m, p) && Chain(m, q)
    && Distinct(out) && Distinct(p) && Distinct(q) && Off(p, out) && Off(q, out) && Off(p, q)
  }

  lemma {:induction false} TakeFirst(m: Links, out: seq<nat>, p: seq<nat>, q: seq<nat>)
    requires Merging(m, out, p, q) && p != []
    ensures p[0] in m && (El(out, |out| - 1).To? ==> El(out, |out| - 1).i in m)
    ensures Merging(Emit(m, El(out, |out| - 1), p[0]), out + [p[0]], p[1..], q)
  {
    var e := p[0];
    assert e in p;
    EmitOutput(m, out, e);
    EmitRun(m, out, e, p[1..]);
    EmitChain(m, out, e, q);
  }

  lemma {:induction false} TakeSecond(m: Links, out: seq<nat>, p: seq<nat>, q: seq<nat>)
    requires Merging(m, out, p, q) && q != []
    ensures q[0] in m && (El(out, |out| - 1).To? ==> El(out, |out| - 1).i in m)
    ensures Merging(Emit(m, El(out, |out| - 1), q[0]), out + [q[0]], p, q[1..])
    ensures m[q[0]].next == El(q[1..], 0)
  {
    var e := q[0];
    assert e in q;
    EmitOutput(m, out, e);
    EmitRun(m, out, e, p);
    EmitChain(m, out, e, q[1..]);
  }

  /** Merging one pair of runs: `p` holds all of the first run, `q` everything after it, of which the second run is the
      first `w` at most. */
  method MergeRuns(m: Links, le: Le, pp: Ptr, size: nat, qq: Ptr, w: nat, list: Ptr, tail: Ptr,
    ghost done: seq<nat>, ghost p: seq<nat>, ghost q: seq<nat>)
    returns (m': Links, q': Ptr, list': Ptr, tail': Ptr)
    requires Merging(m, done, p, q) && pp == El(p, 0) && size == |p| && qq == El(q, 0)
    requires list == El(done, 0) && tail == El(done, |done| - 1)
    ensures var n := Min(w, |q|); var out := done + Merge(le, p, q[..n]);
      && Merging(m', out, [], q[n..]) && q' == El(q[n..], 0) && list' == El(out, 0) && tail' == El(out, |out| - 1)
  {
    hide Merge, Merging, Emit, Midway;
    m', q', list', tail' := m, qq, list, tail;
    var p', psize: nat, qsize: nat := pp, size, w;
    ghost var out, pl, ql := done, p, q;
    Beginning(le, done, p, q, w);
    while psize > 0 || (qsize > 0 && q'.To?)
      invariant Merging(m', out, pl, ql) && psize == |pl| && (pl != [] ==> p' == El(pl, 0)) && q' == El(ql, 0)
      invariant list' == El(out, 0) && tail' == El(out, |out| - 1)
      invariant Midway(le, done, p, q, w, out, pl, ql, qsize)
      decreases psize + |ql|
    {
      var e;
      // the element to emit: from the second run when the first is used up, from the first when the second is,
      // otherwise the smaller, and the first one on a tie
      var first := if psize == 0 then false else if qsize == 0 || q' == Null then true else le(p'.i, q'.i);
      if first {
        e := p'.i;
        TakeFirst(m', out, pl, ql);
        RunNext(m', out, pl, ql);
        StepP(le, done, p, q, w, out, pl, ql, qsize);
        p' := m'[e].next;
        psize := psize - 1;
        pl := pl[1..];
      } else {
        e := q'.i;
        TakeSecond(m', out, pl, ql);
        StepQ(le, done, p, q, w, out, pl, ql, qsize);
        q' := m'[e].next;
        qsize := qsize - 1;
        ql := ql[1..];
      }
      if tail'.Null? {
        list' := To(e);
      }
      m' := Emit(m', tail', e);
      tail' := To(e);
      out := out + [e];
    }
    Finished(le, done, p, q, w, out, pl, ql, qsize);
  }

  /** What is out and what is to come make up the merged runs. */
  ghost predicate Midway(le: Le, done: seq<nat>, p: seq<nat>, q: seq<nat>, w: nat, out: seq<nat>, pl: seq<nat>,
    ql: seq<nat>,
    qsize: nat)
  {
    && qsize <= w && |ql| <= |q| && w - qsize == |q| - |ql| && ql == q[|q| - |ql|..]
    && out + Merge(le, pl, ql[..Min(qsize, |ql|)]) == done + Merge(le, p, q[..Min(w, |q|)])
  }

  lemma {:induction false} Beginning(le: Le, done: seq<nat>, p: seq<nat>, q: seq<nat>, w: nat)
    ensures Midway(le, done, p, q, w, done, p, q, w)
  {
  }

  lemma {:induction false} Finished(le: Le, done: seq<nat>, p: seq<nat>, q: seq<nat>, w: nat, out: seq<nat>,
    pl: seq<nat>,
    ql: seq<nat>, qsize: nat)
    requires Midway(le, done, p, q, w, out, pl, ql, qsize) && pl == [] && (qsize == 0 || ql == [])
    ensures out == done + Merge(le, p, q[..Min(w, |q|)]) && ql == q[Min(w, |q|)..]
  {
    MergeNone(le, ql[..Min(qsize, |ql|)]);
    assert out + [] == out;
  }

  lemma {:induction false} Shift(a: seq<nat>, e: nat, b: seq<nat>)
    ensures a + ([e] + b) == (a + [e]) + b
  {
  }

  lemma {:induction false} MergeNone(le: Le, q: seq<nat>)
    ensures Merge(le, [], q) == q
  {
  }

  lemma {:induction false} RunNext(m: Links, out: seq<nat>, p: seq<nat>, q: seq<nat>)
    requires Merging(m, out, p, q) && p != []
    ensures p[0] in m && (p[1..] != [] ==> m[p[0]].next == El(p[1..], 0))
  {
  }

  lemma {:induction false} MergeP(le: Le, p: seq<nat>, q: seq<nat>, n: nat)
    requires p != [] && n <= |q| && (n == 0 || le(p[0], q[0]))
    ensures Merge(le, p, q[..n]) == [p[0]] + Merge(le, p[1..], q[..n])
  {
    if n == 0 {
      assert p == [p[0]] + p[1..];
      if p[1..] == [] { assert q[..n] == []; }
    }
  }

  lemma {:induction false} MergeQ(le: Le, p: seq<nat>, q: seq<nat>, n: nat)
    requires 0 < n <= |q| && (p == [] || !le(p[0], q[0]))
    ensures Merge(le, p, q[..n]) == [q[0]] + Merge(le, p, q[1..][..n - 1])
  {
    assert q[..n][1..] == q[1..][..n - 1];
    if p == [] { assert q[..n] == [q[0]] + q[1..][..n - 1]; }
  }

  lemma {:induction false} StepP(le: Le, done: seq<nat>, p: seq<nat>, q: seq<nat>, w: nat, out: seq<nat>, pl: seq<nat>,
    ql: seq<nat>, qsize: nat)
    requires Midway(le, done, p, q, w, out, pl, ql, qsize) && pl != [] && (qsize == 0 || ql == [] || le(pl[0], ql[0]))
    ensures Midway(le, done, p, q, w, out + [pl[0]], pl[1..], ql, qsize)
  {
    hide Merge;
    var n := Min(qsize, |ql|);
    MergeP(le, pl, ql, n);
    Shift(out, pl[0], Merge(le, pl[1..], ql[..n]));
  }

  lemma {:induction false} StepQ(le: Le, done: seq<nat>, p: seq<nat>, q: seq<nat>, w: nat, out: seq<nat>, pl: seq<nat>,
    ql: seq<nat>, qsize: nat)
    requires Midway(le, done, p, q, w, out, pl, ql, qsize) && ql != [] && qsize > 0 && (pl == [] || !le(pl[0], ql[0]))
    ensures Midway(le, done, p, q, w, out + [ql[0]], pl, ql[1..], qsize - 1)
  {
    hide Merge;
    var n := Min(qsize, |ql|);
    MergeQ(le, pl, ql, n);
    Shift(out, ql[0], Merge(le, pl, ql[1..][..n - 1]));
  }

  // ----- One pass -----

  /** Output and what is left of the list. */
  lemma {:induction false} SplitRun(m: Links, done: seq<nat>, rem: seq<nat>, n: nat)
    requires Merging(m, done, [], rem) && n <= |rem|
    ensures Merging(m, done, rem[..n], rem[n..])
  {
    var p, q := rem[..n], rem[n..];
    forall k | 0 <= k < |q| ensures q[k] in m && m[q[k]].next == El(q, k + 1) {
      assert q[k] == rem[n + k];
    }
    assert forall x: nat :: x in p || x in q ==> x in rem;
    forall x: nat | x in p ensures x !in q {
      var i :| 0 <= i < n && rem[i] == x;
    }
  }

  /** Stepping over a run. */
  method SkipRun(m: Links, p: Ptr, w: nat, ghost done: seq<nat>, ghost rem: seq<nat>) returns (q: Ptr, size: nat)
    requires Merging(m, done, [], rem) && p == El(rem, 0) && rem != [] && w > 0
    ensures size == Min(w, |rem|) && q == El(rem, size)
  {
    q, size := p, 0;
    for i := 0 to w
      invariant size == i <= |rem| && q == El(rem, size) && q.To?
    {
      size := size + 1;
      assert rem[i] in m;
      q := m[q.i].next;
      if q == Null {
        break;
      }
    }
  }

  /** The output with one more pair of runs merged. */
  ghost function Merged(le: Le, done: seq<nat>, rem: seq<nat>, w: nat): (r: seq<nat>)
    ensures var n := Min(w, |rem|); |r| == |done| + n + Min(w, |rem| - n)
  {
    var n := Min(w, |rem|);
    done + Merge(le, rem[..n], rem[n..n + Min(w, |rem| - n)])
  }

  ghost function Rest(rem: seq<nat>, w: nat): (r: seq<nat>)
    ensures var n := Min(w, |rem|); |r| == |rem| - n - Min(w, |rem| - n)
  {
    var n := Min(w, |rem|);
    rem[n + Min(w, |rem| - n)..]
  }

  method MergePair(m: Links, le: Le, p: Ptr, w: nat, list: Ptr, tail: Ptr, ghost done: seq<nat>, ghost rem: seq<nat>)
    returns (m': Links, p': Ptr, list': Ptr, tail': Ptr)
    requires Merging(m, done, [], rem) && p == El(rem, 0) && rem != [] && w > 0
    requires list == El(done, 0) && tail == El(done, |done| - 1)
    ensures var out := Merged(le, done, rem, w);
      && Merging(m', out, [], Rest(rem, w)) && p' == El(Rest(rem, w), 0)
      && list' == El(out, 0) && tail' == El(out, |out| - 1)
  {
    hide Merge, Merging;
    var q, size := SkipRun(m, p, w, done, rem);
    SplitRun(m, done, rem, size);
    m', p', list', tail' := MergeRuns(m, le, p, size, q, w, list, tail, done, rem[..size], rem[size..]);
    Slices(rem, size, Min(w, |rem| - size));
  }

  method MergePass(m: Links, le: Le, list: Ptr, w: nat, ghost s: seq<nat>)
    returns (m': Links, list': Ptr, tail: Ptr, merges: nat)
    requires Chain(m, s) && Distinct(s) && list == El(s, 0) && w > 0
    ensures var r := Pass(le, s, w);
      Merging(m', r, [], []) && list' == El(r, 0) && tail == El(r, |r| - 1)
    ensures merges <= 1 ==> |s| <= 2 * w
    ensures merges > 1 ==> w < |s|
  {
    hide Merge, Merging, Pass, Progress, Chain, Merged, Rest;
    var p := list;
    m', list', tail, merges := m, Null, Null, 0;
    ghost var done, rem := [], s;
    Fresh(m, s);
    Begins(|s|, w);
    assert [] + Pass(le, s, w) == Pass(le, s, w);
    while p.To?
      invariant Merging(m', done, [], rem) && p == El(rem, 0) && list' == El(done, 0) && tail == El(done, |done| - 1)
      invariant done + Pass(le, rem, w) == Pass(le, s, w) && Progress(merges, |done|, |rem|, |s|, w)
      decreases |rem|
    {
      PassStep(le, done, rem, w);
      Advances(merges, |done|, |rem|, |s|, w);
      merges := merges + 1;
      m', p, list', tail := MergePair(m', le, p, w, list', tail, done, rem);
      done, rem := Merged(le, done, rem, w), Rest(rem, w);
    }
    Ends(merges, |done|, |s|, w);
    PassNone(le, w);
    assert done + [] == done;
  }

  lemma {:induction false} Slices(s: seq<nat>, i: nat, n: nat)
    requires i + n <= |s|
    ensures s[i..][..n] == s[i..i + n] && s[i..][n..] == s[i + n..]
  {
  }

  /** How the number of merges relates to the elements passed. */
  ghost predicate Progress(merges: nat, done: nat, left: nat, total: nat, w: nat) {
    && done + left == total
    && (merges == 0 ==> done == 0)
    && (merges == 1 ==> done == 2 * w || (left == 0 && done < 2 * w))
    && (merges > 1 ==> done > w)
  }

  lemma {:induction false} Begins(total: nat, w: nat)
    ensures Progress(0, 0, total, total, w)
  {
  }

  lemma {:induction false} Advances(merges: nat, done: nat, left: nat, total: nat, w: nat)
    requires Progress(merges, done, left, total, w) && left > 0 && w > 0
    ensures var c := Min(w, left) + Min(w, left - Min(w, left));
      c <= left && Progress(merges + 1, done + c, left - c, total, w)
  {
  }

  lemma {:induction false} Ends(merges: nat, done: nat, total: nat, w: nat)
    requires Progress(merges, done, 0, total, w)
    ensures (merges <= 1 ==> total <= 2 * w) && (merges > 1 ==> w < total)
  {
  }

  lemma {:induction false} PassNone(le: Le, w: nat)
    requires w > 0
    ensures Pass(le, [], w) == []
  {
  }

  lemma {:induction false} Fresh(m: Links, s: seq<nat>)
    requires Chain(m, s) && Distinct(s)
    ensures Merging(m, [], [], s)
  {
  }

  lemma {:induction false} PassStep(le: Le, done: seq<nat>, rem: seq<nat>, w: nat)
    requires w > 0 && rem != []
    ensures done + Pass(le, rem, w) == Merged(le, done, rem, w) + Pass(le, Rest(rem, w), w)
  {
    hide Merge;
    var n := Min(w, |rem|);
    var k := Min(w, |rem| - n);
    Assoc(done, Merge(le, rem[..n], rem[n..n + k]), Pass(le, rem[n + k..], w));
  }

  lemma {:induction false} Assoc(a: seq<nat>, b: seq<nat>, c: seq<nat>)
    ensures a + (b + c) == (a + b) + c
  {
  }

  // ----- HASH_SRT -----

  /** The last next field is cleared at the end of a pass. */
  lemma {:induction false} EndPass(m: Links, s: seq<nat>)
    requires Merging(m, s, [], []) && s != []
    ensures s[|s| - 1] in m
    ensures var m' := SetNext(m, s[|s| - 1], Null); Chain(m', s) && Distinct(s) && Linked(m', [s])
  {
    var m' := SetNext(m, s[|s| - 1], Null);
    var lists := [s];
    forall l, k | 0 <= l < |lists| && 0 <= k < |lists[l]| ensures LinkedAt(m', lists, l, k) { }
  }

  /** The application order after sorting: for every comparator a permutation of the old one, correctly linked both
      ways, and a stable sort of it when the comparator is a total preorder. */
  method Sort(m: Links, le: Le, head: nat, ghost order: seq<nat>, ghost pos: map<nat, nat>)
    returns (m': Links, head': Ptr, tail: Ptr, ghost order': seq<nat>)
    requires Linked(m, [order]) && order != [] && head == order[0] && Positions(pos, order)
    ensures Linked(m', [order']) && head' == El(order', 0) && tail == El(order', |order'| - 1)
    ensures multiset(order') == multiset(order) && order' != [] && (Preorder(le) ==> Sorted(le, pos, order'))
  {
    hide Sorted, Runs, Linked, Preorder, Merging, Positions, Chain, Pass;
    m', head', order' := m, To(head), order;
    tail := Null;
    var w := 1;
    StartSort(m, le, order, pos);
    var looping := true;
    while looping
      invariant w >= 1 && order' != [] && head' == El(order', 0) && |order'| == |order|
      invariant Chain(m', order') && Distinct(order') && multiset(order') == multiset(order)
      invariant Preorder(le) ==> Runs(le, pos, order', w)
      invariant !looping ==> Linked(m', [order']) && tail == El(order', |order'| - 1)
      invariant !looping && Preorder(le) ==> Sorted(le, pos, order')
      decreases looping, |order| - w
    {
      var merges;
      m', head', tail, merges := MergePass(m', le, head', w, order');
      if Preorder(le) { PassRuns(le, pos, order', w); }
      PassPerm(le, order', w);
      ghost var next := Pass(le, order', w);
      EndPass(m', next);
      m' := SetNext(m', tail.i, Null);
      order' := next;
      if merges <= 1 {
        looping := false;
        if Preorder(le) { OneRun(le, pos, order', 2 * w); }
      }
      w := 2 * w;
    }
  }

  lemma {:induction false} StartSort(m: Links, le: Le, order: seq<nat>, pos: map<nat, nat>)
    requires Linked(m, [order]) && Positions(pos, order)
    ensures Chain(m, order) && Distinct(order) && Runs(le, pos, order, 1)
  {
    var lists := [order];
    assert lists[0] == order;
    forall k | 0 <= k < |order| ensures order[k] in m && m[order[k]].next == El(order, k + 1) {
      assert LinkedAt(m, lists, 0, k);
    }
    forall i, j | 0 <= i < j < |order| ensures order[i] != order[j] {
      assert lists[0][i] == order[i] && lists[0][j] == order[j];
    }
    Singles(le, pos, order, 0);
  }

  lemma {:induction false} OneRun(le: Le, pos: map<nat, nat>, s: seq<nat>, w: nat)
    requires w > 0 && Runs(le, pos, s, w) && |s| <= w
    ensures Sorted(le, pos, s)
  {
  }
}
