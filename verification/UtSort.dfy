/** Merge sort of HASH_SRT on sequences: merging neighbouring runs of doubling width gives a stable sort. */
module UtSort {

  /** cmpfcn(x, y) <= 0 */
  type Le = (nat, nat) -> bool

  /** The comparison is total and transitive. */
  ghost predicate Preorder(le: Le) {
    && (forall x, y :: le(x, y) || le(y, x))
    && (forall x, y, z :: le(x, y) && le(y, z) ==> le(x, z))
  }

  /** Sorted order, and among equals the order of the positions in `pos`. */
  predicate Before(le: Le, pos: map<nat, nat>, x: nat, y: nat) {
    le(x, y) && (le(y, x) ==> x in pos && y in pos && pos[x] < pos[y])
  }

  ghost predicate Sorted(le: Le, pos: map<nat, nat>, s: seq<nat>) {
    forall i, j :: 0 <= i < j < |s| ==> Before(le, pos, s[i], s[j])
  }

  /** Everything in `a` stood before everything in `b`. */
  ghost predicate Precedes(pos: map<nat, nat>, a: seq<nat>, b: seq<nat>) {
    forall x, y :: x in a && y in b ==> x in pos && y in pos && pos[x] < pos[y]
  }

  function Merge(le: Le, a: seq<nat>, b: seq<nat>): (m: seq<nat>)
    ensures |m| == |a| + |b|
  {
    if a == [] then b
    else if b == [] then a
    else if le(a[0], b[0]) then [a[0]] + Merge(le, a[1..], b)
    else [b[0]] + Merge(le, a, b[1..])
  }

  lemma {:induction false} MergePerm(le: Le, a: seq<nat>, b: seq<nat>)
    ensures multiset(Merge(le, a, b)) == multiset(a) + multiset(b)
    decreases |a| + |b|
  {
    if a != [] && b != [] {
      if le(a[0], b[0]) {
        MergePerm(le, a[1..], b);
        ConsPerm(a);
        assert multiset(Merge(le, a, b)) == multiset{a[0]} + multiset(Merge(le, a[1..], b));
      } else {
        MergePerm(le, a, b[1..]);
        ConsPerm(b);
        assert multiset(Merge(le, a, b)) == multiset{b[0]} + multiset(Merge(le, a, b[1..]));
      }
    }
  }

  lemma {:induction false} ConsPerm(s: seq<nat>)
    requires s != []
    ensures multiset(s) == multiset{s[0]} + multiset(s[1..])
  {
    assert s == [s[0]] + s[1..];
  }

  lemma {:induction false} MergeIn(le: Le, a: seq<nat>, b: seq<nat>, x: nat)
    ensures x in Merge(le, a, b) <==> x in a || x in b
  {
    MergePerm(le, a, b);
    assert x in multiset(Merge(le, a, b)) <==> x in multiset(a) + multiset(b);
  }

  lemma {:induction false} SortedCons(le: Le, pos: map<nat, nat>, x: nat, s: seq<nat>)
    requires Sorted(le, pos, s) && forall y :: y in s ==> Before(le, pos, x, y)
    ensures Sorted(le, pos, [x] + s)
  {
    var r := [x] + s;
    forall i, j | 0 <= i < j < |r| ensures Before(le, pos, r[i], r[j]) {
      if i == 0 { assert r[j] in s; } else { assert Before(le, pos, s[i - 1], s[j - 1]); }
    }
  }

  lemma {:induction false} HeadFirst(le: Le, pos: map<nat, nat>, s: seq<nat>, y: nat)
    requires Sorted(le, pos, s) && s != [] && y in s[1..]
    ensures Before(le, pos, s[0], y)
  {
    var j :| 0 <= j < |s[1..]| && s[1..][j] == y;
    assert s[j + 1] == y;
  }

  lemma {:induction false} TailSorted(le: Le, pos: map<nat, nat>, s: seq<nat>)
    requires Sorted(le, pos, s) && s != []
    ensures Sorted(le, pos, s[1..])
  {
  }

  /** Merging two sorted runs, all of the first from before all of the second, is a stable sort of both. */
  lemma {:induction false} MergeSorted(le: Le, pos: map<nat, nat>, a: seq<nat>, b: seq<nat>)
    requires Preorder(le) && Sorted(le, pos, a) && Sorted(le, pos, b) && Precedes(pos, a, b)
    ensures Sorted(le, pos, Merge(le, a, b))
    decreases |a| + |b|
  {
    if a != [] && b != [] {
      if le(a[0], b[0]) {
        TailSorted(le, pos, a);
        MergeSorted(le, pos, a[1..], b);
        var rest := Merge(le, a[1..], b);
        forall y | y in rest ensures Before(le, pos, a[0], y) {
          MergeIn(le, a[1..], b, y);
          if y in a[1..] {
            HeadFirst(le, pos, a, y);
          } else if y != b[0] {
            assert b == [b[0]] + b[1..];
            HeadFirst(le, pos, b, y);
          }
        }
        SortedCons(le, pos, a[0], rest);
      } else {
        TailSorted(le, pos, b);
        MergeSorted(le, pos, a, b[1..]);
        var rest := Merge(le, a, b[1..]);
        forall y | y in rest ensures Before(le, pos, b[0], y) {
          MergeIn(le, a, b[1..], y);
          if y in b[1..] {
            HeadFirst(le, pos, b, y);
          } else {
            assert a == [a[0]] + a[1..];
            if y != a[0] { HeadFirst(le, pos, a, y); }
          }
        }
        SortedCons(le, pos, b[0], rest);
      }
    }
  }

  // ----- Passes -----

  function Min(a: nat, b: nat): nat {
    if a < b then a else b
  }

  /** Neighbouring runs of width `w` merged in pairs. */
  function Pass(le: Le, s: seq<nat>, w: nat): (r: seq<nat>)
    requires w > 0
    ensures |r| == |s|
  {
    if s == [] then []
    else
      var n := Min(w, |s|);
      var m := Min(w, |s| - n);
      Merge(le, s[..n], s[n..n + m]) + Pass(le, s[n + m..], w)
  }

  /** Each run of width `w` is sorted and comes from before all later ones. */
  ghost predicate Runs(le: Le, pos: map<nat, nat>, s: seq<nat>, w: nat)
    requires w > 0
  {
    if |s| <= w then Sorted(le, pos, s)
    else Sorted(le, pos, s[..w]) && Precedes(pos, s[..w], s[w..]) && Runs(le, pos, s[w..], w)
  }

  lemma {:induction false} PassPerm(le: Le, s: seq<nat>, w: nat)
    requires w > 0
    ensures multiset(Pass(le, s, w)) == multiset(s)
  {
    hide Merge;
    if s != [] {
      var n := Min(w, |s|);
      var m := Min(w, |s| - n);
      var p, q, r := s[..n], s[n..n + m], s[n + m..];
      PassPerm(le, r, w);
      MergePerm(le, p, q);
      ThreeParts(s, n, n + m);
      var first, rest := Merge(le, p, q), Pass(le, r, w);
      assert Pass(le, s, w) == first + rest;
      JoinPerm(first, rest);
    }
  }

  lemma {:induction false} JoinPerm(a: seq<nat>, b: seq<nat>)
    ensures multiset(a + b) == multiset(a) + multiset(b)
  {
  }

  lemma {:induction false} ThreeParts(s: seq<nat>, i: nat, j: nat)
    requires i <= j <= |s|
    ensures multiset(s) == multiset(s[..i]) + multiset(s[i..j]) + multiset(s[j..])
  {
    assert s == s[..i] + (s[i..j] + s[j..]);
    JoinPerm(s[..i], s[i..j] + s[j..]);
    JoinPerm(s[i..j], s[j..]);
  }

  lemma {:induction false} PassIn(le: Le, s: seq<nat>, w: nat, x: nat)
    requires w > 0
    ensures x in Pass(le, s, w) <==> x in s
  {
    PassPerm(le, s, w);
    assert x in multiset(Pass(le, s, w)) <==> x in multiset(s);
  }

  /** The first two runs. */
  lemma {:induction false} TwoRuns(le: Le, pos: map<nat, nat>, s: seq<nat>, w: nat)
    requires w > 0 && Runs(le, pos, s, w) && s != []
    ensures var n := Min(w, |s|); var m := Min(w, |s| - n);
      && Sorted(le, pos, s[..n]) && Sorted(le, pos, s[n..n + m]) && Precedes(pos, s[..n], s[n..n + m])
      && Precedes(pos, s[..n] + s[n..n + m], s[n + m..]) && Runs(le, pos, s[n + m..], w)
  {
    hide Sorted, Precedes;
    var n := Min(w, |s|);
    var m := Min(w, |s| - n);
    if |s| <= w {
      assert s[..n] == s && s[n..n + m] == [] && s[n + m..] == [];
      Trivial(le, pos, s);
    } else {
      var t := s[w..];
      assert t[..m] == s[n..n + m] && t[m..] == s[n + m..] && t == t[..m] + t[m..];
      PrecedesParts(pos, s[..n], t[..m], t[m..]);
      if |t| <= w {
        assert t[..m] == t && t[m..] == [];
        Trivial(le, pos, t);
        Nothing(pos, s[..n] + t[..m]);
      } else {
        PrecedesBoth(pos, s[..n], t[..m], t[m..]);
      }
    }
  }

  lemma {:induction false} Nothing(pos: map<nat, nat>, a: seq<nat>)
    ensures Precedes(pos, a, [])
  {
  }

  lemma {:induction false} Trivial(le: Le, pos: map<nat, nat>, s: seq<nat>)
    ensures Sorted(le, pos, []) && Precedes(pos, s, []) && Precedes(pos, s + [], [])
  {
  }

  lemma {:induction false} PrecedesParts(pos: map<nat, nat>, a: seq<nat>, b: seq<nat>, c: seq<nat>)
    requires Precedes(pos, a, b + c)
    ensures Precedes(pos, a, b) && Precedes(pos, a, c)
  {
    forall y | y in b || y in c ensures y in b + c { }
  }

  lemma {:induction false} PrecedesBoth(pos: map<nat, nat>, a: seq<nat>, b: seq<nat>, c: seq<nat>)
    requires Precedes(pos, a, c) && Precedes(pos, b, c)
    ensures Precedes(pos, a + b, c)
  {
    forall x | x in a + b ensures x in a || x in b { }
  }

  lemma {:induction false} PassRuns(le: Le, pos: map<nat, nat>, s: seq<nat>, w: nat)
    requires w > 0 && Preorder(le) && Runs(le, pos, s, w)
    ensures Runs(le, pos, Pass(le, s, w), 2 * w)
  {
    hide Sorted, Precedes, Merge, Preorder;
    if s == [] {
      Trivial(le, pos, []);
    } else {
      var n := Min(w, |s|);
      var m := Min(w, |s| - n);
      var p, q, r := s[..n], s[n..n + m], s[n + m..];
      TwoRuns(le, pos, s, w);
      MergeSorted(le, pos, p, q);
      PassRuns(le, pos, r, w);
      MergePrecedes(le, pos, p, q, r, w);
      JoinRuns(le, pos, Merge(le, p, q), Pass(le, r, w), 2 * w);
    }
  }

  lemma {:induction false} MergePrecedes(le: Le, pos: map<nat, nat>, p: seq<nat>, q: seq<nat>, r: seq<nat>, w: nat)
    requires w > 0 && Precedes(pos, p + q, r)
    ensures Precedes(pos, Merge(le, p, q), Pass(le, r, w))
  {
    hide Merge, Pass;
    var first, rest := Merge(le, p, q), Pass(le, r, w);
    forall x, y | x in first && y in rest ensures x in pos && y in pos && pos[x] < pos[y] {
      MergeIn(le, p, q, x);
      PassIn(le, r, w, y);
      assert x in p + q;
    }
  }

  lemma {:induction false} JoinRuns(le: Le, pos: map<nat, nat>, first: seq<nat>, rest: seq<nat>, w: nat)
    requires w > 0 && Sorted(le, pos, first) && Precedes(pos, first, rest) && Runs(le, pos, rest, w)
    requires |first| == w || (|first| < w && rest == [])
    ensures Runs(le, pos, first + rest, w)
  {
    if rest == [] {
      assert first + rest == first;
    } else {
      assert (first + rest)[..w] == first && (first + rest)[w..] == rest;
    }
  }

  // ----- The original order -----

  ghost predicate Positions(pos: map<nat, nat>, s: seq<nat>) {
    forall i :: 0 <= i < |s| ==> s[i] in pos && pos[s[i]] == i
  }

  lemma {:induction false} Singles(le: Le, pos: map<nat, nat>, s: seq<nat>, at: nat)
    requires forall i :: 0 <= i < |s| ==> s[i] in pos && pos[s[i]] == at + i
    ensures Runs(le, pos, s, 1)
  {
    if |s| > 1 {
      Singles(le, pos, s[1..], at + 1);
      assert s[..1] == [s[0]];
    }
  }
}
