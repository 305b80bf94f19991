/** Sequences of lists of numbered elements, the shape of every set of linked lists. */
module Lists {

  type Lists = seq<seq<nat>>

  /** No element is on two lists, or twice on one. */
  ghost predicate Apart(lists: Lists) {
    forall l, k, l', k' ::
      (0 <= l < |lists| && 0 <= k < |lists[l]| && 0 <= l' < |lists| && 0 <= k' < |lists[l']|
       && lists[l][k] == lists[l'][k']) ==> l == l' && k == k'
  }

  predicate OnList(lists: Lists, l: nat, i: nat) {
    l < |lists| && i in lists[l]
  }

  /** Element `i` is on no list. */
  ghost predicate Loose(lists: Lists, i: nat) {
    forall l :: 0 <= l < |lists| ==> i !in lists[l]
  }

  function Without(s: seq<nat>, k: nat): seq<nat>
    requires k < |s|
  {
    s[..k] + s[k + 1..]
  }

  lemma {:induction false} WithoutApart(lists: Lists, l: nat, k: nat)
    requires Apart(lists) && l < |lists| && k < |lists[l]|
    ensures Apart(lists[l := Without(lists[l], k)])
  {
  }

  lemma {:induction false} WithoutIn(lists: Lists, l: nat, k: nat)
    requires Apart(lists) && l < |lists| && k < |lists[l]|
    ensures forall x: nat :: x in Without(lists[l], k) <==> x in lists[l] && x != lists[l][k]
    ensures Loose(lists[l := Without(lists[l], k)], lists[l][k])
  {
    var s, s' := lists[l], Without(lists[l], k);
    forall x: nat | x in s && x != s[k] ensures x in s' {
      var j :| 0 <= j < |s| && s[j] == x;
      assert s'[if j < k then j else j - 1] == x;
    }
    forall l' | 0 <= l' < |lists| && l' != l ensures lists[l][k] !in lists[l'] {
      forall k' | 0 <= k' < |lists[l']| ensures lists[l'][k'] != lists[l][k] { }
    }
  }
}
