/** Removing a set of positions from a sequence the way MudFight's
    `attack_enemy_collision_response` removes enemies from a `Vec`: collect the
    indices, `sort_unstable`, `dedup`, then `Vec::remove` from the highest index
    down so that earlier removals never shift a later target. */
module IndexRemoval {

  /** The elements of `s[lo..hi]` whose positions are not in `doomed`, in order. */
  function Keep<T>(s: seq<T>, doomed: set<nat>, lo: nat, hi: nat): seq<T>
    requires lo <= hi <= |s|
    decreases hi - lo
  {
    if lo == hi then []
    else Keep(s, doomed, lo, hi - 1) + (if hi - 1 in doomed then [] else [s[hi - 1]])
  }

  /** The sequence with every position in `doomed` removed and the rest kept in
      their original relative order. */
  function Survivors<T>(s: seq<T>, doomed: set<nat>): seq<T> {
    Keep(s, doomed, 0, |s|)
  }

  lemma {:induction false} KeepSplit<T>(s: seq<T>, doomed: set<nat>, lo: nat, mid: nat, hi: nat)
    requires lo <= mid <= hi <= |s|
    ensures Keep(s, doomed, lo, hi) == Keep(s, doomed, lo, mid) + Keep(s, doomed, mid, hi)
    decreases hi - mid
  {
    if mid < hi {
      KeepSplit(s, doomed, lo, mid, hi - 1);
    }
  }

  /** A stretch with no doomed position survives whole. */
  lemma {:induction false} KeepNoDrop<T>(s: seq<T>, doomed: set<nat>, lo: nat, hi: nat)
    requires lo <= hi <= |s|
    requires forall i :: lo <= i < hi ==> i !in doomed
    ensures Keep(s, doomed, lo, hi) == s[lo..hi]
    decreases hi - lo
  {
    if lo < hi {
      KeepNoDrop(s, doomed, lo, hi - 1);
      assert s[lo..hi] == s[lo..hi - 1] + [s[hi - 1]];
    }
  }

  /** Only the doomed positions inside the stretch matter. */
  lemma {:induction false} KeepCongruent<T>(s: seq<T>, d1: set<nat>, d2: set<nat>, lo: nat, hi: nat)
    requires lo <= hi <= |s|
    requires forall i :: lo <= i < hi ==> (i in d1 <==> i in d2)
    ensures Keep(s, d1, lo, hi) == Keep(s, d2, lo, hi)
    decreases hi - lo
  {
    if lo < hi {
      KeepCongruent(s, d1, d2, lo, hi - 1);
    }
  }

  /** With no doomed position below `x`, the survivors are the prefix up to
      `x`, then `s[x]` unless it is doomed, then the survivors after it. */
  lemma SplitAround<T>(s: seq<T>, doomed: set<nat>, x: nat)
    requires x < |s|
    requires forall i :: 0 <= i < x ==> i !in doomed
    ensures Survivors(s, doomed) ==
      s[..x] + (if x in doomed then [] else [s[x]]) + Keep(s, doomed, x + 1, |s|)
  {
    KeepSplit(s, doomed, 0, x, |s|);
    KeepSplit(s, doomed, x, x + 1, |s|);
    KeepNoDrop(s, doomed, 0, x);
    assert Keep(s, doomed, x, x + 1) == (if x in doomed then [] else [s[x]]);
  }

  /** Removing position `x` from the survivors of a set whose members all lie
      above `x` is the same as dooming `x` as well. */
  lemma RemoveBelow<T>(s: seq<T>, doomed: set<nat>, x: nat)
    requires x < |s|
    requires forall i :: i in doomed ==> x < i
    ensures x < |Survivors(s, doomed)|
    ensures var r := Survivors(s, doomed);
      r[..x] + r[x + 1..] == Survivors(s, doomed + {x})
  {
    var d2 := doomed + {x};
    SplitAround(s, doomed, x);
    SplitAround(s, d2, x);
    KeepCongruent(s, doomed, d2, x + 1, |s|);
    var k := Keep(s, doomed, x + 1, |s|);
    var r := Survivors(s, doomed);
    assert r == s[..x] + [s[x]] + k;
    assert Survivors(s, d2) == s[..x] + k;
    assert r[..x] == s[..x];
    assert r[x + 1..] == k;
  }

  /** Exactly the doomed positions that exist are removed. */
  lemma {:induction false} SurvivorsLength<T>(s: seq<T>, doomed: set<nat>, hi: nat)
    requires hi <= |s|
    ensures |Keep(s, doomed, 0, hi)| == hi - |set i | i in doomed && i < hi|
  {
    var below := set i | i in doomed && i < hi;
    if hi > 0 {
      SurvivorsLength(s, doomed, hi - 1);
      var prev := set i | i in doomed && i < hi - 1;
      if hi - 1 in doomed {
        assert below == prev + {hi - 1};
      } else {
        assert below == prev;
      }
    } else {
      assert below == {};
    }
  }

  predicate Sorted(s: seq<nat>) {
    forall i, j :: 0 <= i < j < |s| ==> s[i] <= s[j]
  }

  predicate StrictlySorted(s: seq<nat>) {
    forall i, j :: 0 <= i < j < |s| ==> s[i] < s[j]
  }

  /** One insertion step: put `x` into sorted `r` after every element not above it. */
  method InsertSorted(r: seq<nat>, x: nat) returns (q: seq<nat>)
    requires Sorted(r)
    ensures Sorted(q)
    ensures multiset(q) == multiset(r) + multiset{x}
  {
    var j := 0;
    while j < |r| && r[j] <= x
      invariant 0 <= j <= |r|
      invariant forall k :: 0 <= k < j ==> r[k] <= x
    {
      j := j + 1;
    }
    assert forall k :: j <= k < |r| ==> x < r[k];
    assert r == r[..j] + r[j..];
    q := r[..j] + [x] + r[j..];
  }

  /** `sort_unstable` on the collected indices. */
  method SortIndices(s: seq<nat>) returns (r: seq<nat>)
    ensures Sorted(r)
    ensures multiset(r) == multiset(s)
  {
    r := [];
    for i := 0 to |s|
      invariant Sorted(r)
      invariant multiset(r) == multiset(s[..i])
    {
      r := InsertSorted(r, s[i]);
      assert s[..i + 1] == s[..i] + [s[i]];
    }
    assert s[..|s|] == s;
  }

  /** The values a sequence holds. */
  function Values(s: seq<nat>): set<nat> {
    set x | x in s
  }

  lemma ValuesAppend(s: seq<nat>, y: nat)
    ensures Values(s + [y]) == Values(s) + {y}
  {
  }

  /** `Vec::dedup`: drop every element equal to the one before it. On sorted
      input the result is strictly increasing; the set of values never changes. */
  method Dedup(s: seq<nat>) returns (r: seq<nat>)
    ensures forall i :: 0 <= i < |r| - 1 ==> r[i] != r[i + 1]
    ensures Sorted(s) ==> StrictlySorted(r)
    ensures Values(r) == Values(s)
    ensures |r| <= |s|
  {
    r := [];
    for i := 0 to |s|
      invariant forall k :: 0 <= k < |r| - 1 ==> r[k] != r[k + 1]
      invariant Sorted(s) ==> StrictlySorted(r)
      invariant Values(r) == Values(s[..i])
      invariant |r| <= i
      invariant i > 0 <==> |r| > 0
      invariant i > 0 ==> r[|r| - 1] == s[i - 1]
    {
      assert s[..i + 1] == s[..i] + [s[i]];
      ValuesAppend(s[..i], s[i]);
      if |r| == 0 || r[|r| - 1] != s[i] {
        ValuesAppend(r, s[i]);
        r := r + [s[i]];
      } else {
        assert s[i] in r;
      }
    }
    assert s[..|s|] == s;
  }
}
