/** The in-place shuffle, and the count of its outcomes. */
module Shuffle {
  import opened Kube
  import opened Sequences

  function Swapped<T>(s: seq<T>, i: nat, j: nat): (r: seq<T>)
    requires i < |s| && j < |s|
    ensures |r| == |s|
  {
    s[i := s[j]][j := s[i]]
  }

  /** One choice c[i] in [0, i] for each place; the place 0 has no choice. */
  ghost predicate Choices(c: seq<nat>) {
    forall i :: 0 <= i < |c| ==> c[i] <= i
  }

  /** The swaps for places n-1 down to 1. */
  function Shuffled<T>(s: seq<T>, c: seq<nat>, n: nat): (r: seq<T>)
    requires n <= |s| && n <= |c| && forall i :: 0 <= i < n ==> c[i] <= i
    ensures |r| == |s|
    decreases n
  {
    if n <= 1 then s else Shuffled(Swapped(s, n - 1, c[n - 1]), c, n - 1)
  }

  /** The draws of the generator, in the order they are made; the k-th is reduced to the range asked for. A draw may
      fail. */
  type Draws = nat -> Option<nat>

  /** The draws from number `start` to before number `end` succeed. */
  ghost predicate Succeed(draws: Draws, start: nat, end: int) {
    forall m :: start <= m < end ==> draws(m).Some?
  }

  /** The choices a shuffle of n elements makes when its first draw is the k-th. */
  function ChoicesFrom(draws: Draws, k: nat, n: nat): (c: seq<nat>)
    ensures |c| == n && Choices(c)
  {
    seq(n, i requires 0 <= i < n => draws(k + n - 1 - i).GetOr(0) % (i + 1))
  }

  const MAX_INT31 := 0x8000_0000 - 1

  method Swap<T>(a: array<T>, i: nat, j: nat)
    requires i < a.Length && j < a.Length
    modifies a
    ensures a[..] == Swapped(old(a[..]), i, j)
  {
    a[i], a[j] := a[j], a[i];
  }

  lemma ChoiceAt(draws: Draws, k: nat, n: nat, i: nat, next: nat)
    requires i < n && next == k + n - 1 - i
    ensures ChoicesFrom(draws, k, n)[i] == draws(next).GetOr(0) % (i + 1) <= i
  {
  }

  lemma OneMore(draws: Draws, k: nat, next: nat)
    requires Succeed(draws, k, next) && draws(next).Some?
    ensures Succeed(draws, k, next + 1)
  {
  }

  /** Both loops: one for places from 2^31 - 1 on, one for the rest. A failed draw yields no number, and using it
      panics. */
  method LocalCryptoShuffle<T>(a: array<T>, draws: Draws, k: nat) returns (panicked: bool)
    modifies a
    ensures panicked <==> a.Length > 0 && !Succeed(draws, k, k + a.Length - 1)
    ensures !panicked ==> a[..] == Shuffled(old(a[..]), ChoicesFrom(draws, k, a.Length), a.Length)
  {
    ghost var c, n := ChoicesFrom(draws, k, a.Length), a.Length;
    var i, next := a.Length - 1, k;
    while i > MAX_INT31 - 1
      invariant -1 <= i < a.Length && next == k + n - 1 - i && (i < 0 ==> n == 0)
      invariant Succeed(draws, k, next)
      invariant Shuffled(a[..], c, i + 1) == Shuffled(old(a[..]), c, n)
    {
      if draws(next).None? {
        return true;
      }
      ChoiceAt(draws, k, n, i, next);
      OneMore(draws, k, next);
      Swap(a, i, draws(next).value % (i + 1));
      i, next := i - 1, next + 1;
    }
    while i > 0
      invariant -1 <= i < a.Length && next == k + n - 1 - i && (i < 0 ==> n == 0)
      invariant Succeed(draws, k, next)
      invariant Shuffled(a[..], c, i + 1) == Shuffled(old(a[..]), c, n)
    {
      if draws(next).None? {
        return true;
      }
      ChoiceAt(draws, k, n, i, next);
      OneMore(draws, k, next);
      Swap(a, i, draws(next).value % (i + 1));
      i, next := i - 1, next + 1;
    }
    return false;
  }

  /** Every choice sequence can be drawn. */
  lemma EveryChoiceCanBeDrawn(c: seq<nat>, k: nat) returns (draws: Draws)
    requires Choices(c)
    ensures Succeed(draws, k, k + |c|) && ChoicesFrom(draws, k, |c|) == c
  {
    draws := m => Some(if k <= m < k + |c| then c[k + |c| - 1 - m] else 0);
    forall i | 0 <= i < |c| ensures ChoicesFrom(draws, k, |c|)[i] == c[i] {
      assert draws(k + |c| - 1 - i).GetOr(0) == c[i] <= i;
    }
  }

  // ---- a shuffle permutes ----

  lemma SwapPermutes<T>(s: seq<T>, i: nat, j: nat)
    requires i < |s| && j < |s|
    ensures multiset(Swapped(s, i, j)) == multiset(s)
  {
  }

  lemma {:induction false} ShufflePermutes<T>(s: seq<T>, c: seq<nat>, n: nat)
    requires n <= |s| && n <= |c| && forall i :: 0 <= i < n ==> c[i] <= i
    ensures multiset(Shuffled(s, c, n)) == multiset(s)
    ensures Shuffled(s, c, n)[n..] == s[n..]
    decreases n
  {
    if n > 1 {
      ShufflePermutes(Swapped(s, n - 1, c[n - 1]), c, n - 1);
      SwapPermutes(s, n - 1, c[n - 1]);
      var r := Shuffled(s, c, n);
      assert r[n - 1..][1..] == r[n..];
      assert Swapped(s, n - 1, c[n - 1])[n - 1..][1..] == s[n..];
    }
  }

  // ---- and each permutation comes from exactly one choice sequence ----

  /** The places from n on are settled and those below hold the same elements in some order. */
  ghost predicate PermutesBelow<T>(s: seq<T>, t: seq<T>, n: nat) {
    n <= |s| == |t| && s[n..] == t[n..] && multiset(s[..n]) == multiset(t[..n])
  }

  /** Place n-1 ends up with the element chosen for it. */
  lemma LastIsChosen<T>(s: seq<T>, c: seq<nat>, n: nat)
    requires 0 < n <= |s| && n <= |c| && forall i :: 0 <= i < n ==> c[i] <= i
    ensures Shuffled(s, c, n)[n - 1] == s[c[n - 1]]
  {
    if n > 1 {
      var s' := Swapped(s, n - 1, c[n - 1]);
      ShufflePermutes(s', c, n - 1);
      var r := Shuffled(s', c, n - 1);
      assert r[n - 1] == r[n - 1..][0] == s'[n - 1..][0];
    }
  }

  /** Two choice sequences with the same outcome are the same. */
  lemma {:induction false} ShuffleInjective<T>(s: seq<T>, c: seq<nat>, d: seq<nat>, n: nat)
    requires n <= |s| && NoDup(s) && n <= |c| && n <= |d|
    requires (forall i :: 0 <= i < n ==> c[i] <= i) && (forall i :: 0 <= i < n ==> d[i] <= i)
    requires Shuffled(s, c, n) == Shuffled(s, d, n)
    ensures c[..n] == d[..n]
    decreases n
  {
    if n > 0 {
      LastIsChosen(s, c, n);
      LastIsChosen(s, d, n);
      assert c[n - 1] == d[n - 1];
      if n > 1 {
        ShuffleInjective(Swapped(s, n - 1, c[n - 1]), c, d, n - 1);
      } else {
        assert c[..0] == d[..0];
      }
      assert c[..n] == c[..n - 1] + [c[n - 1]] && d[..n] == d[..n - 1] + [d[n - 1]];
    }
  }

  /** The choices c lead from s to t. */
  ghost predicate Leads<T>(s: seq<T>, c: seq<nat>, t: seq<T>) {
    |c| <= |s| && Choices(c) && Shuffled(s, c, |c|) == t
  }

  /** Any rearrangement is the outcome of some choices. */
  lemma {:induction false} ShuffleSurjective<T>(s: seq<T>, t: seq<T>, n: nat) returns (c: seq<nat>)
    requires PermutesBelow(s, t, n)
    ensures |c| == n && Leads(s, c, t)
    decreases n
  {
    if n <= 1 {
      c := NoChoice(s, t, n);
    } else {
      var j := PlaceOf(s, t, n);
      StillPermutes(s, t, n - 1, j, Swapped(s, n - 1, j));
      var front := ShuffleSurjective(Swapped(s, n - 1, j), t, n - 1);
      c := ChooseLast(s, t, front, j);
    }
  }

  lemma NoChoice<T>(s: seq<T>, t: seq<T>, n: nat) returns (c: seq<nat>)
    requires PermutesBelow(s, t, n) && n <= 1
    ensures |c| == n && Leads(s, c, t)
  {
    c := if n == 0 then [] else [0];
    assert s == s[..n] + s[n..] && t == t[..n] + t[n..];
    if n == 1 {
      assert s[..1] == [s[0]] && t[..1] == [t[0]];
      assert s[0] in multiset(t[..1]);
    }
  }

  lemma PlaceOf<T>(s: seq<T>, t: seq<T>, n: nat) returns (j: nat)
    requires PermutesBelow(s, t, n) && n > 0
    ensures j < n && s[j] == t[n - 1]
  {
    assert t[..n][n - 1] in multiset(s[..n]);
    j :| 0 <= j < n && s[..n][j] == t[n - 1];
  }

  lemma ChooseLast<T>(s: seq<T>, t: seq<T>, front: seq<nat>, j: nat) returns (c: seq<nat>)
    requires 0 < |front| < |s| && j <= |front| && Leads(Swapped(s, |front|, j), front, t)
    ensures |c| == |front| + 1 && Leads(s, c, t)
  {
    c := front + [j];
    assert c[..|front|] == front == front[..|front|];
    SamePrefix(Swapped(s, |front|, j), front, c, |front|);
  }

  lemma {:induction false} SamePrefix<T>(s: seq<T>, c: seq<nat>, d: seq<nat>, n: nat)
    requires n <= |s| && n <= |c| && n <= |d| && c[..n] == d[..n]
    requires forall i :: 0 <= i < n ==> c[i] <= i
    ensures forall i :: 0 <= i < n ==> d[i] == c[i]
    ensures Shuffled(s, c, n) == Shuffled(s, d, n)
    decreases n
  {
    forall i | 0 <= i < n ensures d[i] == c[i] { assert d[..n][i] == c[..n][i]; }
    if n > 1 {
      assert c[..n - 1] == c[..n][..n - 1] && d[..n - 1] == d[..n][..n - 1];
      SamePrefix(Swapped(s, n - 1, c[n - 1]), c, d, n - 1);
    }
  }

  /** Two lists that agree on a place and hold the same elements up to it hold the same elements below it. */
  lemma SameBelow<T>(r: seq<T>, t: seq<T>, m: nat)
    requires m < |r| && m < |t| && r[m] == t[m] && multiset(r[..m + 1]) == multiset(t[..m + 1])
    ensures multiset(r[..m]) == multiset(t[..m])
  {
    assert r[..m + 1] == r[..m] + [r[m]] && t[..m + 1] == t[..m] + [t[m]];
    assert multiset(r[..m]) == multiset(r[..m + 1]) - multiset{r[m]};
    assert multiset(t[..m]) == multiset(t[..m + 1]) - multiset{t[m]};
  }

  lemma SameFrom<T>(r: seq<T>, t: seq<T>, m: nat)
    requires m < |r| == |t| && r[m] == t[m] && r[m + 1..] == t[m + 1..]
    ensures r[m..] == t[m..]
  {
    assert r[m..] == [r[m]] + r[m + 1..] && t[m..] == [t[m]] + t[m + 1..];
  }

  lemma SwapsWithin<T>(s: seq<T>, n: nat, i: nat, j: nat)
    requires i < n <= |s| && j < n
    ensures multiset(Swapped(s, i, j)[..n]) == multiset(s[..n]) && Swapped(s, i, j)[n..] == s[n..]
  {
    assert Swapped(s, i, j)[..n] == Swapped(s[..n], i, j);
    SwapPermutes(s[..n], i, j);
  }

  lemma StillPermutes<T>(s: seq<T>, t: seq<T>, m: nat, j: nat, r: seq<T>)
    requires PermutesBelow(s, t, m + 1) && j <= m && s[j] == t[m] && r == Swapped(s, m, j)
    ensures PermutesBelow(r, t, m)
  {
    SwapsWithin(s, m + 1, m, j);
    SameBelow(r, t, m);
    SameFrom(r, t, m);
  }

  /** The shuffle of n distinct elements is a bijection between choice sequences and permutations, so uniform
      choices give each permutation the same chance. */
  lemma ShuffleBijection<T>(s: seq<T>, t: seq<T>) returns (c: seq<nat>)
    requires NoDup(s) && multiset(t) == multiset(s)
    ensures |c| == |s| && Leads(s, c, t)
    ensures forall d: seq<nat> :: |d| == |s| && Leads(s, d, t) ==> d == c
  {
    NoDupPermutes(s, t);
    assert s[..|s|] == s && t[..|s|] == t;
    c := ShuffleSurjective(s, t, |s|);
    forall d: seq<nat> | |d| == |s| && Leads(s, d, t) ensures d == c {
      ShuffleInjective(s, c, d, |s|);
      assert c[..|s|] == c && d[..|s|] == d;
    }
  }
}
