/** Reaching a goal by steps that lower a rank, for any kind of state. */
module Reachability {
  ghost predicate Chain<S(!new)>(step: iset<(S, S)>, path: seq<S>) {
    |path| > 0 && forall i :: 0 <= i < |path| - 1 ==> (path[i], path[i + 1]) in step
  }

  /** Every good state short of the goal has a good successor of lower rank. */
  ghost predicate Progresses<S(!new)>(step: iset<(S, S)>, good: iset<S>, goal: iset<S>, rank: S -> nat) {
    forall x :: x in good && x !in goal ==> exists y :: (x, y) in step && y in good && rank(y) < rank(x)
  }

  lemma {:induction false} Exhaust<S(!new)>(step: iset<(S, S)>, good: iset<S>, goal: iset<S>, rank: S -> nat, s: S)
    returns (path: seq<S>)
    requires s in good && Progresses(step, good, goal, rank)
    ensures Chain(step, path) && path[0] == s && path[|path| - 1] in goal
    ensures forall i :: 0 <= i < |path| ==> path[i] in good
    decreases rank(s)
  {
    if s in goal {
      path := [s];
    } else {
      var y :| (s, y) in step && y in good && rank(y) < rank(s);
      path := Exhaust(step, good, goal, rank, y);
      ChainCons(step, s, path);
      path := [s] + path;
    }
  }

  lemma ChainCons<S(!new)>(step: iset<(S, S)>, s: S, path: seq<S>)
    requires Chain(step, path) && (s, path[0]) in step
    ensures Chain(step, [s] + path)
  {
    var path' := [s] + path;
    forall i | 0 <= i < |path'| - 1 ensures (path'[i], path'[i + 1]) in step {
      if i > 0 {
        assert (path[i - 1], path[i - 1 + 1]) in step;
      }
    }
  }

  lemma ChainJoin<S(!new)>(step: iset<(S, S)>, a: seq<S>, b: seq<S>)
    requires Chain(step, a) && Chain(step, b) && a[|a| - 1] == b[0]
    ensures Chain(step, a + b[1..])
  {
    var path := a + b[1..];
    forall i | 0 <= i < |path| - 1 ensures (path[i], path[i + 1]) in step {
      if i < |a| - 1 {
        assert (a[i], a[i + 1]) in step;
      } else {
        assert path[i] == b[i - |a| + 1] && path[i + 1] == b[i - |a| + 1 + 1];
      }
    }
  }

  // ----- the sum of the ranks of a table -----

  ghost function Total(m: map<nat, nat>): nat
    decreases |m|
  {
    if m == map[] then 0
    else
      var k :| k in m;
      Smaller(m, k);
      m[k] + Total(m - {k})
  }

  lemma Smaller(m: map<nat, nat>, k: nat)
    requires k in m
    ensures |m - {k}| == |m| - 1
  {
    assert (m - {k}).Keys == m.Keys - {k};
    assert |m| == |m.Keys| && |m - {k}| == |(m - {k}).Keys|;
  }

  /** Any entry can be taken out first. */
  lemma {:induction false} TotalWithout(m: map<nat, nat>, k: nat)
    requires k in m
    ensures Total(m) == m[k] + Total(m - {k})
    decreases |m|
  {
    var l :| l in m && Total(m) == m[l] + Total(m - {l});
    if l != k {
      Smaller(m, l);
      Smaller(m, k);
      TotalWithout(m - {l}, k);
      TotalWithout(m - {k}, l);
      assert (m - {l}) - {k} == (m - {k}) - {l};
    }
  }

  lemma TotalUpdate(m: map<nat, nat>, k: nat, v: nat)
    requires k in m
    ensures Total(m[k := v]) == Total(m) - m[k] + v
  {
    TotalWithout(m, k);
    TotalWithout(m[k := v], k);
    assert m[k := v] - {k} == m - {k};
  }

  lemma TotalAdd(m: map<nat, nat>, k: nat, v: nat)
    requires k !in m
    ensures Total(m[k := v]) == Total(m) + v
  {
    TotalWithout(m[k := v], k);
    assert m[k := v] - {k} == m;
  }

  lemma {:induction false} Unused(s: set<nat>) returns (k: nat)
    ensures forall j :: j in s ==> j < k
  {
    if s == {} {
      k := 0;
    } else {
      var x :| x in s;
      k := Unused(s - {x});
      k := if k <= x then x + 1 else k;
      assert forall j :: j in s ==> j == x || j in s - {x};
    }
  }
}
