/** Finding the latches that lie on a cycle, by a marked depth-first search from each. */
module LatchCycles {
  /** fanins[v] lists the fanins of object v. */
  type Graph = seq<seq<nat>>

  predicate InRange(g: Graph) {
    forall v, i | 0 <= v < |g| && 0 <= i < |g[v]| :: g[v][i] < |g|
  }

  predicate Edge(g: Graph, v: nat, w: nat) {
    v < |g| && w in g[v]
  }

  ghost predicate Path(g: Graph, path: seq<nat>) {
    path != [] && forall k: nat | k + 1 < |path| :: Edge(g, path[k], path[k + 1])
  }

  /** A path of at least one edge. */
  ghost predicate Leads(g: Graph, path: seq<nat>, v: nat, w: nat) {
    Path(g, path) && |path| > 1 && path[0] == v && path[|path| - 1] == w
  }

  /** The object can be reached from itself. */
  ghost predicate OnCycle(g: Graph, v: nat) {
    exists path: seq<nat> :: Leads(g, path, v, v)
  }

  /** The objects that carry a flag. */
  ghost function Flagged(flags: seq<int>, flag: int): (r: set<nat>)
    ensures forall v: nat :: v in r <==> v < |flags| && flags[v] == flag
  {
    if flags == [] then {} else
      var n := |flags| - 1;
      var r := Flagged(flags[..n], flag);
      if flags[n] == flag then r + {n} else r
  }

  /** All of v's fanins are flagged, and none is the target. */
  ghost predicate Exhausted(g: Graph, v: nat, target: nat, seen: set<nat>) {
    forall w: nat | Edge(g, v, w) :: w in seen && w != target
  }

  /** The first i fanins. */
  ghost predicate ExhaustedTo(g: Graph, v: nat, target: nat, seen: set<nat>, i: nat)
    requires v < |g| && i <= |g[v]|
  {
    forall k | 0 <= k < i :: g[v][k] in seen && g[v][k] != target
  }

  lemma MoreExhausted(g: Graph, target: nat, start: set<nat>, before: set<nat>, after: set<nat>)
    requires before <= after
    requires forall u | u in before - start :: Exhausted(g, u, target, before)
    requires forall u | u in after - before :: Exhausted(g, u, target, after)
    ensures forall u | u in after - start :: Exhausted(g, u, target, after)
  {
    forall u | u in after - start ensures Exhausted(g, u, target, after) {
      if u in before {
        assert Exhausted(g, u, target, before);
      }
    }
  }

  lemma OneStep(g: Graph, v: nat, w: nat)
    requires Edge(g, v, w)
    ensures Leads(g, [v, w], v, w)
  {
  }

  lemma Prepend(g: Graph, v: nat, u: nat, w: nat, path: seq<nat>)
    requires Edge(g, v, u) && Leads(g, path, u, w)
    ensures Leads(g, [v] + path, v, w)
  {
    var longer := [v] + path;
    forall k: nat | k + 1 < |longer| ensures Edge(g, longer[k], longer[k + 1]) {
      if k > 0 {
        assert Edge(g, path[k - 1], path[k - 1 + 1]);
      }
    }
  }

  lemma {:induction false} StaysSeen(g: Graph, target: nat, seen: set<nat>, path: seq<nat>, k: nat)
    requires Path(g, path) && path[0] in seen && k < |path| && forall u | u in seen :: Exhausted(g, u, target, seen)
    ensures path[k] in seen && (k > 0 ==> path[k] != target)
  {
    if k > 0 {
      StaysSeen(g, target, seen, path, k - 1);
      assert Edge(g, path[k - 1], path[k - 1 + 1]);
      assert Exhausted(g, path[k - 1], target, seen);
    }
  }

  /** Latches on cycles, in their order. */
  ghost function CyclicLatches(g: Graph, latches: seq<nat>): seq<nat> {
    if latches == [] then []
    else CyclicLatches(g, latches[..|latches| - 1]) + (if OnCycle(g, latches[|latches| - 1]) then [latches[|latches| - 1]] else [])
  }

  lemma {:induction false} CyclicExact(g: Graph, latches: seq<nat>, v: nat)
    ensures v in CyclicLatches(g, latches) <==> v in latches && OnCycle(g, v)
  {
    hide OnCycle;
    if latches != [] {
      var n := |latches| - 1;
      CyclicExact(g, latches[..n], v);
      assert latches == latches[..n] + [latches[n]];
    }
  }

  class Network {
    const g: Graph
    var flag: seq<int>

    constructor (g: Graph)
      ensures this.g == g && |flag| == |g|
    {
      this.g := g;
      flag := seq(|g|, _ => 0);
    }

    /**
     * True, with a path to the target, or false, with everything newly flagged exhausted. An object that already
     * carries the flag is not searched again.
     */
    method InCycle(target: nat, start: nat, mark: int) returns (found: bool, ghost path: seq<nat>)
      requires InRange(g) && |flag| == |g| && start < |g|
      modifies this`flag
      ensures |flag| == |g| && Flagged(old(flag), mark) <= Flagged(flag, mark)
      ensures forall v: nat | v < |g| && flag[v] != old(flag)[v] :: flag[v] == mark
      ensures found ==> Leads(g, path, start, target)
      ensures !found ==> start in Flagged(flag, mark)
      ensures !found ==> forall u | u in Flagged(flag, mark) - Flagged(old(flag), mark) :: Exhausted(g, u, target, Flagged(flag, mark))
      decreases |g| - |Flagged(flag, mark)|
    {
      hide *;
      path := [];
      FlaggedSize(flag, mark);
      if flag[start] == mark {
        return false, path;
      }
      ghost var none := Flagged(flag, mark);
      flag := flag[start := mark];
      ghost var seen := Flagged(flag, mark);
      AddFlag(old(flag), start, mark);
      NoFanins(g, start, target, seen);
      for i := 0 to |g[start]|
        invariant |flag| == |g| && seen <= Flagged(flag, mark)
        invariant Flagged(old(flag), mark) == none && seen == none + {start} && start !in none
        invariant forall v: nat | v < |g| && flag[v] != old(flag)[v] :: flag[v] == mark
        invariant ExhaustedTo(g, start, target, Flagged(flag, mark), i)
        invariant forall u | u in Flagged(flag, mark) - seen :: Exhausted(g, u, target, Flagged(flag, mark))
      {
        var fanin := g[start][i];
        FaninEdge(g, start, i);
        if fanin == target {
          OneStep(g, start, fanin);
          return true, [start, fanin];
        }
        ghost var before := Flagged(flag, mark);
        SmallerRest(flag, mark, none, start);
        found, path := InCycle(target, fanin, mark);
        if found {
          Prepend(g, start, fanin, target, path);
          path := [start] + path;
          return;
        }
        MoreExhausted(g, target, seen, before, Flagged(flag, mark));
        NextFanin(g, start, target, before, Flagged(flag, mark), i);
      }
      AllFanins(g, start, target, Flagged(flag, mark));
      return false, path;
    }

    /** One search per latch, each with a flag of its own. */
    method LatchesInCycles(latches: seq<nat>) returns (r: seq<nat>)
      requires InRange(g) && |flag| == |g| && forall i | 0 <= i < |latches| :: latches[i] < |g|
      modifies this`flag
      ensures r == CyclicLatches(g, latches)
    {
      hide OnCycle, Exhausted;
      for i := 0 to |g|
        invariant |flag| == |g| && forall v: nat | v < i :: flag[v] == -1
      {
        flag := flag[i := -1];
      }
      r := [];
      for passNum := 0 to |latches|
        invariant |flag| == |g| && (forall v: nat | v < |g| :: flag[v] < passNum)
        invariant r == CyclicLatches(g, latches[..passNum])
      {
        var latch := latches[passNum];
        ghost var none := Flagged(flag, passNum);
        assert none == {};
        ghost var path;
        var found;
        found, path := InCycle(latch, latch, passNum);
        FoundExact(g, latch, Flagged(flag, passNum), found, path);
        if found {
          r := r + [latch];
        }
        assert latches[..passNum + 1][..passNum] == latches[..passNum];
      }
      assert latches[..|latches|] == latches;
    }
  }

  /** A search that starts with nothing flagged finds the latch exactly when it lies on a cycle. */
  lemma FoundExact(g: Graph, latch: nat, seen: set<nat>, found: bool, path: seq<nat>)
    requires found ==> Leads(g, path, latch, latch)
    requires !found ==> latch in seen && forall u | u in seen :: Exhausted(g, u, latch, seen)
    ensures found <==> OnCycle(g, latch)
  {
    hide Exhausted;
    if !found {
      forall p: seq<nat> ensures !Leads(g, p, latch, latch) {
        if Leads(g, p, latch, latch) {
          StaysSeen(g, latch, seen, p, |p| - 1);
        }
      }
    }
  }

  lemma AddFlag(flags: seq<int>, v: nat, mark: int)
    requires v < |flags| && flags[v] != mark
    ensures Flagged(flags[v := mark], mark) == Flagged(flags, mark) + {v} && v !in Flagged(flags, mark)
  {
  }

  lemma FaninEdge(g: Graph, v: nat, i: nat)
    requires InRange(g) && v < |g| && i < |g[v]|
    ensures Edge(g, v, g[v][i]) && g[v][i] < |g|
  {
  }

  lemma NoFanins(g: Graph, v: nat, target: nat, seen: set<nat>)
    requires v < |g|
    ensures ExhaustedTo(g, v, target, seen, 0)
  {
  }

  lemma NextFanin(g: Graph, v: nat, target: nat, before: set<nat>, after: set<nat>, i: nat)
    requires v < |g| && i < |g[v]| && ExhaustedTo(g, v, target, before, i) && before <= after
    requires g[v][i] in after && g[v][i] != target
    ensures ExhaustedTo(g, v, target, after, i + 1)
  {
  }

  lemma AllFanins(g: Graph, v: nat, target: nat, seen: set<nat>)
    requires v < |g| && ExhaustedTo(g, v, target, seen, |g[v]|)
    ensures Exhausted(g, v, target, seen)
  {
  }

  lemma {:induction false} FlaggedSize(flags: seq<int>, flag: int)
    ensures |Flagged(flags, flag)| <= |flags|
  {
    if flags != [] {
      FlaggedSize(flags[..|flags| - 1], flag);
    }
  }

  /** Flagging one more object leaves fewer to flag. */
  lemma SmallerRest(flags: seq<int>, flag: int, none: set<nat>, v: nat)
    requires v !in none && none + {v} <= Flagged(flags, flag)
    ensures |none| < |Flagged(flags, flag)| <= |flags|
  {
    FlaggedSize(flags, flag);
    Larger(none + {v}, Flagged(flags, flag));
  }

  lemma {:induction false} Larger(a: set<nat>, b: set<nat>)
    requires a <= b
    ensures |a| <= |b|
  {
    if a != {} {
      var x :| x in a;
      Larger(a - {x}, b - {x});
    }
  }
}
