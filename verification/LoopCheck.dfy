/** The depth-first check, after levelizing, that everything reachable has a level. */
module LoopCheck {
  import opened Options
  import opened Netlist
  import opened Levelize
  import opened LevelPaths

  /** A net of u has a pin of v among its fanouts. */
  ghost predicate Feeds(g: Netlist, u: nat, v: nat) {
    exists s: Spot, i: nat :: s.node == u && SpotOf(g, s, Pin(v, i))
  }

  /** A combinational node without a level. */
  predicate Unlevelled(g: Netlist, level: seq<int>, v: nat) {
    v < |g.nodes| == |level| && level[v] == -1 && !g.nodes[v].isFF
  }

  ghost predicate Path(g: Netlist, path: seq<nat>) {
    path != [] && forall k: nat | k + 1 < |path| :: Feeds(g, path[k], path[k + 1])
  }

  /** All of u's fanouts are visited, and have levels. */
  ghost predicate Cleared(g: Netlist, level: seq<int>, u: nat, visited: set<nat>) {
    forall v: nat | Feeds(g, u, v) :: v in visited && !Unlevelled(g, level, v)
  }

  function Below(n: nat): (r: set<nat>)
    ensures forall v: nat :: v in r <==> v < n
  {
    if n == 0 then {} else Below(n - 1) + {n - 1}
  }

  function Nodes(g: Netlist): set<nat> {
    Below(|g.nodes|)
  }

  predicate Earlier(s: Spot, j: nat, k: nat) {
    s.output < j || (s.output == j && s.fanout < k)
  }

  /** The fanouts before fanout k of output j are visited, and have levels. */
  ghost predicate ClearedTo(g: Netlist, level: seq<int>, u: nat, visited: set<nat>, j: nat, k: nat) {
    forall s: Spot, p: Pin | SpotOf(g, s, p) && s.node == u && Earlier(s, j, k) ::
      p.node in visited && !Unlevelled(g, level, p.node)
  }

  class Checker {
    const g: Netlist
    const level: seq<int>
    /** The nodes marked with the traversal's number. */
    var visited: set<nat>

    constructor (g: Netlist, level: seq<int>)
      ensures this.g == g && this.level == level && visited == {}
    {
      this.g := g;
      this.level := level;
      visited := {};
    }

    /** Fails with a path from the node to one without a level; or clears everything it newly visits. */
    method Traverse(node: nat) returns (ok: bool, ghost path: seq<nat>)
      requires WellFormed(g) && |level| == |g.nodes| && node < |g.nodes| && visited <= Nodes(g)
      modifies this`visited
      ensures old(visited) <= visited <= Nodes(g)
      ensures ok ==> node in visited && forall u | u in visited - old(visited) :: Cleared(g, level, u, visited)
      ensures !ok ==> Path(g, path) && path[0] == node && |path| > 1 && Unlevelled(g, level, path[|path| - 1])
      decreases Nodes(g) - visited
    {
      hide WellFormed, Path, Cleared, ClearedTo, Feeds, SpotOf;
      path := [];
      if node in visited {
        return true, path;
      }
      visited := visited + {node};
      ghost var start := visited;
      StartClear(g, level, node, visited);
      for i := 0 to |g.nodes[node].nets|
        invariant start <= visited <= Nodes(g) && ClearedTo(g, level, node, visited, i, 0)
        invariant forall u | u in visited - start :: Cleared(g, level, u, visited)
      {
        for j := 0 to |g.nodes[node].nets[i]|
          invariant start <= visited <= Nodes(g) && ClearedTo(g, level, node, visited, i, j)
          invariant forall u | u in visited - start :: Cleared(g, level, u, visited)
        {
          ghost var before := visited;
          var pin := g.nodes[node].nets[i][j];
          if pin.Some? {
            var next := pin.value.node;
            FanoutFeeds(g, node, i, j);
            if level[next] == -1 && !g.nodes[next].isFF {
              OneStep(g, node, next);
              return false, [node, next];
            }
            ok, path := Traverse(next);
            if !ok {
              Prepend(g, node, path);
              path := [node] + path;
              return;
            }
            MoreClear(g, level, start, before, visited);
            ClearPin(g, level, node, before, visited, i, j);
          } else {
            ClearGap(g, level, node, visited, i, j);
          }
        }
        ClearNet(g, level, node, visited, i);
      }
      NodeClear(g, level, node, visited);
      return true, path;
    }

    /** From every top input there is, then ground, then supply. */
    method Check() returns (ok: bool, ghost path: seq<nat>)
      requires WellFormed(g) && |level| == |g.nodes| && visited == {}
      modifies this`visited
      ensures ok ==> forall i | 0 <= i < |g.topInputs| && g.topInputs[i].Some? :: g.topInputs[i].value in visited
      ensures ok ==> (g.gnd.Some? ==> g.gnd.value in visited) && (g.vcc.Some? ==> g.vcc.value in visited)
      ensures ok ==> forall u | u in visited :: Cleared(g, level, u, visited)
      ensures !ok ==> Path(g, path) && |path| > 1 && Unlevelled(g, level, path[|path| - 1])
                      && (Some(path[0]) in g.topInputs || g.gnd == Some(path[0]) || g.vcc == Some(path[0]))
    {
      hide WellFormed, Path, Cleared, Feeds, SpotOf;
      path := [];
      StartsInRange(g);
      for i := 0 to |g.topInputs|
        invariant visited <= Nodes(g)
        invariant forall k | 0 <= k < i && g.topInputs[k].Some? :: g.topInputs[k].value in visited
        invariant forall u | u in visited :: Cleared(g, level, u, visited)
      {
        ok, path := StartFrom(g.topInputs[i]);
        if !ok {
          return;
        }
      }
      ok, path := StartFrom(g.gnd);
      if ok {
        ok, path := StartFrom(g.vcc);
      }
    }

    /** From one node, if it is there. */
    method StartFrom(start: Option<nat>) returns (ok: bool, ghost path: seq<nat>)
      requires WellFormed(g) && |level| == |g.nodes| && visited <= Nodes(g) && (start.Some? ==> start.value < |g.nodes|)
      requires forall u | u in visited :: Cleared(g, level, u, visited)
      modifies this`visited
      ensures old(visited) <= visited <= Nodes(g)
      ensures ok ==> (start.Some? ==> start.value in visited) && forall u | u in visited :: Cleared(g, level, u, visited)
      ensures !ok ==> Path(g, path) && start == Some(path[0]) && |path| > 1 && Unlevelled(g, level, path[|path| - 1])
    {
      hide WellFormed, Path, Cleared, Feeds, SpotOf;
      ok, path := true, [];
      if start.Some? {
        ghost var before := visited;
        ok, path := Traverse(start.value);
        if ok {
          MoreClear(g, level, {}, before, visited);
        }
      }
    }
  }

  lemma StartsInRange(g: Netlist)
    requires WellFormed(g)
    ensures forall i | 0 <= i < |g.topInputs| && g.topInputs[i].Some? :: g.topInputs[i].value < |g.nodes|
    ensures (g.gnd.Some? ==> g.gnd.value < |g.nodes|) && (g.vcc.Some? ==> g.vcc.value < |g.nodes|)
  {
    SourcesExact(g);
    assert forall v: nat | v in Sources(g) :: v < |g.nodes|;
    forall i | 0 <= i < |g.topInputs| && g.topInputs[i].Some? ensures g.topInputs[i].value < |g.nodes| {
      assert g.topInputs[i] == Some(g.topInputs[i].value);
      assert g.topInputs[i].value in Sources(g);
    }
  }

  lemma StartClear(g: Netlist, level: seq<int>, u: nat, visited: set<nat>)
    ensures ClearedTo(g, level, u, visited, 0, 0)
  {
  }

  lemma FanoutFeeds(g: Netlist, u: nat, j: nat, k: nat)
    requires WellFormed(g) && u < |g.nodes| && j < |g.nodes[u].nets| && k < |g.nodes[u].nets[j]| && g.nodes[u].nets[j][k].Some?
    ensures g.nodes[u].nets[j][k].value.node < |g.nodes| && Feeds(g, u, g.nodes[u].nets[j][k].value.node)
  {
    var p := g.nodes[u].nets[j][k].value;
    assert SpotOf(g, Spot(u, j, k), p);
    assert Pin(p.node, p.idx) == p;
  }

  lemma OneStep(g: Netlist, u: nat, v: nat)
    requires Feeds(g, u, v)
    ensures Path(g, [u, v])
  {
  }

  lemma Prepend(g: Netlist, u: nat, path: seq<nat>)
    requires Path(g, path) && Feeds(g, u, path[0])
    ensures Path(g, [u] + path)
  {
    var longer := [u] + path;
    forall k: nat | k + 1 < |longer| ensures Feeds(g, longer[k], longer[k + 1]) {
      if k > 0 {
        assert Feeds(g, path[k - 1], path[k - 1 + 1]);
      }
    }
  }

  /** What was clear stays clear as more is visited. */
  lemma MoreClear(g: Netlist, level: seq<int>, start: set<nat>, before: set<nat>, after: set<nat>)
    requires before <= after
    requires forall u | u in before - start :: Cleared(g, level, u, before)
    requires forall u | u in after - before :: Cleared(g, level, u, after)
    ensures forall u | u in after - start :: Cleared(g, level, u, after)
  {
    hide Feeds, Unlevelled;
    forall u | u in after - start ensures Cleared(g, level, u, after) {
      if u in before {
        assert Cleared(g, level, u, before);
      }
    }
  }

  lemma ClearPin(g: Netlist, level: seq<int>, u: nat, before: set<nat>, after: set<nat>, j: nat, k: nat)
    requires u < |g.nodes| && j < |g.nodes[u].nets| && k < |g.nodes[u].nets[j]| && g.nodes[u].nets[j][k].Some?
    requires ClearedTo(g, level, u, before, j, k) && before <= after
    requires g.nodes[u].nets[j][k].value.node in after && !Unlevelled(g, level, g.nodes[u].nets[j][k].value.node)
    ensures ClearedTo(g, level, u, after, j, k + 1)
  {
    hide Unlevelled;
  }

  lemma ClearGap(g: Netlist, level: seq<int>, u: nat, visited: set<nat>, j: nat, k: nat)
    requires u < |g.nodes| && j < |g.nodes[u].nets| && k < |g.nodes[u].nets[j]| && g.nodes[u].nets[j][k].None?
    requires ClearedTo(g, level, u, visited, j, k)
    ensures ClearedTo(g, level, u, visited, j, k + 1)
  {
    hide Unlevelled;
  }

  lemma ClearNet(g: Netlist, level: seq<int>, u: nat, visited: set<nat>, j: nat)
    requires u < |g.nodes| && j < |g.nodes[u].nets| && ClearedTo(g, level, u, visited, j, |g.nodes[u].nets[j]|)
    ensures ClearedTo(g, level, u, visited, j + 1, 0)
  {
    hide Unlevelled;
  }

  lemma NodeClear(g: Netlist, level: seq<int>, u: nat, visited: set<nat>)
    requires u < |g.nodes| && ClearedTo(g, level, u, visited, |g.nodes[u].nets|, 0)
    ensures Cleared(g, level, u, visited)
  {
    hide Unlevelled;
    forall v: nat | Feeds(g, u, v) ensures v in visited && !Unlevelled(g, level, v) {
      var s: Spot, i: nat :| s.node == u && SpotOf(g, s, Pin(v, i));
    }
  }

  // ----- What a passed check means -----

  lemma FedIsCombinational(g: Netlist, level: seq<int>, u: nat, v: nat)
    requires WellFormed(g) && Levelized(g, level) && Feeds(g, u, v) && !g.nodes[v].isFF && !Unlevelled(g, level, v)
    ensures u < |g.nodes| && v < |g.nodes| && 0 <= level[u] < level[v]
  {
    var s: Spot, i: nat :| s.node == u && SpotOf(g, s, Pin(v, i));
    assert Pin(v, i) in g.driver && g.driver[Pin(v, i)] == s;
    assert Combinational(g, v);
    LevelAboveDrivers(g, level, v);
  }

  /** Everything on a path from a visited node is visited. */
  lemma {:induction false} PathVisited(g: Netlist, level: seq<int>, visited: set<nat>, path: seq<nat>, k: nat)
    requires forall u | u in visited :: Cleared(g, level, u, visited)
    requires Path(g, path) && path[0] in visited && k < |path|
    ensures path[k] in visited && (k > 0 ==> !Unlevelled(g, level, path[k]))
  {
    if k > 0 {
      PathVisited(g, level, visited, path, k - 1);
      assert Feeds(g, path[k - 1], path[k - 1 + 1]);
      assert Cleared(g, level, path[k - 1], visited);
    }
  }

  /** The state after a passed check: its starting points are visited, and what is visited is clear. */
  ghost predicate Passed(g: Netlist, level: seq<int>, visited: set<nat>) {
    && (forall i | 0 <= i < |g.topInputs| && g.topInputs[i].Some? :: g.topInputs[i].value in visited)
    && (g.gnd.Some? ==> g.gnd.value in visited) && (g.vcc.Some? ==> g.vcc.value in visited)
    && (forall u | u in visited :: Cleared(g, level, u, visited))
  }

  /** A passed check: no path from a top input, ground or supply comes to a combinational node without a level. */
  lemma PassedExact(g: Netlist, level: seq<int>, visited: set<nat>, path: seq<nat>)
    requires Passed(g, level, visited) && Path(g, path) && |path| > 1
    requires Some(path[0]) in g.topInputs || g.gnd == Some(path[0]) || g.vcc == Some(path[0])
    ensures !Unlevelled(g, level, path[|path| - 1])
  {
    hide Cleared, Path;
    assert path[0] in visited;
    PathVisited(g, level, visited, path, |path| - 1);
  }

  lemma {:induction false} Climb(g: Netlist, level: seq<int>, visited: set<nat>, loop: seq<nat>, k: nat)
    requires WellFormed(g) && Levelized(g, level) && forall u | u in visited :: Cleared(g, level, u, visited)
    requires Path(g, loop) && loop[0] in visited && k < |loop|
    requires forall i | 1 <= i < |loop| :: loop[i] < |g.nodes| && !g.nodes[loop[i]].isFF
    ensures k > 0 ==> loop[0] < |level| && loop[k] < |level| && level[loop[0]] < level[loop[k]]
  {
    if k > 0 {
      Climb(g, level, visited, loop, k - 1);
      PathVisited(g, level, visited, loop, k);
      assert Feeds(g, loop[k - 1], loop[k - 1 + 1]);
      FedIsCombinational(g, level, loop[k - 1], loop[k]);
    }
  }

  /** After a passed check, every loop that can be reached from a top input, ground or supply goes through a flip-flop. */
  lemma LoopsHaveFlipFlops(g: Netlist, level: seq<int>, visited: set<nat>, path: seq<nat>, loop: seq<nat>)
    requires WellFormed(g) && Levelized(g, level) && Passed(g, level, visited) && Path(g, path)
    requires Some(path[0]) in g.topInputs || g.gnd == Some(path[0]) || g.vcc == Some(path[0])
    requires Path(g, loop) && |loop| > 1 && loop[0] == loop[|loop| - 1] == path[|path| - 1]
    ensures exists i :: 1 <= i < |loop| && loop[i] < |g.nodes| && g.nodes[loop[i]].isFF
  {
    PathVisited(g, level, visited, path, |path| - 1);
    forall i | 1 <= i < |loop| ensures loop[i] < |g.nodes| {
      assert Feeds(g, loop[i - 1], loop[i - 1 + 1]);
      FedInRange(g, loop[i - 1], loop[i]);
    }
    if forall i | 1 <= i < |loop| :: !g.nodes[loop[i]].isFF {
      Climb(g, level, visited, loop, |loop| - 1);
    }
  }

  lemma FedInRange(g: Netlist, u: nat, v: nat)
    requires WellFormed(g) && Feeds(g, u, v)
    ensures u < |g.nodes| && v < |g.nodes|
  {
    var s: Spot, i: nat :| s.node == u && SpotOf(g, s, Pin(v, i));
    assert Pin(v, i) in g.driver;
  }
}
