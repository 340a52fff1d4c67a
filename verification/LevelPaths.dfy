/** What the levels say about the netlist: longest paths, combinational loops and unreached pins. */
module LevelPaths {
  import opened Options
  import opened Netlist
  import opened Levelize

  /** u drives an input pin of the combinational node v. */
  ghost predicate Drives(g: Netlist, u: nat, v: nat) {
    Combinational(g, v) && exists i: nat :: i < g.nodes[v].inputs && DrivesPin(g, u, Pin(v, i))
  }

  predicate DrivesPin(g: Netlist, u: nat, p: Pin) {
    p in g.driver && g.driver[p].node == u
  }

  /** A node that nothing can place: no source, and without pins or with one that nothing drives. */
  ghost predicate Dead(g: Netlist, v: nat) {
    v < |g.nodes| && v !in Sources(g) && (g.nodes[v].inputs == 0 || exists i: nat :: i < g.nodes[v].inputs && Pin(v, i) !in g.driver)
  }

  // ----- Levels are longest paths -----

  /** A combinational node is one level above the highest of its drivers. */
  lemma LevelAboveDrivers(g: Netlist, level: seq<int>, v: nat)
    requires WellFormed(g) && Levelized(g, level) && Combinational(g, v) && level[v] >= 0
    ensures level[v] > 0
    ensures forall i: nat | i < g.nodes[v].inputs :: Pin(v, i) in g.driver && g.driver[Pin(v, i)].node < |level| && 0 <= level[g.driver[Pin(v, i)].node] < level[v]
    ensures exists i: nat :: i < g.nodes[v].inputs && Pin(v, i) in g.driver && g.driver[Pin(v, i)].node < |level| && level[g.driver[Pin(v, i)].node] == level[v] - 1
  {
    hide Drives, Dead;
    var l := level[v];
    assert 0 <= level[v] <= l;
    assert AtMost(g, v, l) && l > 0;
    forall i: nat | i < g.nodes[v].inputs
      ensures Pin(v, i) in g.driver && g.driver[Pin(v, i)].node < |level| && 0 <= level[g.driver[Pin(v, i)].node] < l
    {
      PinLevel(g, level, Pin(v, i), l - 1);
      assert PinAtMost(g, Pin(v, i), l - 1);
    }
    assert !AtMost(g, v, l - 1);
    if l == 1 {
      assert 0 <= level[g.driver[Pin(v, 0)].node] < 1;
    } else {
      assert !(forall i: nat | i < g.nodes[v].inputs :: PinAtMost(g, Pin(v, i), l - 2));
      var i: nat :| i < g.nodes[v].inputs && !PinAtMost(g, Pin(v, i), l - 2);
      PinLevel(g, level, Pin(v, i), l - 2);
    }
  }

  lemma PinLevel(g: Netlist, level: seq<int>, p: Pin, l: nat)
    requires WellFormed(g) && Levelized(g, level)
    ensures p in g.driver ==> g.driver[p].node < |level|
    ensures PinAtMost(g, p, l) <==> p in g.driver && 0 <= level[g.driver[p].node] <= l
  {
    if p in g.driver {
      DriverInRange(g, p);
      assert 0 <= level[g.driver[p].node] <= l <==> AtMost(g, g.driver[p].node, l);
    }
  }

  /** The top inputs, supply, ground, pad and flip-flops are on level 0, and no other node is. */
  lemma SourceLevel(g: Netlist, level: seq<int>, v: nat)
    requires Levelized(g, level) && v < |g.nodes|
    ensures v in Sources(g) <==> level[v] == 0
    ensures level[v] == 0
            <==> Some(v) in g.topInputs || g.vcc == Some(v) || g.gnd == Some(v) || g.pad == Some(v) || Some(v) in g.ffs
  {
    SourcesExact(g);
    assert AtMost(g, v, 0) <==> v in Sources(g);
  }

  // ----- Unplaced nodes -----

  /** A way back from the first node over drivers of combinational nodes. */
  ghost predicate WayBack(g: Netlist, path: seq<nat>) {
    path != [] && forall k: nat | k + 1 < |path| :: Drives(g, path[k + 1], path[k])
  }

  /** The way back comes to a dead node, or to a node it has passed before. */
  ghost predicate EndsBadly(g: Netlist, path: seq<nat>) {
    path != [] && (Dead(g, path[|path| - 1]) || exists k: nat :: k < |path| - 1 && path[k] == path[|path| - 1])
  }

  lemma DriverBelow(g: Netlist, u: nat, v: nat, l: nat)
    requires Drives(g, u, v) && AtMost(g, v, l)
    ensures l > 0 && AtMost(g, u, l - 1)
  {
    var i: nat :| i < g.nodes[v].inputs && DrivesPin(g, u, Pin(v, i));
    assert PinAtMost(g, Pin(v, i), l - 1);
  }

  lemma DeadNever(g: Netlist, v: nat, l: nat)
    requires Dead(g, v)
    ensures !AtMost(g, v, l)
  {
    if l > 0 && g.nodes[v].inputs > 0 {
      var i: nat :| i < g.nodes[v].inputs && Pin(v, i) !in g.driver;
      assert !PinAtMost(g, Pin(v, i), l - 1);
    }
  }

  /** Along a way back levels drop by one a step. */
  lemma {:induction false} Descend(g: Netlist, path: seq<nat>, k: nat, l: nat)
    requires WayBack(g, path) && k < |path| && AtMost(g, path[0], l)
    ensures k <= l && AtMost(g, path[k], l - k)
  {
    if k > 0 {
      Descend(g, path, k - 1, l);
      assert Drives(g, path[k - 1 + 1], path[k - 1]);
      DriverBelow(g, path[k], path[k - 1], l - (k - 1));
    }
  }

  /** A node on a closed way back has no level. */
  lemma {:induction false} LoopNever(g: Netlist, path: seq<nat>, l: nat)
    requires WayBack(g, path) && |path| > 1 && path[0] == path[|path| - 1]
    ensures !AtMost(g, path[0], l)
    decreases l
  {
    if AtMost(g, path[0], l) {
      Descend(g, path, |path| - 1, l);
      LoopNever(g, path, l - (|path| - 1));
    }
  }

  lemma BadNever(g: Netlist, path: seq<nat>, l: nat)
    requires WayBack(g, path) && EndsBadly(g, path)
    ensures !AtMost(g, path[0], l)
  {
    if AtMost(g, path[0], l) {
      var n := |path| - 1;
      Descend(g, path, n, l);
      if Dead(g, path[n]) {
        DeadNever(g, path[n], l - n);
      } else {
        var k: nat :| k < n && path[k] == path[n];
        Descend(g, path, k, l);
        var loop := path[k..];
        forall i: nat | i + 1 < |loop| ensures Drives(g, loop[i + 1], loop[i]) {
          assert Drives(g, path[k + i + 1], path[k + i]);
        }
        LoopNever(g, loop, l - k);
      }
    }
  }

  /** A node without a level is dead or has a driver without a level. */
  lemma StuckDriver(g: Netlist, level: seq<int>, v: nat) returns (u: nat)
    requires WellFormed(g) && Levelized(g, level) && v < |g.nodes| && level[v] < 0 && !Dead(g, v)
    ensures u < |g.nodes| && Drives(g, u, v) && level[u] < 0
  {
    SourceLevel(g, level, v);
    assert Combinational(g, v);
    assert exists i: nat :: i < g.nodes[v].inputs && !PinPlaced(g, level, Pin(v, i)) by {
      if forall i: nat | i < g.nodes[v].inputs :: PinPlaced(g, level, Pin(v, i)) {
        AllPinsPlaced(g, level, v);
        assert false;
      }
    }
    var i: nat :| i < g.nodes[v].inputs && !PinPlaced(g, level, Pin(v, i));
    u := g.driver[Pin(v, i)].node;
    DriverInRange(g, Pin(v, i));
    assert DrivesPin(g, u, Pin(v, i));
  }

  predicate PinPlaced(g: Netlist, level: seq<int>, p: Pin) {
    p in g.driver && g.driver[p].node < |level| && level[g.driver[p].node] >= 0
  }

  /** The highest level among the first n drivers of v. */
  function Highest(g: Netlist, level: seq<int>, v: nat, n: nat): (h: nat)
    requires forall i: nat | i < n :: PinPlaced(g, level, Pin(v, i))
    ensures forall i: nat | i < n :: PinPlaced(g, level, Pin(v, i)) && level[g.driver[Pin(v, i)].node] <= h
  {
    if n == 0 then 0 else
      var h := Highest(g, level, v, n - 1);
      assert PinPlaced(g, level, Pin(v, n - 1));
      var l := level[g.driver[Pin(v, n - 1)].node];
      if l > h then l else h
  }

  lemma AllPinsPlaced(g: Netlist, level: seq<int>, v: nat)
    requires WellFormed(g) && Levelized(g, level) && Combinational(g, v)
    requires forall i: nat | i < g.nodes[v].inputs :: PinPlaced(g, level, Pin(v, i))
    ensures level[v] >= 0
  {
    var l := Highest(g, level, v, g.nodes[v].inputs);
    forall i: nat | i < g.nodes[v].inputs ensures PinAtMost(g, Pin(v, i), l) {
      assert PinPlaced(g, level, Pin(v, i));
      assert 0 <= level[g.driver[Pin(v, i)].node] <= l;
    }
    assert AtMost(g, v, l + 1);
    assert 0 <= level[v] <= l + 1;
  }

  lemma DriverInRange(g: Netlist, p: Pin)
    requires WellFormed(g) && p in g.driver
    ensures g.driver[p].node < |g.nodes|
  {
    assert SpotOf(g, g.driver[p], p);
  }

  predicate Distinct(path: seq<nat>) {
    forall i, j | 0 <= i < j < |path| :: path[i] != path[j]
  }

  /** Distinct numbers below n are at most n. */
  lemma {:induction false} Pigeonhole(path: seq<nat>, n: nat)
    requires Distinct(path) && forall i | 0 <= i < |path| :: path[i] < n
    ensures |path| <= n
  {
    if path != [] {
      assert path[0] < n;
      if i :| 0 <= i < |path| && path[i] == n - 1 {
        var rest := path[..i] + path[i + 1..];
        assert forall k | 0 <= k < |rest| :: rest[k] == if k < i then path[k] else path[k + 1];
        Pigeonhole(rest, n - 1);
      } else {
        Pigeonhole(path, n - 1);
      }
    }
  }

  /** Going back from a node without a level along drivers without one ends badly. */
  lemma {:induction false} GoBack(g: Netlist, level: seq<int>, path: seq<nat>) returns (bad: seq<nat>)
    requires WellFormed(g) && Levelized(g, level) && WayBack(g, path) && Distinct(path)
    requires forall i | 0 <= i < |path| :: path[i] < |g.nodes| && level[path[i]] < 0
    ensures WayBack(g, bad) && EndsBadly(g, bad) && bad[0] == path[0]
    decreases |g.nodes| - |path|
  {
    hide WellFormed, Levelized, Dead, Drives;
    Pigeonhole(path, |g.nodes|);
    var v := path[|path| - 1];
    if Dead(g, v) {
      bad := path;
    } else {
      var u := StuckDriver(g, level, v);
      bad := path + [u];
      forall k: nat | k + 1 < |bad| ensures Drives(g, bad[k + 1], bad[k]) {
        if k + 1 < |path| {
          assert Drives(g, path[k + 1], path[k]);
        }
      }
      if u in path {
        var k :| 0 <= k < |path| && path[k] == u;
        assert bad[k] == u;
      } else {
        Pigeonhole(bad, |g.nodes|);
        bad := GoBack(g, level, bad);
      }
    }
  }

  /**
   * A node stays without a level exactly when some way back over drivers of combinational nodes comes to a dead node
   * or goes round a combinational loop.
   */
  lemma UnplacedExact(g: Netlist, level: seq<int>, v: nat)
    requires WellFormed(g) && Levelized(g, level) && v < |g.nodes|
    ensures level[v] == -1 <==> exists path: seq<nat> :: WayBack(g, path) && path[0] == v && EndsBadly(g, path)
  {
    if level[v] < 0 {
      var path := GoBack(g, level, [v]);
      assert WayBack(g, path) && path[0] == v && EndsBadly(g, path);
    }
    if level[v] >= 0 {
      assert 0 <= level[v] <= level[v];
      assert AtMost(g, v, level[v]);
      forall path: seq<nat> | WayBack(g, path) && path[0] == v ensures !EndsBadly(g, path) {
        if EndsBadly(g, path) {
          BadNever(g, path, level[v]);
        }
      }
    }
  }
}
