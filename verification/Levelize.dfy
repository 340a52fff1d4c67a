/** Placing the nodes of a netlist on levels, from its sources forwards. */
module Levelize {
  import opened Options
  import opened Netlist

  /** Unmarked pins and unplaced nodes are -1. */
  datatype State = State(levels: seq<seq<nat>>, level: seq<int>, visited: seq<seq<int>>)

  /** Array shapes. */
  ghost predicate Sized(g: Netlist, s: State) {
    && |s.level| == |s.visited| == |g.nodes|
    && forall v: nat | v < |g.nodes| :: |s.visited[v]| == g.nodes[v].inputs
  }

  /** The list holds exactly the nodes of level l, each once. */
  ghost predicate Lists(list: seq<nat>, level: seq<int>, l: nat) {
    && (forall i: nat | i < |list| :: list[i] < |level| && level[list[i]] == l)
    && (forall i: nat, j: nat | i < j < |list| :: list[i] != list[j])
    && (forall v: nat | v < |level| && level[v] == l :: v in list)
  }

  /** levels and level agree, and levels holds no node twice. */
  ghost predicate Indexed(s: State) {
    && (forall l: nat | l < |s.levels| :: Lists(s.levels[l], s.level, l))
    && (forall v: nat | v < |s.level| :: -1 <= s.level[v] < |s.levels|)
  }

  /** All of a combinational node's pins are marked. */
  ghost predicate Complete(g: Netlist, marked: set<Pin>, v: nat) {
    Combinational(g, v) && forall i: nat | i < g.nodes[v].inputs :: Pin(v, i) in marked
  }

  /** The placed nodes are the sources and those whose pins are all marked. */
  ghost predicate Placed(g: Netlist, s: State, marked: set<Pin>)
    requires Sized(g, s)
  {
    && (forall v: nat | v < |g.nodes| :: s.level[v] >= 0 <==> v in Sources(g) || Complete(g, marked, v))
    && (forall v: nat, i: nat | v < |g.nodes| && i < g.nodes[v].inputs :: s.visited[v][i] != -1 <==> Pin(v, i) in marked)
  }

  /** Levels up to c are final; what was placed since is on level c + 1. */
  ghost predicate Final(g: Netlist, s: State, c: nat)
    requires Sized(g, s)
  {
    && (forall v: nat, l: nat | v < |g.nodes| && l <= c :: 0 <= s.level[v] <= l <==> AtMost(g, v, l))
    && (forall v: nat | v < |g.nodes| :: s.level[v] <= c + 1)
  }

  ghost predicate Invariant(g: Netlist, s: State, marked: set<Pin>, c: nat) {
    Sized(g, s) && |s.levels| == c + 2 && Indexed(s) && Placed(g, s, marked) && Final(g, s, c)
  }

  // ----- Marking one pin -----

  function Mark(s: State, p: Pin, c: nat): State
    requires p.node < |s.visited| && p.idx < |s.visited[p.node]|
  {
    s.(visited := s.visited[p.node := s.visited[p.node][p.idx := c]])
  }

  function Place(s: State, v: nat, c: nat): State
    requires |s.levels| == c + 2 && v < |s.level|
  {
    s.(levels := s.levels[c + 1 := s.levels[c + 1] + [v]], level := s.level[v := c + 1])
  }

  predicate AllVisited(s: State, v: nat)
    requires v < |s.visited|
  {
    forall i: nat | i < |s.visited[v]| :: s.visited[v][i] != -1
  }

  /** Visiting a fanout pin: mark it, and place its node if that was the last one. */
  function Visit(g: Netlist, s: State, p: Pin, c: nat): State
    requires |s.levels| == c + 2 && |s.level| == |s.visited| == |g.nodes| && p.node < |s.visited| && p.idx < |s.visited[p.node]|
  {
    var m := Mark(s, p, c);
    if AllVisited(m, p.node) && !g.nodes[p.node].isFF then Place(m, p.node, c) else m
  }

  lemma Listed(list: seq<nat>, level: seq<int>, l: nat, v: nat, k: nat)
    requires Lists(list, level, l) && v < |level| && level[v] == -1
    ensures Lists(if l == k then list + [v] else list, level[v := k as int], l)
  {
    var next := level[v := k as int];
    if l == k {
      forall w: nat | w < |next| && next[w] == l ensures w in list + [v] {
        assert (list + [v])[|list|] == v;
        if w != v {
          assert w in list;
        }
      }
    }
  }

  lemma PlaceIndexed(s: State, v: nat, c: nat)
    requires Indexed(s) && |s.levels| == c + 2 && v < |s.level| && s.level[v] == -1
    ensures Indexed(Place(s, v, c))
  {
    hide Lists;
    var next := Place(s, v, c);
    forall l: nat | l < |next.levels| ensures Lists(next.levels[l], next.level, l) {
      Listed(s.levels[l], s.level, l, v, c + 1);
    }
  }

  lemma MarkFacts(g: Netlist, s: State, marked: set<Pin>, c: nat, p: Pin)
    requires WellFormed(g) && Sized(g, s) && Placed(g, s, marked) && p in g.driver && p !in marked
    ensures p.node < |g.nodes| && p.idx < g.nodes[p.node].inputs
    ensures AllVisited(Mark(s, p, c), p.node) && !g.nodes[p.node].isFF <==> Complete(g, marked + {p}, p.node)
    ensures !Complete(g, marked, p.node) && (!g.nodes[p.node].isFF ==> s.level[p.node] < 0)
  {
    hide AtMost;
    assert SpotOf(g, g.driver[p], p);
    assert Pin(p.node, p.idx) == p;
    var m := Mark(s, p, c);
    forall i: nat | i < g.nodes[p.node].inputs ensures m.visited[p.node][i] != -1 <==> Pin(p.node, i) in marked + {p} {
    }
  }

  lemma OthersComplete(g: Netlist, marked: set<Pin>, p: Pin, v: nat)
    requires v != p.node
    ensures Complete(g, marked + {p}, v) <==> Complete(g, marked, v)
  {
    if Complete(g, marked + {p}, v) {
      forall i: nat | i < g.nodes[v].inputs ensures Pin(v, i) in marked {
        assert Pin(v, i) in marked + {p};
      }
    }
  }

  lemma VisitPlaced(g: Netlist, s: State, marked: set<Pin>, c: nat, p: Pin)
    requires WellFormed(g) && Sized(g, s) && Placed(g, s, marked) && p in g.driver && p !in marked && |s.levels| == c + 2
    requires p.node < |g.nodes| && p.idx < |s.visited[p.node]|
    ensures Sized(g, Visit(g, s, p, c)) && Placed(g, Visit(g, s, p, c), marked + {p})
  {
    MarkFacts(g, s, marked, c, p);
    VisitMarks(g, s, marked, c, p);
    hide WellFormed, Complete, AllVisited, Combinational;
    var next := Visit(g, s, p, c);
    forall v: nat | v < |g.nodes| ensures next.level[v] >= 0 <==> v in Sources(g) || Complete(g, marked + {p}, v) {
      if v != p.node {
        OthersComplete(g, marked, p, v);
      }
    }
  }

  lemma VisitMarks(g: Netlist, s: State, marked: set<Pin>, c: nat, p: Pin)
    requires Sized(g, s) && Placed(g, s, marked) && |s.levels| == c + 2 && p.node < |g.nodes| && p.idx < |s.visited[p.node]|
    ensures Sized(g, Visit(g, s, p, c))
    ensures forall v: nat, i: nat | v < |g.nodes| && i < g.nodes[v].inputs ::
              Visit(g, s, p, c).visited[v][i] != -1 <==> Pin(v, i) in marked + {p}
  {
    hide WellFormed, Complete, AllVisited, Combinational;
    var next := Visit(g, s, p, c);
    forall v: nat, i: nat | v < |g.nodes| && i < g.nodes[v].inputs ensures next.visited[v][i] != -1 <==> Pin(v, i) in marked + {p} {
      assert Pin(v, i) == p <==> v == p.node && i == p.idx;
    }
  }

  lemma VisitKeeps(g: Netlist, s: State, marked: set<Pin>, c: nat, p: Pin)
    requires WellFormed(g) && Invariant(g, s, marked, c) && p in g.driver && p !in marked
    ensures p.node < |s.visited| && p.idx < |s.visited[p.node]|
    ensures Invariant(g, Visit(g, s, p, c), marked + {p}, c)
  {
    hide WellFormed, Placed, Indexed, Complete, AllVisited;
    MarkFacts(g, s, marked, c, p);
    VisitPlaced(g, s, marked, c, p);
    var m := Mark(s, p, c);
    assert Indexed(s) && s.level[p.node] >= -1 by { AtLeast(s, p.node); }
    assert Indexed(m) by { SameIndex(s, m); }
    if AllVisited(m, p.node) && !g.nodes[p.node].isFF {
      PlaceIndexed(m, p.node, c);
    }
    VisitFinal(g, s, c, p);
  }

  lemma AtLeast(s: State, v: nat)
    requires Indexed(s) && v < |s.level|
    ensures s.level[v] >= -1
  {
  }

  lemma SameIndex(s: State, m: State)
    requires Indexed(s) && m.levels == s.levels && m.level == s.level
    ensures Indexed(m)
  {
  }

  lemma VisitFinal(g: Netlist, s: State, c: nat, p: Pin)
    requires Sized(g, s) && Final(g, s, c) && |s.levels| == c + 2 && p.node < |g.nodes| && p.idx < |s.visited[p.node]|
    requires !g.nodes[p.node].isFF ==> s.level[p.node] < 0
    ensures Sized(g, Visit(g, s, p, c)) && Final(g, Visit(g, s, p, c), c)
  {
    hide AtMost, AllVisited;
  }

  /** What a visit leaves alone: nodes already placed, and the list being gone through. */
  lemma VisitFrame(g: Netlist, s: State, c: nat, p: Pin)
    requires |s.levels| == c + 2 && |s.level| == |s.visited| == |g.nodes| && p.node < |s.visited| && p.idx < |s.visited[p.node]|
    requires !g.nodes[p.node].isFF ==> s.level[p.node] < 0
    ensures Visit(g, s, p, c).levels[c] == s.levels[c] && |Visit(g, s, p, c).level| == |s.level|
    ensures forall v: nat | v < |s.level| :: Visit(g, s, p, c).level[v] == s.level[v] || (s.level[v] < 0 && Visit(g, s, p, c).level[v] == c + 1)
  {
    hide AllVisited;
  }

  // ----- Going through a level -----

  /** The spot has been passed when node i of level c is at fanout k of output j. */
  predicate Passed(s: State, sp: Spot, c: nat, i: nat, j: nat, k: nat)
    requires sp.node < |s.level| && c < |s.levels| && i <= |s.levels[c]|
  {
    || 0 <= s.level[sp.node] < c
    || sp.node in s.levels[c][..i]
    || (i < |s.levels[c]| && sp.node == s.levels[c][i] && (sp.output < j || (sp.output == j && sp.fanout < k)))
  }

  /** The marked pins are those whose spots have been passed. */
  ghost predicate Covered(g: Netlist, s: State, marked: set<Pin>, c: nat, i: nat, j: nat, k: nat) {
    && c < |s.levels| && i <= |s.levels[c]|
    && (forall p: Pin | p in marked :: p in g.driver)
    && (forall p: Pin | p in g.driver ::
          g.driver[p].node < |s.level| && (p in marked <==> Passed(s, g.driver[p], c, i, j, k)))
  }

  /** The next spot is new: its pin, if it has one, is not marked yet. */
  lemma NextSpot(g: Netlist, s: State, marked: set<Pin>, c: nat, i: nat, j: nat, k: nat)
    requires WellFormed(g) && |s.level| == |g.nodes| && Indexed(s) && Covered(g, s, marked, c, i, j, k) && i < |s.levels[c]|
    requires s.levels[c][i] < |g.nodes| && j < |g.nodes[s.levels[c][i]].nets| && k < |g.nodes[s.levels[c][i]].nets[j]|
    ensures var x := g.nodes[s.levels[c][i]].nets[j][k];
            x.Some? ==> x.value in g.driver && x.value !in marked && g.driver[x.value] == Spot(s.levels[c][i], j, k)
  {
    var u := s.levels[c][i];
    var x := g.nodes[u].nets[j][k];
    if x.Some? {
      assert SpotOf(g, Spot(u, j, k), x.value);
      hide WellFormed;
      assert s.level[u] == c && u !in s.levels[c][..i] by {
        assert Lists(s.levels[c], s.level, c);
      }
    }
  }

  lemma PassedNext(s: State, sp: Spot, c: nat, i: nat, j: nat, k: nat)
    requires sp.node < |s.level| && c < |s.levels| && i < |s.levels[c]|
    ensures Passed(s, sp, c, i, j, k + 1) <==> Passed(s, sp, c, i, j, k) || sp == Spot(s.levels[c][i], j, k)
  {
  }

  lemma CoverPin(g: Netlist, s: State, marked: set<Pin>, c: nat, i: nat, j: nat, k: nat, p: Pin)
    requires WellFormed(g) && Covered(g, s, marked, c, i, j, k) && i < |s.levels[c]|
    requires p in g.driver && g.driver[p] == Spot(s.levels[c][i], j, k)
    ensures Covered(g, s, marked + {p}, c, i, j, k + 1)
  {
    hide Passed, WellFormed;
    forall q: Pin | q in g.driver ensures q in marked + {p} <==> Passed(s, g.driver[q], c, i, j, k + 1) {
      SameSpot(g, p, q);
      PassedNext(s, g.driver[q], c, i, j, k);
    }
  }

  lemma SameSpot(g: Netlist, p: Pin, q: Pin)
    requires WellFormed(g) && p in g.driver && q in g.driver
    ensures g.driver[p] == g.driver[q] ==> p == q
  {
    assert SpotOf(g, g.driver[p], p) && SpotOf(g, g.driver[q], q);
  }

  /** A gap in a net has no pin. */
  lemma CoverGap(g: Netlist, s: State, marked: set<Pin>, c: nat, i: nat, j: nat, k: nat)
    requires WellFormed(g) && Covered(g, s, marked, c, i, j, k) && i < |s.levels[c]|
    requires s.levels[c][i] < |g.nodes| && j < |g.nodes[s.levels[c][i]].nets| && k < |g.nodes[s.levels[c][i]].nets[j]|
    requires g.nodes[s.levels[c][i]].nets[j][k].None?
    ensures Covered(g, s, marked, c, i, j, k + 1)
  {
    hide Passed;
    forall q: Pin | q in g.driver ensures q in marked <==> Passed(s, g.driver[q], c, i, j, k + 1) {
      assert SpotOf(g, g.driver[q], q);
      PassedNext(s, g.driver[q], c, i, j, k);
    }
  }

  lemma CoverNet(g: Netlist, s: State, marked: set<Pin>, c: nat, i: nat, j: nat)
    requires WellFormed(g) && c < |s.levels| && i < |s.levels[c]| && s.levels[c][i] < |g.nodes| && j < |g.nodes[s.levels[c][i]].nets|
    requires Covered(g, s, marked, c, i, j, |g.nodes[s.levels[c][i]].nets[j]|)
    ensures Covered(g, s, marked, c, i, j + 1, 0)
  {
    forall q: Pin | q in g.driver ensures q in marked <==> Passed(s, g.driver[q], c, i, j + 1, 0) {
      assert SpotOf(g, g.driver[q], q);
    }
  }

  lemma CoverNode(g: Netlist, s: State, marked: set<Pin>, c: nat, i: nat)
    requires WellFormed(g) && c < |s.levels| && i < |s.levels[c]| && s.levels[c][i] < |g.nodes|
    requires Covered(g, s, marked, c, i, |g.nodes[s.levels[c][i]].nets|, 0)
    ensures Covered(g, s, marked, c, i + 1, 0, 0)
  {
    assert s.levels[c][..i + 1] == s.levels[c][..i] + [s.levels[c][i]];
    forall q: Pin | q in g.driver ensures q in marked <==> Passed(s, g.driver[q], c, i + 1, 0, 0) {
      assert SpotOf(g, g.driver[q], q);
    }
  }

  /** A visit places nodes that are on no level yet, so the spots passed stay the same. */
  lemma CoverVisit(g: Netlist, s: State, marked: set<Pin>, c: nat, i: nat, j: nat, k: nat, p: Pin)
    requires WellFormed(g) && Invariant(g, s, marked, c) && Covered(g, s, marked, c, i, j, k) && i < |s.levels[c]|
    requires p in g.driver && p !in marked && g.driver[p] == Spot(s.levels[c][i], j, k)
    ensures p.node < |s.visited| && p.idx < |s.visited[p.node]|
    ensures Invariant(g, Visit(g, s, p, c), marked + {p}, c)
    ensures Visit(g, s, p, c).levels[c] == s.levels[c]
    ensures Covered(g, Visit(g, s, p, c), marked + {p}, c, i, j, k + 1)
  {
    hide WellFormed, Passed, Placed, Final, Indexed;
    VisitKeeps(g, s, marked, c, p);
    MarkFacts(g, s, marked, c, p);
    VisitFrame(g, s, c, p);
    CoverPin(g, s, marked, c, i, j, k, p);
    var next := Visit(g, s, p, c);
    hide Visit;
    forall q: Pin | q in g.driver ensures Passed(next, g.driver[q], c, i, j, k + 1) <==> Passed(s, g.driver[q], c, i, j, k + 1) {
      SamePassed(s, next, g.driver[q], c, i, j, k + 1);
    }
  }

  lemma SamePassed(s: State, next: State, sp: Spot, c: nat, i: nat, j: nat, k: nat)
    requires sp.node < |s.level| == |next.level| && c < |s.levels| && c < |next.levels| && next.levels[c] == s.levels[c] && i <= |s.levels[c]|
    requires next.level[sp.node] == s.level[sp.node] || (s.level[sp.node] < 0 && next.level[sp.node] == c + 1)
    ensures Passed(next, sp, c, i, j, k) <==> Passed(s, sp, c, i, j, k)
  {
  }

  // ----- From one level to the next -----

  /** Before level c is gone through: levels up to c are final, and the pins driven from below c are marked. */
  ghost predicate Ready(g: Netlist, s: State, marked: set<Pin>, c: nat) {
    && Sized(g, s) && |s.levels| == c + 1 && Indexed(s) && Placed(g, s, marked) && FinalTo(g, s, c)
    && forall p: Pin :: p in marked <==> p in g.driver && g.driver[p].node < |s.level| && 0 <= s.level[g.driver[p].node] < c
  }

  ghost predicate FinalTo(g: Netlist, s: State, c: nat)
    requires Sized(g, s)
  {
    forall v: nat, l: nat | v < |g.nodes| && l <= c :: 0 <= s.level[v] <= l <==> AtMost(g, v, l)
  }

  lemma OpenLevel(g: Netlist, s: State, marked: set<Pin>, c: nat)
    requires WellFormed(g) && Ready(g, s, marked, c)
    ensures var next := s.(levels := s.levels + [[]]);
            Invariant(g, next, marked, c) && Covered(g, next, marked, c, 0, 0, 0) && next.levels[c] == s.levels[c]
  {
    hide AtMost, Combinational, Complete;
    var next := s.(levels := s.levels + [[]]);
    assert Indexed(next) by {
      forall l: nat | l < |next.levels| ensures Lists(next.levels[l], next.level, l) {
        if l <= c {
          assert Lists(s.levels[l], s.level, l);
        }
      }
    }
    assert Placed(g, next, marked);
    assert Final(g, next, c);
    forall p: Pin | p in g.driver ensures g.driver[p].node < |s.level| {
      assert SpotOf(g, g.driver[p], p);
    }
  }

  /** When level c has been gone through, every node that can be on a level up to c + 1 is. */
  lemma CloseLevel(g: Netlist, s: State, marked: set<Pin>, c: nat)
    requires WellFormed(g) && Invariant(g, s, marked, c) && Covered(g, s, marked, c, |s.levels[c]|, 0, 0)
    ensures Ready(g, s, marked, c + 1)
  {
    hide WellFormed, AtMost, Combinational, Complete, Passed;
    assert Lists(s.levels[c], s.level, c);
    assert s.levels[c][..|s.levels[c]|] == s.levels[c];
    MarkedBelow(g, s, marked, c);
    forall v: nat, l: nat | v < |g.nodes| && l <= c + 1 ensures 0 <= s.level[v] <= l <==> AtMost(g, v, l) {
      if l == c + 1 {
        NextLevel(g, s, marked, c, v);
      }
    }
  }

  lemma MarkedBelow(g: Netlist, s: State, marked: set<Pin>, c: nat)
    requires Covered(g, s, marked, c, if c < |s.levels| then |s.levels[c]| else 0, 0, 0) && Lists(s.levels[c], s.level, c)
    ensures forall p: Pin :: p in marked <==> p in g.driver && g.driver[p].node < |s.level| && 0 <= s.level[g.driver[p].node] < c + 1
  {
    var list := s.levels[c];
    assert list[..|list|] == list;
    forall p: Pin | p in g.driver ensures p in marked <==> 0 <= s.level[g.driver[p].node] < c + 1 {
      var u := g.driver[p].node;
      assert u in list <==> s.level[u] == c;
    }
  }

  lemma NextLevel(g: Netlist, s: State, marked: set<Pin>, c: nat, v: nat)
    requires WellFormed(g) && Invariant(g, s, marked, c) && v < |g.nodes|
    requires forall p: Pin :: p in marked <==> p in g.driver && g.driver[p].node < |s.level| && 0 <= s.level[g.driver[p].node] < c + 1
    ensures 0 <= s.level[v] <= c + 1 <==> AtMost(g, v, c + 1)
  {
    hide Indexed;
    forall i: nat | i < g.nodes[v].inputs ensures PinAtMost(g, Pin(v, i), c) <==> Pin(v, i) in marked {
      var p := Pin(v, i);
      if p in g.driver {
        assert SpotOf(g, g.driver[p], p);
        assert 0 <= s.level[g.driver[p].node] <= c <==> AtMost(g, g.driver[p].node, c);
      }
    }
  }

  /** With no node that needs level c, no node needs a later one. */
  lemma {:induction false} NoLater(g: Netlist, c: nat, v: nat, l: nat)
    requires WellFormed(g) && c > 0 && AtMost(g, v, l)
    requires forall w: nat | AtMost(g, w, c) :: AtMost(g, w, c - 1)
    ensures AtMost(g, v, c - 1)
    decreases l
  {
    hide WellFormed, Combinational;
    if v !in Sources(g) {
      forall i: nat | i < g.nodes[v].inputs ensures PinAtMost(g, Pin(v, i), c - 1) {
        assert PinAtMost(g, Pin(v, i), l - 1);
        NoLater(g, c, g.driver[Pin(v, i)].node, l - 1);
      }
      assert AtMost(g, v, c);
    }
  }

  lemma EmptyLevel(g: Netlist, s: State, marked: set<Pin>, c: nat)
    requires WellFormed(g) && Ready(g, s, marked, c) && c > 0 && s.levels[c] == []
    ensures forall w: nat | AtMost(g, w, c) :: AtMost(g, w, c - 1)
  {
    hide WellFormed, Combinational;
    assert Lists(s.levels[c], s.level, c);
    hide Indexed, Placed;
    forall w: nat | AtMost(g, w, c) ensures AtMost(g, w, c - 1) {
      assert 0 <= s.level[w] <= c && s.level[w] != c;
      assert 0 <= s.level[w] <= c - 1;
    }
  }

  /** Every node has the least level it can have, or none if it can have none. */
  ghost predicate Levelized(g: Netlist, level: seq<int>) {
    && |level| == |g.nodes|
    && (forall v: nat | v < |level| :: level[v] >= -1)
    && forall v: nat, l: nat | v < |level| :: 0 <= level[v] <= l <==> AtMost(g, v, l)
  }

  lemma {:induction false} Later(g: Netlist, v: nat, l: nat, k: nat)
    requires AtMost(g, v, l) && l <= k
    ensures AtMost(g, v, k)
    decreases l
  {
    if v !in Sources(g) {
      forall i: nat | i < g.nodes[v].inputs ensures PinAtMost(g, Pin(v, i), k - 1) {
        assert PinAtMost(g, Pin(v, i), l - 1);
        Later(g, g.driver[Pin(v, i)].node, l - 1, k - 1);
      }
    }
  }

  lemma AllLevelized(g: Netlist, s: State, marked: set<Pin>, c: nat)
    requires WellFormed(g) && Ready(g, s, marked, c) && c > 0 && s.levels[c] == []
    ensures Levelized(g, s.level)
  {
    hide WellFormed, Combinational, AtMost;
    EmptyLevel(g, s, marked, c);
    assert forall v: nat | v < |s.level| :: -1 <= s.level[v] < |s.levels|;
    hide Indexed, Placed;
    forall v: nat, l: nat | v < |s.level| ensures 0 <= s.level[v] <= l <==> AtMost(g, v, l) {
      if AtMost(g, v, l) {
        NoLater(g, c, v, l);
        assert 0 <= s.level[v] <= c - 1;
        if l < c {
          assert 0 <= s.level[v] <= l;
        }
      }
      if 0 <= s.level[v] <= l {
        assert 0 <= s.level[v] <= s.level[v];
        assert AtMost(g, v, s.level[v]);
        Later(g, v, s.level[v], l);
      }
    }
  }

  /** Nodes on no level. */
  function Unplaced(level: seq<int>): nat {
    if level == [] then 0 else Unplaced(level[1..]) + (if level[0] < 0 then 1 else 0)
  }

  lemma {:induction false} UnplacedDrops(before: seq<int>, after: seq<int>)
    requires |before| == |after| && forall v: nat | v < |before| && before[v] >= 0 :: after[v] >= 0
    ensures Unplaced(after) <= Unplaced(before)
    ensures (exists v: nat :: v < |before| && before[v] < 0 <= after[v]) ==> Unplaced(after) < Unplaced(before)
  {
    if before != [] {
      assert forall v: nat | v < |before| - 1 :: before[1..][v] == before[v + 1] && after[1..][v] == after[v + 1];
      UnplacedDrops(before[1..], after[1..]);
      if v: nat :| v < |before| && before[v] < 0 <= after[v] && v > 0 {
        assert before[1..][v - 1] < 0 <= after[1..][v - 1];
      }
    }
  }

  /** Placed nodes stay where they are. */
  ghost predicate Grown(before: seq<int>, after: seq<int>) {
    |before| == |after| && forall v: nat | v < |before| && before[v] >= 0 :: after[v] == before[v]
  }

  lemma VisitGrows(g: Netlist, s: State, marked: set<Pin>, c: nat, p: Pin)
    requires WellFormed(g) && Invariant(g, s, marked, c) && p in g.driver && p !in marked
    requires p.node < |s.visited| && p.idx < |s.visited[p.node]|
    ensures Grown(s.level, Visit(g, s, p, c).level)
  {
    hide WellFormed, Placed, Final, Indexed, Visit;
    MarkFacts(g, s, marked, c, p);
    VisitFrame(g, s, c, p);
  }

  lemma InRange(g: Netlist, s: State, marked: set<Pin>, c: nat, i: nat)
    requires Invariant(g, s, marked, c) && i < |s.levels[c]|
    ensures s.levels[c][i] < |g.nodes|
  {
    assert Lists(s.levels[c], s.level, c);
  }

  /** A level with nodes took them from the unplaced ones. */
  lemma LevelAdds(g: Netlist, before: State, after: State, c: nat)
    requires Indexed(before) && |before.levels| == c + 1 && Indexed(after) && |after.levels| == c + 2 && after.levels[c + 1] != []
    requires Grown(before.level, after.level)
    ensures Unplaced(after.level) < Unplaced(before.level)
  {
    var v := after.levels[c + 1][0];
    assert Lists(after.levels[c + 1], after.level, c + 1);
    assert before.level[v] < 0 <= after.level[v];
    UnplacedDrops(before.level, after.level);
  }

  /** The listed nodes are on level 0, no other node is placed. */
  ghost predicate OnZero(list: seq<nat>, level: seq<int>) {
    && (forall i: nat | i < |list| :: list[i] < |level|)
    && forall v: nat | v < |level| :: level[v] == if v in list then 0 else -1
  }

  lemma ChosenNext(xs: seq<Option<nat>>, i: nat)
    requires i < |xs|
    ensures Chosen(xs[..i + 1]) == Chosen(xs[..i]) + One(xs[i])
  {
    assert xs[..i + 1][..i] == xs[..i];
  }

  /** Level 0 after i rounds of its first loop. */
  function InputList(g: Netlist, i: nat): seq<nat> {
    var n := |g.topInputs|;
    Chosen(g.topInputs[..if i < n then i else n]) + (if i > n then One(g.vcc) else []) + (if i > n + 1 then One(g.gnd) else [])
    + (if i > n + 2 then One(g.pad) else [])
  }

  lemma InputListNext(g: Netlist, i: nat)
    requires i < |g.topInputs| + 3
    ensures i == 0 ==> InputList(g, 0) == []
    ensures InputList(g, i + 1) == InputList(g, i) + One(if i < |g.topInputs| then g.topInputs[i] else
                                                        if i == |g.topInputs| then g.vcc else if i == |g.topInputs| + 1 then g.gnd else g.pad)
  {
    if i < |g.topInputs| {
      ChosenNext(g.topInputs, i);
    }
  }

  lemma AppendOne(xs: seq<nat>, ys: seq<nat>, x: Option<nat>)
    ensures xs + (ys + One(x)) == if x.Some? then (xs + ys) + [x.value] else xs + ys
  {
  }

  lemma SourcesSplit(g: Netlist)
    ensures Sources(g) == InputList(g, |g.topInputs| + 3) + Chosen(g.ffs)
    ensures Chosen(g.ffs[..0]) == []
  {
    assert g.topInputs[..|g.topInputs|] == g.topInputs;
  }

  lemma {:induction false} ChosenAll(xs: seq<Option<nat>>, i: nat)
    requires i < |xs| && xs[i].Some?
    ensures xs[i].value in Chosen(xs)
  {
    if i < |xs| - 1 {
      ChosenAll(xs[..|xs| - 1], i);
    }
  }

  lemma SourcesInRange(g: Netlist)
    requires WellFormed(g)
    ensures forall i | 0 <= i < |g.topInputs| && g.topInputs[i].Some? :: g.topInputs[i].value < |g.nodes|
    ensures forall i | 0 <= i < |g.ffs| && g.ffs[i].Some? :: g.ffs[i].value < |g.nodes|
    ensures g.vcc.Some? ==> g.vcc.value < |g.nodes|
    ensures g.gnd.Some? ==> g.gnd.value < |g.nodes|
    ensures g.pad.Some? ==> g.pad.value < |g.nodes|
  {
    assert forall v: nat | v in Sources(g) :: v < |g.nodes|;
    forall i | 0 <= i < |g.topInputs| && g.topInputs[i].Some? ensures g.topInputs[i].value < |g.nodes| {
      ChosenAll(g.topInputs, i);
      assert g.topInputs[i].value in Sources(g);
    }
    forall i | 0 <= i < |g.ffs| && g.ffs[i].Some? ensures g.ffs[i].value < |g.nodes| {
      ChosenAll(g.ffs, i);
      assert g.ffs[i].value in Sources(g);
    }
    assert g.vcc.Some? ==> g.vcc.value in One(g.vcc) && g.vcc.value in Sources(g);
    assert g.gnd.Some? ==> g.gnd.value in One(g.gnd) && g.gnd.value in Sources(g);
    assert g.pad.Some? ==> g.pad.value in One(g.pad) && g.pad.value in Sources(g);
  }

  lemma SourcesListed(g: Netlist, s: State)
    requires WellFormed(g) && Sized(g, s) && s.levels == [Sources(g)] && OnZero(Sources(g), s.level)
    ensures Indexed(s)
  {
    assert Lists(Sources(g), s.level, 0);
  }

  lemma SourcesReady(g: Netlist, s: State)
    requires WellFormed(g) && Sized(g, s) && s.levels == [Sources(g)] && OnZero(Sources(g), s.level)
    requires forall v: nat, i: nat | v < |g.nodes| && i < g.nodes[v].inputs :: s.visited[v][i] == -1
    ensures Ready(g, s, {}, 0)
  {
    hide WellFormed;
    var none: set<Pin> := {};
    assert Placed(g, s, none) by {
      forall v: nat | v < |g.nodes| ensures !Complete(g, none, v) {
        if Combinational(g, v) {
          assert Pin(v, 0) !in none;
        }
      }
    }
    assert Indexed(s) by {
      SourcesListed(g, s);
    }
    assert FinalTo(g, s, 0);
  }

  class Levelizer {
    const g: Netlist
    var levels: seq<seq<nat>>
    var forwardLevel: seq<int>
    var fanoutsVisited: seq<seq<int>>

    constructor (g: Netlist)
      ensures this.g == g && levels == []
      ensures forwardLevel == seq(|g.nodes|, _ => -1)
      ensures fanoutsVisited == seq(|g.nodes|, v requires 0 <= v < |g.nodes| => seq(g.nodes[v].inputs, _ => -1))
    {
      this.g := g;
      levels := [];
      forwardLevel := seq(|g.nodes|, _ => -1);
      fanoutsVisited := seq(|g.nodes|, v requires 0 <= v < |g.nodes| => seq(g.nodes[v].inputs, _ => -1));
    }

    ghost function Now(): State
      reads this
    {
      State(levels, forwardLevel, fanoutsVisited)
    }

    method AddSource(v: nat)
      requires |levels| == 1 && v < |forwardLevel| && OnZero(levels[0], forwardLevel)
      modifies this`levels, this`forwardLevel
      ensures |levels| == 1 && levels[0] == old(levels)[0] + [v] && |forwardLevel| == |old(forwardLevel)| && OnZero(levels[0], forwardLevel)
    {
      levels := levels[0 := levels[0] + [v]];
      forwardLevel := forwardLevel[v := 0];
    }

    /** The first loop over level 0: the top inputs, then supply, ground and pad. */
    method PlaceInputs()
      requires WellFormed(g) && levels == [[]] && |forwardLevel| == |g.nodes| && OnZero([], forwardLevel)
      modifies this`levels, this`forwardLevel
      ensures |levels| == 1 && levels[0] == InputList(g, |g.topInputs| + 3) && |forwardLevel| == |g.nodes| && OnZero(levels[0], forwardLevel)
    {
      hide WellFormed, OnZero, InputList;
      var n := |g.topInputs|;
      SourcesInRange(g);
      InputListNext(g, 0);
      for i := 0 to n + 3
        invariant |forwardLevel| == |g.nodes| && |levels| == 1 && levels[0] == InputList(g, i) && OnZero(levels[0], forwardLevel)
      {
        InputListNext(g, i);
        assert levels[0] + [] == levels[0];
        if i == n && g.vcc.Some? {
          AddSource(g.vcc.value);
        } else if i == n + 1 && g.gnd.Some? {
          AddSource(g.gnd.value);
        } else if i == n + 2 && g.pad.Some? {
          AddSource(g.pad.value);
        } else if i >= n {
          continue;
        } else if g.topInputs[i].Some? {
          AddSource(g.topInputs[i].value);
        }
      }
    }

    /** Level 0. */
    method PlaceSources()
      requires WellFormed(g) && |forwardLevel| == |g.nodes| && forall v: nat | v < |g.nodes| :: forwardLevel[v] == -1
      modifies this`levels, this`forwardLevel
      ensures levels == [Sources(g)] == [Chosen(g.topInputs + [g.vcc, g.gnd, g.pad] + g.ffs)] && |forwardLevel| == |g.nodes| && OnZero(Sources(g), forwardLevel)
    {
      levels := [[]];
      PlaceInputs();
      hide WellFormed, OnZero;
      SourcesInRange(g);
      SourcesSplit(g);
      SourcesExact(g);
      ghost var inputs := levels[0];
      for i := 0 to |g.ffs|
        invariant |forwardLevel| == |g.nodes| && |levels| == 1 && levels[0] == inputs + Chosen(g.ffs[..i]) && OnZero(levels[0], forwardLevel)
      {
        ChosenNext(g.ffs, i);
        AppendOne(inputs, Chosen(g.ffs[..i]), g.ffs[i]);
        if g.ffs[i].Some? {
          AddSource(g.ffs[i].value);
        }
      }
      assert g.ffs[..|g.ffs|] == g.ffs;
      SourcesSplit(g);
    }

    /** One fanout pin of a node on level c. */
    method VisitFanout(p: Pin, c: nat)
      requires |levels| == c + 2 && |forwardLevel| == |fanoutsVisited| == |g.nodes|
      requires p.node < |g.nodes| && p.idx < |fanoutsVisited[p.node]|
      modifies this
      ensures Now() == Visit(g, old(Now()), p, c)
    {
      fanoutsVisited := fanoutsVisited[p.node := fanoutsVisited[p.node][p.idx := c]];
      assert Now() == Mark(old(Now()), p, c);
      var allVisited := true;
      for idx := 0 to |fanoutsVisited[p.node]|
        invariant allVisited <==> forall i | 0 <= i < idx :: fanoutsVisited[p.node][i] != -1
      {
        if fanoutsVisited[p.node][idx] == -1 {
          allVisited := false;
          break;
        }
      }
      if allVisited && !g.nodes[p.node].isFF {
        levels := levels[c + 1 := levels[c + 1] + [p.node]];
        forwardLevel := forwardLevel[p.node := c + 1];
      }
    }

    /** The fanout pins of node i on level c. */
    method VisitNode(c: nat, i: nat, ghost marked: set<Pin>) returns (ghost marked': set<Pin>)
      requires WellFormed(g) && Invariant(g, Now(), marked, c) && i < |levels[c]| && Covered(g, Now(), marked, c, i, 0, 0)
      modifies this
      ensures Invariant(g, Now(), marked', c) && levels[c] == old(levels[c]) && Covered(g, Now(), marked', c, i + 1, 0, 0)
      ensures Grown(old(forwardLevel), forwardLevel)
    {
      hide WellFormed, Placed, Final, Covered, Visit, Indexed, Lists;
      var u := levels[c][i];
      assert u < |g.nodes| by { InRange(g, Now(), marked, c, i); }
      marked' := marked;
      for j := 0 to |g.nodes[u].nets|
        invariant Invariant(g, Now(), marked', c) && levels[c] == old(levels[c])
        invariant Covered(g, Now(), marked', c, i, j, 0) && Grown(old(forwardLevel), forwardLevel)
      {
        for k := 0 to |g.nodes[u].nets[j]|
          invariant Invariant(g, Now(), marked', c) && levels[c] == old(levels[c])
          invariant Covered(g, Now(), marked', c, i, j, k) && Grown(old(forwardLevel), forwardLevel)
        {
          var x := g.nodes[u].nets[j][k];
          if x.None? {
            CoverGap(g, Now(), marked', c, i, j, k);
          } else {
            NextSpot(g, Now(), marked', c, i, j, k);
            CoverVisit(g, Now(), marked', c, i, j, k, x.value);
            VisitGrows(g, Now(), marked', c, x.value);
            marked' := marked' + {x.value};
            VisitFanout(x.value, c);
          }
        }
        CoverNet(g, Now(), marked', c, i, j);
      }
      CoverNode(g, Now(), marked', c, i);
    }

    /** Levels are added while the last one added has nodes. */
    method LevelizeForwards()
      requires WellFormed(g) && levels == [] && |forwardLevel| == |fanoutsVisited| == |g.nodes|
      requires forall v: nat | v < |g.nodes| :: forwardLevel[v] == -1 && |fanoutsVisited[v]| == g.nodes[v].inputs
      requires forall v: nat, i: nat | v < |g.nodes| && i < g.nodes[v].inputs :: fanoutsVisited[v][i] == -1
      modifies this
      ensures Levelized(g, forwardLevel) && Indexed(Now())
    {
      hide WellFormed, Placed, FinalTo, Final, Covered, Indexed, OnZero;
      PlaceSources();
      SourcesReady(g, Now());
      ghost var marked: set<Pin> := {};
      var c, moreLevels := 0, true;
      while moreLevels
        invariant Ready(g, Now(), marked, c)
        invariant !moreLevels ==> c > 0 && levels[c] == []
        decreases moreLevels, Unplaced(forwardLevel)
      {
        ghost var start, before := Now(), forwardLevel;
        OpenLevel(g, Now(), marked, c);
        levels := levels + [[]];
        ghost var list := levels[c];
        for i := 0 to |levels[c]|
          invariant |levels| == c + 2 && levels[c] == list
          invariant Invariant(g, Now(), marked, c) && Covered(g, Now(), marked, c, i, 0, 0)
          invariant i <= |levels[c]| && Grown(before, forwardLevel)
        {
          marked := VisitNode(c, i, marked);
        }
        CloseLevel(g, Now(), marked, c);
        c := c + 1;
        if levels[c] == [] {
          moreLevels := false;
        } else {
          LevelAdds(g, start, Now(), c - 1);
        }
      }
      AllLevelized(g, Now(), marked, c);
    }
  }
}
