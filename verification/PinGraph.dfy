/** The netlist's pins, nodes and nets, which point at one another, and the operations that rewire them. */
module PinGraph {
  import opened Options

  datatype Dir = In | Out

  /** at is the pin's spot in its node, netAt its spot among its net's fanouts. */
  datatype Pin = Pin(dir: Option<Dir>, node: Option<nat>, at: nat, net: Option<nat>, netAt: nat, mapping: nat)

  /** One side of a node: its pin spots, some empty, and the sizes of its ports. */
  datatype Side = Side(pins: seq<Option<nat>>, sizes: seq<nat>)

  datatype Node = Node(ins: Side, outs: Side)

  datatype Net = Net(driver: Option<nat>, fanouts: seq<Option<nat>>)

  /** Pointers are indices. */
  datatype Store = Store(pins: seq<Pin>, nodes: seq<Node>, nets: seq<Net>)

  function SideOf(n: Node, d: Dir): Side {
    if d == In then n.ins else n.outs
  }

  function WithSide(n: Node, d: Dir, side: Side): (r: Node)
    ensures SideOf(r, d) == side
  {
    if d == In then n.(ins := side) else n.(outs := side)
  }

  // ----- Back pointers -----

  /** A pin in a node's spot points back at the spot. */
  predicate SpotOk(s: Store, v: nat, d: Dir, x: nat)
    requires v < |s.nodes| && x < |SideOf(s.nodes[v], d).pins|
  {
    var p := SideOf(s.nodes[v], d).pins[x];
    p.Some? ==> p.value < |s.pins| && s.pins[p.value].dir == Some(d) && s.pins[p.value].node == Some(v) && s.pins[p.value].at == x
  }

  /** A pin with a node is in the spot it points at; a pin with a net is that net's driver or the fanout it points at. */
  predicate PinOk(s: Store, p: nat)
    requires p < |s.pins|
  {
    var pin := s.pins[p];
    && (pin.node.Some? ==>
          && pin.dir.Some? && pin.node.value < |s.nodes| && pin.at < |SideOf(s.nodes[pin.node.value], pin.dir.value).pins|
          && SideOf(s.nodes[pin.node.value], pin.dir.value).pins[pin.at] == Some(p))
    && (pin.net.Some? ==>
          && pin.dir.Some? && pin.net.value < |s.nets|
          && (pin.dir == Some(In) ==> pin.netAt < |s.nets[pin.net.value].fanouts| && s.nets[pin.net.value].fanouts[pin.netAt] == Some(p))
          && (pin.dir == Some(Out) ==> s.nets[pin.net.value].driver == Some(p)))
  }

  predicate FanoutOk(s: Store, n: nat, k: nat)
    requires n < |s.nets| && k < |s.nets[n].fanouts|
  {
    var p := s.nets[n].fanouts[k];
    p.Some? ==> p.value < |s.pins| && s.pins[p.value].dir == Some(In) && s.pins[p.value].net == Some(n) && s.pins[p.value].netAt == k
  }

  predicate DriverOk(s: Store, n: nat)
    requires n < |s.nets|
  {
    var p := s.nets[n].driver;
    p.Some? ==> p.value < |s.pins| && s.pins[p.value].dir == Some(Out) && s.pins[p.value].net == Some(n)
  }

  /** Every pointer has its pointer back. */
  ghost predicate Consistent(s: Store) {
    && (forall v: nat, d: Dir, x: nat | v < |s.nodes| && x < |SideOf(s.nodes[v], d).pins| :: SpotOk(s, v, d, x))
    && (forall p: nat | p < |s.pins| :: PinOk(s, p))
    && (forall n: nat, k: nat | n < |s.nets| && k < |s.nets[n].fanouts| :: FanoutOk(s, n, k))
    && (forall n: nat | n < |s.nets| :: DriverOk(s, n))
  }

  // ----- Operations -----

  function NewPin(s: Store, mapping: nat): Store {
    s.(pins := s.pins + [Pin(None, None, 0, None, 0, mapping)])
  }

  function NewNode(s: Store): Store {
    s.(nodes := s.nodes + [Node(Side([], []), Side([], []))])
  }

  function NewNet(s: Store): Store {
    s.(nets := s.nets + [Net(None, [])])
  }

  /** One more, empty, spot. */
  function Grow(s: Store, v: nat, d: Dir): Store
    requires v < |s.nodes|
  {
    var side := SideOf(s.nodes[v], d);
    s.(nodes := s.nodes[v := WithSide(s.nodes[v], d, side.(pins := side.pins + [None]))])
  }

  function GrowBy(s: Store, v: nat, d: Dir, width: nat): (t: Store)
    requires v < |s.nodes|
    ensures |t.nodes| == |s.nodes|
  {
    if width == 0 then s else Grow(GrowBy(s, v, d, width - 1), v, d)
  }

  lemma {:induction false} GrowByAdds(s: Store, v: nat, d: Dir, width: nat)
    requires v < |s.nodes|
    ensures var side, more := SideOf(s.nodes[v], d), SideOf(GrowBy(s, v, d, width).nodes[v], d);
            && GrowBy(s, v, d, width) == s.(nodes := s.nodes[v := WithSide(s.nodes[v], d, more)]) && more.sizes == side.sizes
            && |more.pins| == |side.pins| + width && more.pins[..|side.pins|] == side.pins
            && forall x | |side.pins| <= x < |more.pins| :: more.pins[x] == None
  {
    if width > 0 {
      GrowByAdds(s, v, d, width - 1);
    }
  }

  function Attach(s: Store, p: nat, v: nat, d: Dir, x: nat): Store
    requires p < |s.pins| && v < |s.nodes| && x < |SideOf(s.nodes[v], d).pins|
  {
    var side := SideOf(s.nodes[v], d);
    s.(nodes := s.nodes[v := WithSide(s.nodes[v], d, side.(pins := side.pins[x := Some(p)]))],
       pins := s.pins[p := s.pins[p].(dir := Some(d), node := Some(v), at := x)])
  }

  /** Empties the spot a pin is in; the pin still points at it. */
  function Vacate(s: Store, p: nat): Store
    requires p < |s.pins| && s.pins[p].node.Some? && s.pins[p].dir.Some? && s.pins[p].node.value < |s.nodes|
    requires s.pins[p].at < |SideOf(s.nodes[s.pins[p].node.value], s.pins[p].dir.value).pins|
  {
    var v, d := s.pins[p].node.value, s.pins[p].dir.value;
    var side := SideOf(s.nodes[v], d);
    s.(nodes := s.nodes[v := WithSide(s.nodes[v], d, side.(pins := side.pins[s.pins[p].at := None]))])
  }

  /** The pin is attached, and its node and spot exist. */
  predicate Attached(s: Store, p: nat) {
    && p < |s.pins| && s.pins[p].node.Some? && s.pins[p].dir.Some? && s.pins[p].node.value < |s.nodes|
    && s.pins[p].at < |SideOf(s.nodes[s.pins[p].node.value], s.pins[p].dir.value).pins|
  }

  /** remap_pin_to_new_node. */
  function Remap(s: Store, p: nat, w: nat, x: nat): Store
    requires Attached(s, p) && w < |s.nodes| && x < |SideOf(s.nodes[w], s.pins[p].dir.value).pins|
  {
    Attach(Vacate(s, p), p, w, s.pins[p].dir.value, x)
  }

  function AddFanout(s: Store, n: nat, p: nat): Store
    requires n < |s.nets| && p < |s.pins|
  {
    s.(nets := s.nets[n := s.nets[n].(fanouts := s.nets[n].fanouts + [Some(p)])],
       pins := s.pins[p := s.pins[p].(dir := Some(In), net := Some(n), netAt := |s.nets[n].fanouts|)])
  }

  function AddDriver(s: Store, n: nat, p: nat): Store
    requires n < |s.nets| && p < |s.pins|
  {
    s.(nets := s.nets[n := s.nets[n].(driver := Some(p))],
       pins := s.pins[p := s.pins[p].(dir := Some(Out), net := Some(n))])
  }

  // ----- What the operations keep -----

  lemma NewPinKeeps(s: Store, mapping: nat)
    requires Consistent(s)
    ensures Consistent(NewPin(s, mapping))
  {
    var t := NewPin(s, mapping);
    forall v: nat, d: Dir, x: nat | v < |t.nodes| && x < |SideOf(t.nodes[v], d).pins| ensures SpotOk(t, v, d, x) {
      assert SpotOk(s, v, d, x);
    }
    forall p: nat | p < |t.pins| ensures PinOk(t, p) {
      assert p < |s.pins| ==> PinOk(s, p);
    }
    forall n: nat, k: nat | n < |t.nets| && k < |t.nets[n].fanouts| ensures FanoutOk(t, n, k) {
      assert FanoutOk(s, n, k);
    }
    forall n: nat | n < |t.nets| ensures DriverOk(t, n) {
      assert DriverOk(s, n);
    }
  }

  lemma NewNodeKeeps(s: Store)
    requires Consistent(s)
    ensures Consistent(NewNode(s))
  {
    var t := NewNode(s);
    forall v: nat, d: Dir, x: nat | v < |t.nodes| && x < |SideOf(t.nodes[v], d).pins| ensures SpotOk(t, v, d, x) {
      assert v < |s.nodes| && SpotOk(s, v, d, x);
    }
    forall p: nat | p < |t.pins| ensures PinOk(t, p) {
      assert PinOk(s, p);
    }
    forall n: nat, k: nat | n < |t.nets| && k < |t.nets[n].fanouts| ensures FanoutOk(t, n, k) {
      assert FanoutOk(s, n, k);
    }
    forall n: nat | n < |t.nets| ensures DriverOk(t, n) {
      assert DriverOk(s, n);
    }
  }

  lemma NewNetKeeps(s: Store)
    requires Consistent(s)
    ensures Consistent(NewNet(s))
  {
    var t := NewNet(s);
    forall v: nat, d: Dir, x: nat | v < |t.nodes| && x < |SideOf(t.nodes[v], d).pins| ensures SpotOk(t, v, d, x) {
      assert SpotOk(s, v, d, x);
    }
    forall p: nat | p < |t.pins| ensures PinOk(t, p) {
      assert PinOk(s, p);
    }
    forall n: nat, k: nat | n < |t.nets| && k < |t.nets[n].fanouts| ensures FanoutOk(t, n, k) {
      assert n < |s.nets| && FanoutOk(s, n, k);
    }
    forall n: nat | n < |t.nets| ensures DriverOk(t, n) {
      assert n < |s.nets| ==> DriverOk(s, n);
    }
  }

  lemma GrowKeeps(s: Store, v: nat, d: Dir)
    requires Consistent(s) && v < |s.nodes|
    ensures Consistent(Grow(s, v, d))
  {
    var t := Grow(s, v, d);
    forall w: nat, e: Dir, x: nat | w < |t.nodes| && x < |SideOf(t.nodes[w], e).pins| ensures SpotOk(t, w, e, x) {
      assert x < |SideOf(s.nodes[w], e).pins| ==> SpotOk(s, w, e, x);
    }
    forall p: nat | p < |t.pins| ensures PinOk(t, p) {
      assert PinOk(s, p);
    }
    forall n: nat, k: nat | n < |t.nets| && k < |t.nets[n].fanouts| ensures FanoutOk(t, n, k) {
      assert FanoutOk(s, n, k);
    }
    forall n: nat | n < |t.nets| ensures DriverOk(t, n) {
      assert DriverOk(s, n);
    }
  }

  /** A pin without a node goes into an empty spot; its side must not contradict its net. */
  lemma AttachKeeps(s: Store, p: nat, v: nat, d: Dir, x: nat)
    requires Consistent(s) && p < |s.pins| && s.pins[p].node == None && (s.pins[p].dir == None || s.pins[p].dir == Some(d))
    requires v < |s.nodes| && x < |SideOf(s.nodes[v], d).pins| && SideOf(s.nodes[v], d).pins[x] == None
    ensures Consistent(Attach(s, p, v, d, x))
  {
    var t := Attach(s, p, v, d, x);
    assert PinOk(s, p);
    forall w: nat, e: Dir, y: nat | w < |t.nodes| && y < |SideOf(t.nodes[w], e).pins| ensures SpotOk(t, w, e, y) {
      assert SpotOk(s, w, e, y);
    }
    forall q: nat | q < |t.pins| ensures PinOk(t, q) {
      assert PinOk(s, q);
    }
    forall n: nat, k: nat | n < |t.nets| && k < |t.nets[n].fanouts| ensures FanoutOk(t, n, k) {
      assert FanoutOk(s, n, k);
    }
    forall n: nat | n < |t.nets| ensures DriverOk(t, n) {
      assert DriverOk(s, n);
    }
  }

  /** A pin that another has pushed out of its spot points at a spot that is not its own. */
  lemma PushedOut(s: Store, t: Store, q: nat)
    requires q < |s.pins| && q < |t.pins| && PinOk(s, q) && t.pins[q] == s.pins[q] && s.pins[q].node.Some? && |t.nodes| == |s.nodes|
    requires var side := SideOf(t.nodes[s.pins[q].node.value], s.pins[q].dir.value).pins;
             s.pins[q].at < |side| ==> side[s.pins[q].at] != Some(q)
    ensures !Consistent(t)
  {
    assert !PinOk(t, q);
  }

  /** Putting a free pin into a spot keeps every back pointer exactly when the spot was empty. */
  lemma AttachExact(s: Store, p: nat, v: nat, d: Dir, x: nat)
    requires Consistent(s) && p < |s.pins| && s.pins[p].node == None && (s.pins[p].dir == None || s.pins[p].dir == Some(d))
    requires v < |s.nodes| && x < |SideOf(s.nodes[v], d).pins|
    ensures Consistent(Attach(s, p, v, d, x)) <==> SideOf(s.nodes[v], d).pins[x] == None
  {
    assert SpotOk(s, v, d, x);
    var spot := SideOf(s.nodes[v], d).pins[x];
    if spot.Some? {
      assert PinOk(s, spot.value);
      hide Consistent;
      PushedOut(s, Attach(s, p, v, d, x), spot.value);
    } else {
      AttachKeeps(s, p, v, d, x);
    }
  }

  /** Remapping keeps them exactly when the new spot is empty or the pin's own. */
  lemma RemapExact(s: Store, p: nat, w: nat, x: nat)
    requires Consistent(s) && Attached(s, p) && w < |s.nodes| && x < |SideOf(s.nodes[w], s.pins[p].dir.value).pins|
    ensures Consistent(Remap(s, p, w, x))
            <==> var spot := SideOf(s.nodes[w], s.pins[p].dir.value).pins[x]; spot == None || spot == Some(p)
  {
    var d := s.pins[p].dir.value;
    assert PinOk(s, p) && SpotOk(s, w, d, x);
    DetachKeeps(s, p);
    hide Consistent;
    var u := Vacate(s, p).(pins := s.pins[p := s.pins[p].(node := None)]);
    AttachExact(u, p, w, d, x);
    assert Attach(u, p, w, d, x) == Remap(s, p, w, x);
  }

  lemma DetachKeeps(s: Store, p: nat)
    requires Consistent(s) && Attached(s, p)
    ensures Consistent(Vacate(s, p).(pins := s.pins[p := s.pins[p].(node := None)]))
  {
    var t := Vacate(s, p).(pins := s.pins[p := s.pins[p].(node := None)]);
    assert PinOk(s, p);
    forall w: nat, e: Dir, y: nat | w < |t.nodes| && y < |SideOf(t.nodes[w], e).pins| ensures SpotOk(t, w, e, y) {
      assert SpotOk(s, w, e, y);
    }
    forall q: nat | q < |t.pins| ensures PinOk(t, q) {
      assert PinOk(s, q);
    }
    forall n: nat, k: nat | n < |t.nets| && k < |t.nets[n].fanouts| ensures FanoutOk(t, n, k) {
      assert FanoutOk(s, n, k);
    }
    forall n: nat | n < |t.nets| ensures DriverOk(t, n) {
      assert DriverOk(s, n);
    }
  }

  lemma AddFanoutKeeps(s: Store, n: nat, p: nat)
    requires Consistent(s) && n < |s.nets| && p < |s.pins| && s.pins[p].net == None && s.pins[p].dir != Some(Out)
    ensures Consistent(AddFanout(s, n, p))
  {
    var t := AddFanout(s, n, p);
    assert PinOk(s, p);
    forall w: nat, e: Dir, y: nat | w < |t.nodes| && y < |SideOf(t.nodes[w], e).pins| ensures SpotOk(t, w, e, y) {
      assert SpotOk(s, w, e, y);
    }
    forall q: nat | q < |t.pins| ensures PinOk(t, q) {
      assert PinOk(s, q);
    }
    forall m: nat, k: nat | m < |t.nets| && k < |t.nets[m].fanouts| ensures FanoutOk(t, m, k) {
      assert k < |s.nets[m].fanouts| ==> FanoutOk(s, m, k);
    }
    forall m: nat | m < |t.nets| ensures DriverOk(t, m) {
      assert DriverOk(s, m);
    }
  }

  lemma AddDriverKeeps(s: Store, n: nat, p: nat)
    requires Consistent(s) && n < |s.nets| && p < |s.pins| && s.pins[p].net == None && s.pins[p].dir != Some(In)
    requires s.nets[n].driver == None
    ensures Consistent(AddDriver(s, n, p))
  {
    var t := AddDriver(s, n, p);
    assert PinOk(s, p);
    forall w: nat, e: Dir, y: nat | w < |t.nodes| && y < |SideOf(t.nodes[w], e).pins| ensures SpotOk(t, w, e, y) {
      assert SpotOk(s, w, e, y);
    }
    forall q: nat | q < |t.pins| ensures PinOk(t, q) {
      assert PinOk(s, q);
    }
    forall m: nat, k: nat | m < |t.nets| && k < |t.nets[m].fanouts| ensures FanoutOk(t, m, k) {
      assert FanoutOk(s, m, k);
    }
    forall m: nat | m < |t.nets| ensures DriverOk(t, m) {
      assert DriverOk(s, m);
    }
  }

  /** A net takes a fanout and keeps the back pointers exactly when the pin had no net. */
  lemma AddFanoutExact(s: Store, n: nat, p: nat)
    requires Consistent(s) && n < |s.nets| && p < |s.pins| && s.pins[p].dir != Some(Out)
    ensures Consistent(AddFanout(s, n, p)) <==> s.pins[p].net == None
  {
    assert PinOk(s, p);
    if s.pins[p].net.Some? {
      assert s.pins[p].dir.value == In;
      var m, k := s.pins[p].net.value, s.pins[p].netAt;
      assert s.nets[m].fanouts[k] == Some(p);
      var t := AddFanout(s, n, p);
      assert t.nets[m].fanouts[k] == Some(p) && !FanoutOk(t, m, k);
    } else {
      AddFanoutKeeps(s, n, p);
    }
  }

  /** It takes a driver and keeps them exactly when neither had another. */
  lemma AddDriverExact(s: Store, n: nat, p: nat)
    requires Consistent(s) && n < |s.nets| && p < |s.pins| && s.pins[p].dir != Some(In)
    ensures Consistent(AddDriver(s, n, p)) <==> s.nets[n].driver == Some(p) || (s.nets[n].driver == None && s.pins[p].net == None)
  {
    assert PinOk(s, p) && DriverOk(s, n);
    var t := AddDriver(s, n, p);
    if s.nets[n].driver == Some(p) {
      assert t.pins[p] == s.pins[p] && t.nets[n] == s.nets[n];
      assert t == s;
    } else if s.nets[n].driver.Some? {
      var q := s.nets[n].driver.value;
      assert !PinOk(t, q);
    } else if s.pins[p].net.Some? {
      assert s.pins[p].dir.value == Out;
      assert !DriverOk(t, s.pins[p].net.value);
    } else {
      AddDriverKeeps(s, n, p);
    }
  }

  /** copy_input_npin: a new pin, another fanout of the pin's net if it has one. */
  function CopyInput(s: Store, p: nat): Store
    requires p < |s.pins| && (s.pins[p].net.Some? ==> s.pins[p].net.value < |s.nets|)
  {
    var t := NewPin(s, s.pins[p].mapping);
    if s.pins[p].net.Some? then AddFanout(t, s.pins[p].net.value, |s.pins|)
    else t.(pins := t.pins[|s.pins| := t.pins[|s.pins|].(dir := Some(In))])
  }

  lemma CopyInputKeeps(s: Store, p: nat)
    requires Consistent(s) && p < |s.pins|
    ensures s.pins[p].net.Some? ==> s.pins[p].net.value < |s.nets|
    ensures Consistent(CopyInput(s, p))
  {
    assert PinOk(s, p);
    NewPinKeeps(s, s.pins[p].mapping);
    var t := NewPin(s, s.pins[p].mapping);
    if s.pins[p].net.Some? {
      AddFanoutKeeps(t, s.pins[p].net.value, |s.pins|);
    } else {
      DirKeeps(t, |s.pins|);
    }
  }

  lemma DirKeeps(s: Store, p: nat)
    requires Consistent(s) && p < |s.pins| && s.pins[p].node == None && s.pins[p].net == None
    ensures Consistent(s.(pins := s.pins[p := s.pins[p].(dir := Some(In))]))
  {
    var t := s.(pins := s.pins[p := s.pins[p].(dir := Some(In))]);
    forall w: nat, e: Dir, y: nat | w < |t.nodes| && y < |SideOf(t.nodes[w], e).pins| ensures SpotOk(t, w, e, y) {
      assert SpotOk(s, w, e, y);
    }
    forall q: nat | q < |t.pins| ensures PinOk(t, q) {
      assert PinOk(s, q);
    }
    forall m: nat, k: nat | m < |t.nets| && k < |t.nets[m].fanouts| ensures FanoutOk(t, m, k) {
      assert FanoutOk(s, m, k);
    }
    forall m: nat | m < |t.nets| ensures DriverOk(t, m) {
      assert DriverOk(s, m);
    }
  }

  /** connect_nodes for an output spot that has a pin: one more fanout of that pin's net. */
  function Join(s: Store, n: nat, w: nat, x: nat): Store
    requires n < |s.nets| && w < |s.nodes| && x < |s.nodes[w].ins.pins|
  {
    AddFanout(Attach(NewPin(s, 0), |s.pins|, w, In, x), n, |s.pins|)
  }

  /** connect_nodes for an empty output spot: a net with the new pins as driver and fanout. */
  function Connect(s: Store, u: nat, i: nat, w: nat, x: nat): Store
    requires u < |s.nodes| && i < |s.nodes[u].outs.pins| && w < |s.nodes| && x < |s.nodes[w].ins.pins|
  {
    WithNewNet(Attach(NewPin(s, 0), |s.pins|, w, In, x), |s.pins|, u, i)
  }

  /** A new net whose driver is a new pin in an output spot and whose fanout is pin a. */
  function WithNewNet(s: Store, a: nat, u: nat, i: nat): Store
    requires a < |s.pins| && u < |s.nodes| && i < |s.nodes[u].outs.pins|
  {
    var b := Attach(NewPin(NewNet(s), 0), |s.pins|, u, Out, i);
    AddDriver(AddFanout(b, |s.nets|, a), |s.nets|, |s.pins|)
  }

  /** Joining keeps the back pointers exactly when the input spot was empty. */
  lemma JoinExact(s: Store, n: nat, w: nat, x: nat)
    requires Consistent(s) && n < |s.nets| && w < |s.nodes| && x < |s.nodes[w].ins.pins|
    ensures Consistent(Join(s, n, w, x)) <==> s.nodes[w].ins.pins[x] == None
  {
    assert SpotOk(s, w, In, x);
    var spot := s.nodes[w].ins.pins[x];
    if spot.Some? {
      assert PinOk(s, spot.value);
      hide Consistent;
      PushedOut(s, Join(s, n, w, x), spot.value);
    } else {
      JoinKeeps(s, n, w, x);
    }
  }

  lemma JoinKeeps(s: Store, n: nat, w: nat, x: nat)
    requires Consistent(s) && n < |s.nets| && w < |s.nodes| && x < |s.nodes[w].ins.pins| && s.nodes[w].ins.pins[x] == None
    ensures Consistent(Join(s, n, w, x))
  {
    hide Consistent;
    NewPinKeeps(s, 0);
    AttachKeeps(NewPin(s, 0), |s.pins|, w, In, x);
    AddFanoutKeeps(Attach(NewPin(s, 0), |s.pins|, w, In, x), n, |s.pins|);
  }

  /** So does connecting, from an empty output spot. */
  lemma ConnectExact(s: Store, u: nat, i: nat, w: nat, x: nat)
    requires Consistent(s) && u < |s.nodes| && i < |s.nodes[u].outs.pins| && w < |s.nodes| && x < |s.nodes[w].ins.pins|
    requires s.nodes[u].outs.pins[i] == None
    ensures Consistent(Connect(s, u, i, w, x)) <==> s.nodes[w].ins.pins[x] == None
  {
    assert SpotOk(s, w, In, x);
    var spot := s.nodes[w].ins.pins[x];
    if spot.Some? {
      assert PinOk(s, spot.value);
      hide Consistent;
      PushedOut(s, Connect(s, u, i, w, x), spot.value);
    } else {
      ConnectKeeps(s, u, i, w, x);
    }
  }

  lemma ConnectKeeps(s: Store, u: nat, i: nat, w: nat, x: nat)
    requires Consistent(s) && u < |s.nodes| && i < |s.nodes[u].outs.pins| && w < |s.nodes| && x < |s.nodes[w].ins.pins|
    requires s.nodes[u].outs.pins[i] == None && s.nodes[w].ins.pins[x] == None
    ensures Consistent(Connect(s, u, i, w, x))
  {
    hide Consistent;
    NewPinKeeps(s, 0);
    AttachKeeps(NewPin(s, 0), |s.pins|, w, In, x);
    var a := Attach(NewPin(s, 0), |s.pins|, w, In, x);
    NewNetKeeps(a);
    NewPinKeeps(NewNet(a), 0);
    var q := NewPin(NewNet(a), 0);
    assert q.nodes[u].outs == s.nodes[u].outs;
    AttachKeeps(q, |s.pins| + 1, u, Out, i);
    var b := Attach(q, |s.pins| + 1, u, Out, i);
    AddFanoutKeeps(b, |s.nets|, |s.pins|);
    AddDriverKeeps(AddFanout(b, |s.nets|, |s.pins|), |s.nets|, |s.pins| + 1);
  }

  /**
   * Output spot i of node u is connected to input spot x of node w: a new pin is in the input spot, it is on the net of the
   * pin in the output spot, as the last of that net's fanouts, and the pin in the output spot drives the net.
   */
  predicate Connected(s: Store, t: Store, u: nat, i: nat, w: nat, x: nat)
    requires u < |s.nodes| && i < |s.nodes[u].outs.pins| && w < |s.nodes| && x < |s.nodes[w].ins.pins|
  {
    var p := |s.pins|;
    && p < |t.pins| && u < |t.nodes| && w < |t.nodes| && i < |t.nodes[u].outs.pins| && x < |t.nodes[w].ins.pins|
    && t.nodes[w].ins.pins[x] == Some(p) && t.pins[p].dir == Some(In) && t.pins[p].node == Some(w) && t.pins[p].at == x
    && t.nodes[u].outs.pins[i].Some?
    && var q := t.nodes[u].outs.pins[i].value;
       && q < |t.pins| && t.pins[q].net.Some? && t.pins[p].net == t.pins[q].net
       && var n := t.pins[q].net.value;
          && n < |t.nets| && t.nets[n].driver == Some(q)
          && t.nets[n].fanouts == (if n < |s.nets| then s.nets[n].fanouts else []) + [Some(p)] && t.pins[p].netAt == |t.nets[n].fanouts| - 1
          && NothingElse(s, t, u, i, w, x, n)
  }

  /** All other spots, pins and nets are as before; only an empty output spot gets a pin, and with it a net. */
  predicate NothingElse(s: Store, t: Store, u: nat, i: nat, w: nat, x: nat, n: nat)
    requires u < |s.nodes| && i < |s.nodes[u].outs.pins| && w < |s.nodes| && x < |s.nodes[w].ins.pins|
  {
    var bare := s.nodes[u].outs.pins[i].None?;
    && |t.nodes| == |s.nodes| && |t.pins| == |s.pins| + (if bare then 2 else 1) && |t.nets| == |s.nets| + (if bare then 1 else 0)
    && (forall v | 0 <= v < |s.nodes| :: t.nodes[v].ins == if v == w then Side(s.nodes[w].ins.pins[x := Some(|s.pins|)], s.nodes[w].ins.sizes) else s.nodes[v].ins)
    && (forall v | 0 <= v < |s.nodes| :: t.nodes[v].outs == if v == u && bare then Side(s.nodes[u].outs.pins[i := Some(|s.pins| + 1)], s.nodes[u].outs.sizes) else s.nodes[v].outs)
    && (forall q | 0 <= q < |s.pins| :: t.pins[q] == s.pins[q])
    && (forall m | 0 <= m < |s.nets| && m != n :: t.nets[m] == s.nets[m])
    && (bare ==> n == |s.nets| && t.pins[|s.pins| + 1].dir == Some(Out) && t.pins[|s.pins| + 1].node == Some(u) && t.pins[|s.pins| + 1].at == i)
    && (!bare ==> n < |s.nets| && t.nets[n].driver == s.nets[n].driver)
  }

  lemma JoinConnects(s: Store, u: nat, i: nat, w: nat, x: nat)
    requires Consistent(s) && u < |s.nodes| && i < |s.nodes[u].outs.pins| && w < |s.nodes| && x < |s.nodes[w].ins.pins|
    requires s.nodes[u].outs.pins[i].Some? && s.nodes[u].outs.pins[i].value < |s.pins| && s.pins[s.nodes[u].outs.pins[i].value].net.Some?
    ensures s.pins[s.nodes[u].outs.pins[i].value].net.value < |s.nets|
    ensures Connected(s, Join(s, s.pins[s.nodes[u].outs.pins[i].value].net.value, w, x), u, i, w, x)
  {
    var q := s.nodes[u].outs.pins[i].value;
    assert SpotOk(s, u, Out, i) && PinOk(s, q);
    hide Consistent, SpotOk, PinOk;
  }

  lemma ConnectConnects(s: Store, u: nat, i: nat, w: nat, x: nat)
    requires u < |s.nodes| && i < |s.nodes[u].outs.pins| && w < |s.nodes| && x < |s.nodes[w].ins.pins| && s.nodes[u].outs.pins[i].None?
    ensures Connected(s, Connect(s, u, i, w, x), u, i, w, x)
  {
  }

  /** Pin p has gone from the spot it was in to spot x, on its side, of node w; all else is as before. */
  predicate Moved(s: Store, t: Store, p: nat, w: nat, x: nat)
    requires Attached(s, p)
  {
    var pin := s.pins[p];
    && |t.pins| == |s.pins| && t.nets == s.nets && |t.nodes| == |s.nodes|
    && t.pins[p].node == Some(w) && t.pins[p].at == x && t.pins[p].dir == pin.dir && t.pins[p].mapping == pin.mapping
    && t.pins[p].net == pin.net && t.pins[p].netAt == pin.netAt
    && (forall q | 0 <= q < |s.pins| && q != p :: t.pins[q] == s.pins[q])
    && (forall v, e | 0 <= v < |s.nodes| && e in {In, Out} ::
          SideOf(t.nodes[v], e).sizes == SideOf(s.nodes[v], e).sizes && |SideOf(t.nodes[v], e).pins| == |SideOf(s.nodes[v], e).pins|)
    && (forall v, e, y | 0 <= v < |s.nodes| && e in {In, Out} && 0 <= y < |SideOf(s.nodes[v], e).pins| ::
          SideOf(t.nodes[v], e).pins[y] == if v == w && Some(e) == pin.dir && y == x then Some(p)
                                          else if Some(v) == pin.node && Some(e) == pin.dir && y == pin.at then None
                                          else SideOf(s.nodes[v], e).pins[y])
  }

  lemma RemapMoves(s: Store, p: nat, w: nat, x: nat)
    requires Attached(s, p) && w < |s.nodes| && x < |SideOf(s.nodes[w], s.pins[p].dir.value).pins|
    ensures Moved(s, Remap(s, p, w, x), p, w, x)
  {
  }

  /** A new pin, in no node, is an input pin with p's mapping and, where p has a net, its net's last fanout; all else is as before. */
  predicate Copied(s: Store, t: Store, p: nat)
    requires p < |s.pins|
  {
    var q := |s.pins|;
    && |t.pins| == q + 1 && t.pins[..q] == s.pins && t.nodes == s.nodes && |t.nets| == |s.nets|
    && t.pins[q].dir == Some(In) && t.pins[q].node == None && t.pins[q].mapping == s.pins[p].mapping && t.pins[q].net == s.pins[p].net
    && (forall n | 0 <= n < |s.nets| :: t.nets[n].driver == s.nets[n].driver)
    && (forall n | 0 <= n < |s.nets| :: t.nets[n].fanouts == s.nets[n].fanouts + if s.pins[p].net == Some(n) then [Some(q)] else [])
    && (t.pins[q].net.Some? ==> t.pins[q].net.value < |s.nets| && t.pins[q].netAt == |s.nets[t.pins[q].net.value].fanouts|)
  }

  lemma CopyCopies(s: Store, p: nat)
    requires p < |s.pins| && (s.pins[p].net.Some? ==> s.pins[p].net.value < |s.nets|)
    ensures Copied(s, CopyInput(s, p), p)
  {
  }

  /** The netlist under construction. */
  class Graph {
    var pins: seq<Pin>
    var nodes: seq<Node>
    var nets: seq<Net>

    constructor ()
      ensures Now() == Store([], [], [])
    {
      pins, nodes, nets := [], [], [];
    }

    ghost function Now(): Store
      reads this
    {
      Store(pins, nodes, nets)
    }

    method AllocateNPin(mapping: nat) returns (p: nat)
      modifies this`pins
      ensures p == |old(pins)| && Now() == NewPin(old(Now()), mapping)
      ensures old(Consistent(Now())) ==> Consistent(Now())
    {
      if Consistent(Now()) {
        NewPinKeeps(Now(), mapping);
      }
      p := |pins|;
      pins := pins + [Pin(None, None, 0, None, 0, mapping)];
    }

    method AllocateNNode() returns (v: nat)
      modifies this`nodes
      ensures v == |old(nodes)| && Now() == NewNode(old(Now()))
      ensures old(Consistent(Now())) ==> Consistent(Now())
    {
      if Consistent(Now()) {
        NewNodeKeeps(Now());
      }
      v := |nodes|;
      nodes := nodes + [Node(Side([], []), Side([], []))];
    }

    method AllocateNNet() returns (n: nat)
      modifies this`nets
      ensures n == |old(nets)| && Now() == NewNet(old(Now()))
      ensures old(Consistent(Now())) ==> Consistent(Now())
    {
      if Consistent(Now()) {
        NewNetKeeps(Now());
      }
      n := |nets|;
      nets := nets + [Net(None, [])];
    }

    /** allocate_more_node_input_pins and allocate_more_node_output_pins; a width that is not positive adds nothing. */
    method AllocateMorePins(v: nat, d: Dir, width: int)
      requires Consistent(Now()) && v < |nodes|
      modifies this`nodes
      ensures Now() == GrowBy(old(Now()), v, d, if width > 0 then width else 0) && Consistent(Now())
    {
      hide Consistent;
      if width <= 0 {
        return;
      }
      for i := 0 to width
        invariant Consistent(Now()) && Now() == GrowBy(old(Now()), v, d, i)
      {
        GrowKeeps(Now(), v, d);
        var side := SideOf(nodes[v], d);
        nodes := nodes[v := WithSide(nodes[v], d, side.(pins := side.pins + [None]))];
      }
    }

    /** add_a_input_pin_to_node_spot_idx and add_a_output_pin_to_node_spot_idx. */
    method AddPinToNodeSpot(p: nat, v: nat, d: Dir, x: nat)
      requires p < |pins| && v < |nodes| && x < |SideOf(nodes[v], d).pins|
      modifies this
      ensures Now() == Attach(old(Now()), p, v, d, x)
      ensures old(Consistent(Now()) && pins[p].node == None && (pins[p].dir == None || pins[p].dir == Some(d)))
              ==> (Consistent(Now()) <==> old(SideOf(nodes[v], d).pins[x]) == None)
    {
      if Consistent(Now()) && pins[p].node == None && (pins[p].dir == None || pins[p].dir == Some(d)) {
        AttachExact(Now(), p, v, d, x);
      }
      var side := SideOf(nodes[v], d);
      nodes := nodes[v := WithSide(nodes[v], d, side.(pins := side.pins[x := Some(p)]))];
      pins := pins[p := pins[p].(dir := Some(d), node := Some(v), at := x)];
    }

    method AddAFanoutPinToNet(n: nat, p: nat)
      requires n < |nets| && p < |pins| && pins[p].dir != Some(Out)
      modifies this
      ensures Now() == AddFanout(old(Now()), n, p)
      ensures old(Consistent(Now())) ==> (Consistent(Now()) <==> old(pins[p].net) == None)
    {
      if Consistent(Now()) {
        AddFanoutExact(Now(), n, p);
      }
      nets := nets[n := nets[n].(fanouts := nets[n].fanouts + [Some(p)])];
      pins := pins[p := pins[p].(dir := Some(In), net := Some(n), netAt := |nets[n].fanouts| - 1)];
    }

    method AddADriverPinToNet(n: nat, p: nat)
      requires n < |nets| && p < |pins| && pins[p].dir != Some(In)
      modifies this
      ensures Now() == AddDriver(old(Now()), n, p)
      ensures old(Consistent(Now())) ==>
                (Consistent(Now()) <==> old(nets[n].driver) == Some(p) || (old(nets[n].driver) == None && old(pins[p].net) == None))
    {
      if Consistent(Now()) {
        AddDriverExact(Now(), n, p);
      }
      nets := nets[n := nets[n].(driver := Some(p))];
      pins := pins[p := pins[p].(net := Some(n), dir := Some(Out))];
    }

    /** Clears the pin's old spot and puts it in a new one, on the same side, over whatever is there. */
    method RemapPinToNewNode(p: nat, w: nat, x: nat)
      requires Attached(Now(), p) && w < |nodes| && x < |SideOf(nodes[w], pins[p].dir.value).pins|
      modifies this
      ensures Now() == Remap(old(Now()), p, w, x) && Moved(old(Now()), Now(), p, w, x)
      ensures old(Consistent(Now())) ==>
                (Consistent(Now())
                 <==> var spot := SideOf(old(nodes)[w], old(pins)[p].dir.value).pins[x]; spot == None || spot == Some(p))
    {
      if Consistent(Now()) {
        RemapExact(Now(), p, w, x);
      }
      RemapMoves(Now(), p, w, x);
      hide Consistent, Moved;
      var v, d := pins[p].node.value, pins[p].dir.value;
      var side := SideOf(nodes[v], d);
      nodes := nodes[v := WithSide(nodes[v], d, side.(pins := side.pins[pins[p].at := None]))];
      AddPinToNodeSpot(p, w, d, x);
    }

    method CopyInputNPin(p: nat) returns (q: nat)
      requires Consistent(Now()) && p < |pins| && pins[p].dir == Some(In)
      modifies this
      ensures q == |old(pins)| && (old(pins)[p].net.Some? ==> old(pins)[p].net.value < |old(nets)|)
      ensures Now() == CopyInput(old(Now()), p) && Copied(old(Now()), Now(), p) && Consistent(Now())
    {
      CopyInputKeeps(Now(), p);
      CopyCopies(Now(), p);
      hide Consistent, Copied;
      q := AllocateNPin(pins[p].mapping);
      if pins[p].net.Some? {
        AddAFanoutPinToNet(pins[p].net.value, q);
      } else {
        pins := pins[q := pins[q].(dir := Some(In))];
      }
    }

    /** The new net of connect_nodes. */
    method HookUp(a: nat, u: nat, i: nat)
      requires a < |pins| && pins[a].dir != Some(Out) && u < |nodes| && i < |nodes[u].outs.pins|
      modifies this
      ensures Now() == WithNewNet(old(Now()), a, u, i)
    {
      hide Consistent;
      var n := AllocateNNet();
      var b := AllocateNPin(0);
      AddPinToNodeSpot(b, u, Out, i);
      AddAFanoutPinToNet(n, a);
      AddADriverPinToNet(n, b);
    }

    /** A new input pin on the output's net; an output spot without a pin gets one, and a net. */
    method ConnectNodes(u: nat, i: nat, w: nat, x: nat)
      requires Consistent(Now()) && u < |nodes| && i < |nodes[u].outs.pins| && w < |nodes| && x < |nodes[w].ins.pins|
      requires nodes[u].outs.pins[i].Some? ==> nodes[u].outs.pins[i].value < |pins| && pins[nodes[u].outs.pins[i].value].net.Some?
      modifies this
      ensures Consistent(Now()) <==> old(nodes[w].ins.pins[x]) == None
      ensures Connected(old(Now()), Now(), u, i, w, x)
      ensures old(nodes[u].outs.pins[i]).None? ==> Now() == Connect(old(Now()), u, i, w, x)
      ensures old(nodes[u].outs.pins[i]).Some? ==>
                var n := old(pins)[old(nodes)[u].outs.pins[i].value].net.value;
                n < |old(nets)| && Now() == Join(old(Now()), n, w, x)
    {
      ghost var before := Now();
      var out := nodes[u].outs.pins[i];
      if out.Some? {
        JoinConnects(before, u, i, w, x);
        JoinExact(before, pins[out.value].net.value, w, x);
      } else {
        ConnectConnects(before, u, i, w, x);
        ConnectExact(before, u, i, w, x);
      }
      hide Consistent, Connected;
      var a := AllocateNPin(0);
      AddPinToNodeSpot(a, w, In, x);
      if out.None? {
        HookUp(a, u, i);
      } else {
        AddAFanoutPinToNet(pins[out.value].net.value, a);
      }
    }
  }
}
