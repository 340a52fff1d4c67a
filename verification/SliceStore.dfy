/** The netlist while a memory is being cut into slices: what the slices hold, what the original keeps, what stays as it was. */
module SliceStore {
  import opened Options
  import opened PinGraph
  import opened SlicePlan

  // ----- The store -----

  /** Pin p of the store stands for an entry: the original itself, or a new pin on its net. */
  predicate EntryOk(s0: Store, s: Store, pins: seq<Option<nat>>, e: Entry, p: nat) {
    && e.place < |pins| && pins[e.place].Some? && pins[e.place].value < |s0.pins| && p < |s.pins|
    && if e.Moved? then p == pins[e.place].value
       else p >= |s0.pins| && s.pins[p].net == s0.pins[pins[e.place].value].net && s.pins[p].mapping == s0.pins[pins[e.place].value].mapping
  }

  predicate SpotHolds(s0: Store, s: Store, pins: seq<Option<nat>>, e: Entry, spot: Option<nat>) {
    spot.Some? && EntryOk(s0, s, pins, e, spot.value)
  }

  /** One side of a slice holds these entries of the original side. */
  ghost predicate Holds(s0: Store, s: Store, pins: seq<Option<nat>>, side: Side, es: seq<Entry>) {
    |side.pins| == |es| && forall x | 0 <= x < |es| :: SpotHolds(s0, s, pins, es[x], side.pins[x])
  }

  /** What a slice should be so far. */
  datatype Slice = Slice(ins: seq<Entry>, outs: seq<Entry>, inSizes: seq<nat>, outSizes: seq<nat>)

  ghost predicate SliceOk(s0: Store, s: Store, v: nat, w: nat, slice: Slice)
    requires v < |s0.nodes| && w < |s.nodes|
  {
    && Holds(s0, s, s0.nodes[v].ins.pins, s.nodes[w].ins, slice.ins) && s.nodes[w].ins.sizes == slice.inSizes
    && Holds(s0, s, s0.nodes[v].outs.pins, s.nodes[w].outs, slice.outs) && s.nodes[w].outs.sizes == slice.outSizes
  }

  /** Pins that were there keep their nets and names, and no net loses a pin. */
  predicate PinsKept(s: Store, t: Store) {
    && |s.pins| <= |t.pins| && |s.nets| == |t.nets|
    && (forall p | 0 <= p < |s.pins| :: t.pins[p].net == s.pins[p].net && t.pins[p].mapping == s.pins[p].mapping && t.pins[p].dir == s.pins[p].dir)
    && (forall n | 0 <= n < |s.nets| :: t.nets[n].driver == s.nets[n].driver && s.nets[n].fanouts <= t.nets[n].fanouts)
  }

  /** What is left in the original is in its place. */
  predicate Remains(before: Side, now: Side) {
    && now.sizes == before.sizes && |now.pins| == |before.pins|
    && forall o | 0 <= o < |now.pins| && now.pins[o].Some? :: now.pins[o] == before.pins[o]
  }

  /** The split so far: the new nodes are the slices, the original keeps the rest, and nothing else changes. */
  ghost predicate Progress(s0: Store, s: Store, v: nat, slices: seq<Slice>) {
    && Consistent(s) && v < |s0.nodes| && |s.nodes| == |s0.nodes| + |slices| && PinsKept(s0, s)
    && Remains(s0.nodes[v].ins, s.nodes[v].ins) && Remains(s0.nodes[v].outs, s.nodes[v].outs)
    && (forall u | 0 <= u < |s0.nodes| && u != v :: s.nodes[u] == s0.nodes[u])
    && AllSlices(s0, s, v, slices)
  }

  ghost predicate AllSlices(s0: Store, s: Store, v: nat, slices: seq<Slice>)
    requires v < |s0.nodes| && |s.nodes| == |s0.nodes| + |slices|
  {
    forall i | 0 <= i < |slices| :: SliceOk(s0, s, v, |s0.nodes| + i, slices[i])
  }

  /** One more pin in a slice. */
  function Extend(slice: Slice, d: Dir, e: Entry, j: nat): Slice
    requires j < |if d == In then slice.inSizes else slice.outSizes|
  {
    if d == In then slice.(ins := slice.ins + [e], inSizes := slice.inSizes[j := slice.inSizes[j] + 1])
    else slice.(outs := slice.outs + [e], outSizes := slice.outSizes[j := slice.outSizes[j] + 1])
  }

  /** A new empty spot that counts in port j. */
  function GrowPort(s: Store, w: nat, d: Dir, j: nat): Store
    requires w < |s.nodes| && j < |SideOf(s.nodes[w], d).sizes|
  {
    var t := Grow(s, w, d);
    var side := SideOf(t.nodes[w], d);
    t.(nodes := t.nodes[w := WithSide(t.nodes[w], d, side.(sizes := side.sizes[j := side.sizes[j] + 1]))])
  }

  lemma GrowPortKeeps(s: Store, w: nat, d: Dir, j: nat)
    requires Consistent(s) && w < |s.nodes| && j < |SideOf(s.nodes[w], d).sizes|
    ensures Consistent(GrowPort(s, w, d, j))
  {
    GrowKeeps(s, w, d);
    SizesKeep(Grow(s, w, d), w, d, SideOf(Grow(s, w, d).nodes[w], d).sizes[j := SideOf(s.nodes[w], d).sizes[j] + 1]);
  }

  lemma SizesKeep(s: Store, w: nat, d: Dir, sizes: seq<nat>)
    requires Consistent(s) && w < |s.nodes|
    ensures Consistent(s.(nodes := s.nodes[w := WithSide(s.nodes[w], d, SideOf(s.nodes[w], d).(sizes := sizes))]))
  {
    var t := s.(nodes := s.nodes[w := WithSide(s.nodes[w], d, SideOf(s.nodes[w], d).(sizes := sizes))]);
    forall u: nat, e: Dir, x: nat | u < |t.nodes| && x < |SideOf(t.nodes[u], e).pins| ensures SpotOk(t, u, e, x) {
      assert SpotOk(s, u, e, x);
    }
    forall p: nat | p < |t.pins| ensures PinOk(t, p) {
      assert PinOk(s, p);
    }
    forall n: nat, k: nat | n < |t.nets| && k < |t.nets[n].fanouts| ensures FanoutOk(t, n, k) {
      assert FanoutOk(s, n, k);
    }
    forall n: nat | n < |t.nets| ensures DriverOk(t, n) {
      assert DriverOk(s, n);
    }
  }

  /** allocate a spot in w and remap a pin of the original into it. */
  function MoveIn(s: Store, p: nat, w: nat, d: Dir, j: nat): Store
    requires Attached(s, p) && s.pins[p].dir == Some(d) && w < |s.nodes| && j < |SideOf(s.nodes[w], d).sizes|
  {
    var t := GrowPort(s, w, d, j);
    Remap(t, p, w, |SideOf(s.nodes[w], d).pins|)
  }

  lemma MoveInKeeps(s: Store, p: nat, w: nat, d: Dir, j: nat)
    requires Consistent(s) && Attached(s, p) && s.pins[p].dir == Some(d) && w < |s.nodes| && j < |SideOf(s.nodes[w], d).sizes|
    ensures Attached(GrowPort(s, w, d, j), p) && Consistent(MoveIn(s, p, w, d, j))
  {
    GrowPortKeeps(s, w, d, j);
    hide Consistent;
    RemapExact(GrowPort(s, w, d, j), p, w, |SideOf(s.nodes[w], d).pins|);
  }

  lemma HoldsStays(s0: Store, s: Store, t: Store, pins: seq<Option<nat>>, side: Side, es: seq<Entry>)
    requires Holds(s0, s, pins, side, es) && PinsKept(s, t)
    ensures Holds(s0, t, pins, side, es)
  {
    forall x | 0 <= x < |es| ensures SpotHolds(s0, t, pins, es[x], side.pins[x]) {
      assert SpotHolds(s0, s, pins, es[x], side.pins[x]);
    }
  }

  lemma HoldsMore(s0: Store, s: Store, pins: seq<Option<nat>>, side: Side, es: seq<Entry>, more: Side, e: Entry, p: nat)
    requires Holds(s0, s, pins, side, es) && EntryOk(s0, s, pins, e, p) && more.pins == side.pins + [Some(p)]
    ensures Holds(s0, s, pins, more, es + [e])
  {
    hide EntryOk;
    forall x | 0 <= x < |es + [e]| ensures SpotHolds(s0, s, pins, (es + [e])[x], more.pins[x]) {
      if x < |es| {
        assert SpotHolds(s0, s, pins, es[x], side.pins[x]);
      }
    }
  }

  lemma SliceStays(s0: Store, s: Store, t: Store, v: nat, w: nat, slice: Slice)
    requires v < |s0.nodes| && w < |s.nodes| && w < |t.nodes| && SliceOk(s0, s, v, w, slice)
    requires t.nodes[w] == s.nodes[w] && PinsKept(s, t)
    ensures SliceOk(s0, t, v, w, slice)
  {
    hide PinsKept, Holds;
    HoldsStays(s0, s, t, s0.nodes[v].ins.pins, s.nodes[w].ins, slice.ins);
    HoldsStays(s0, s, t, s0.nodes[v].outs.pins, s.nodes[w].outs, slice.outs);
  }

  lemma SliceMore(s0: Store, s: Store, t: Store, v: nat, w: nat, slice: Slice, d: Dir, e: Entry, j: nat, p: nat)
    requires v < |s0.nodes| && w < |s.nodes| && w < |t.nodes| && SliceOk(s0, s, v, w, slice) && PinsKept(s, t)
    requires j < |SideOf(s.nodes[w], d).sizes| && EntryOk(s0, t, SideOf(s0.nodes[v], d).pins, e, p)
    requires t.nodes[w] == WithSide(s.nodes[w], d, Side(SideOf(s.nodes[w], d).pins + [Some(p)],
                                                          SideOf(s.nodes[w], d).sizes[j := SideOf(s.nodes[w], d).sizes[j] + 1]))
    ensures SliceOk(s0, t, v, w, Extend(slice, d, e, j))
  {
    hide PinsKept, Holds, EntryOk;
    HoldsStays(s0, s, t, s0.nodes[v].ins.pins, s.nodes[w].ins, slice.ins);
    HoldsStays(s0, s, t, s0.nodes[v].outs.pins, s.nodes[w].outs, slice.outs);
    if d == In {
      HoldsMore(s0, t, s0.nodes[v].ins.pins, s.nodes[w].ins, slice.ins, t.nodes[w].ins, e, p);
    } else {
      HoldsMore(s0, t, s0.nodes[v].outs.pins, s.nodes[w].outs, slice.outs, t.nodes[w].outs, e, p);
    }
  }

  lemma KeptTransitive(a: Store, b: Store, c: Store)
    requires PinsKept(a, b) && PinsKept(b, c)
    ensures PinsKept(a, c)
  {
  }

  /** What moving a pin does: a spot more in w, a spot empty in v. */
  lemma MoveInEffect(s: Store, v: nat, place: nat, p: nat, w: nat, d: Dir, j: nat)
    requires Consistent(s) && v < |s.nodes| && w < |s.nodes| && v != w && j < |SideOf(s.nodes[w], d).sizes|
    requires place < |SideOf(s.nodes[v], d).pins| && SideOf(s.nodes[v], d).pins[place] == Some(p)
    ensures Attached(s, p) && s.pins[p].dir == Some(d)
    ensures var t := MoveIn(s, p, w, d, j);
            && Consistent(t) && PinsKept(s, t) && |t.nodes| == |s.nodes| && |t.pins| == |s.pins|
            && t.nodes[v] == WithSide(s.nodes[v], d, SideOf(s.nodes[v], d).(pins := SideOf(s.nodes[v], d).pins[place := None]))
            && t.nodes[w] == WithSide(s.nodes[w], d, Side(SideOf(s.nodes[w], d).pins + [Some(p)],
                                                            SideOf(s.nodes[w], d).sizes[j := SideOf(s.nodes[w], d).sizes[j] + 1]))
            && forall u | 0 <= u < |s.nodes| && u != v && u != w :: t.nodes[u] == s.nodes[u]
  {
    assert SpotOk(s, v, d, place);
    hide Consistent;
    MoveInKeeps(s, p, w, d, j);
  }

  lemma RemainsLess(before: Side, now: Side, place: nat)
    requires Remains(before, now) && place < |now.pins|
    ensures Remains(before, now.(pins := now.pins[place := None]))
  {
  }

  /** The original pin in a place that is still taken. */
  lemma Original(s0: Store, s: Store, v: nat, d: Dir, place: nat, p: nat)
    requires Consistent(s0) && v < |s0.nodes| && v < |s.nodes| && Remains(SideOf(s0.nodes[v], d), SideOf(s.nodes[v], d))
    requires place < |SideOf(s.nodes[v], d).pins| && SideOf(s.nodes[v], d).pins[place] == Some(p)
    ensures place < |SideOf(s0.nodes[v], d).pins| && SideOf(s0.nodes[v], d).pins[place] == Some(p) && p < |s0.pins|
  {
    assert SpotOk(s0, v, d, place);
  }

  /** All slices but the last stay as they are, the last one grows. */
  lemma SlicesStep(s0: Store, s: Store, t: Store, v: nat, slices: seq<Slice>, last: Slice)
    requires slices != [] && v < |s0.nodes| && |s.nodes| == |t.nodes| == |s0.nodes| + |slices| && PinsKept(s, t)
    requires AllSlices(s0, s, v, slices)
    requires forall u | 0 <= u < |s.nodes| && u != v && u != |s.nodes| - 1 :: t.nodes[u] == s.nodes[u]
    requires SliceOk(s0, t, v, |s.nodes| - 1, last)
    ensures AllSlices(s0, t, v, slices[|slices| - 1 := last])
  {
    hide SliceOk, PinsKept;
    var next := slices[|slices| - 1 := last];
    forall i | 0 <= i < |next| ensures SliceOk(s0, t, v, |s0.nodes| + i, next[i]) {
      if i < |slices| - 1 {
        SliceStays(s0, s, t, v, |s0.nodes| + i, slices[i]);
      }
    }
  }

  lemma MoveStep(s0: Store, s: Store, v: nat, slices: seq<Slice>, d: Dir, e: Entry, j: nat, p: nat)
    requires Consistent(s0) && Progress(s0, s, v, slices) && slices != [] && e.Moved?
    requires j < |SideOf(s.nodes[|s.nodes| - 1], d).sizes|
    requires e.place < |SideOf(s.nodes[v], d).pins| && SideOf(s.nodes[v], d).pins[e.place] == Some(p)
    ensures Attached(s, p) && s.pins[p].dir == Some(d)
    ensures var t := MoveIn(s, p, |s.nodes| - 1, d, j);
            && j < |if d == In then slices[|slices| - 1].inSizes else slices[|slices| - 1].outSizes|
            && Progress(s0, t, v, slices[|slices| - 1 := Extend(slices[|slices| - 1], d, e, j)])
            && t.nodes[v] == WithSide(s.nodes[v], d, SideOf(s.nodes[v], d).(pins := SideOf(s.nodes[v], d).pins[e.place := None]))
  {
    hide Consistent, SliceOk, Remains, PinsKept, EntryOk;
    var w, last := |s.nodes| - 1, slices[|slices| - 1];
    assert SliceOk(s0, s, v, |s0.nodes| + (|slices| - 1), last);
    MoveInEffect(s, v, e.place, p, w, d, j);
    var t := MoveIn(s, p, w, d, j);
    SizesAgree(s0, s, v, w, last, d);
    Original(s0, s, v, d, e.place, p);
    KeptTransitive(s0, s, t);
    RemainsLess(SideOf(s0.nodes[v], d), SideOf(s.nodes[v], d), e.place);
    MovedOk(s0, t, SideOf(s0.nodes[v], d).pins, e, p);
    SliceMore(s0, s, t, v, w, last, d, e, j, p);
    SlicesStep(s0, s, t, v, slices, Extend(last, d, e, j));
  }

  lemma SizesAgree(s0: Store, s: Store, v: nat, w: nat, slice: Slice, d: Dir)
    requires v < |s0.nodes| && w < |s.nodes| && SliceOk(s0, s, v, w, slice)
    ensures SideOf(s.nodes[w], d).sizes == if d == In then slice.inSizes else slice.outSizes
    ensures |SideOf(s.nodes[w], d).pins| == |if d == In then slice.ins else slice.outs|
  {
  }

  lemma MovedOk(s0: Store, t: Store, pins: seq<Option<nat>>, e: Entry, p: nat)
    requires e.Moved? && e.place < |pins| && pins[e.place] == Some(p) && p < |s0.pins| && PinsKept(s0, t)
    ensures EntryOk(s0, t, pins, e, p)
  {
  }

  /** allocate a spot in w for a copy of an input pin. */
  function CopyIn(s: Store, p: nat, w: nat, j: nat): Store
    requires p < |s.pins| && (s.pins[p].net.Some? ==> s.pins[p].net.value < |s.nets|) && w < |s.nodes| && j < |s.nodes[w].ins.sizes|
  {
    Attach(CopyInput(GrowPort(s, w, In, j), p), |s.pins|, w, In, |s.nodes[w].ins.pins|)
  }

  lemma CopyInEffect(s: Store, p: nat, w: nat, j: nat)
    requires Consistent(s) && p < |s.pins| && w < |s.nodes| && j < |s.nodes[w].ins.sizes|
    ensures s.pins[p].net.Some? ==> s.pins[p].net.value < |s.nets|
    ensures var t := CopyIn(s, p, w, j);
            && Consistent(t) && PinsKept(s, t) && |t.nodes| == |s.nodes| && |t.pins| == |s.pins| + 1
            && t.pins[|s.pins|].net == s.pins[p].net && t.pins[|s.pins|].mapping == s.pins[p].mapping
            && t.nodes[w] == s.nodes[w].(ins := Side(s.nodes[w].ins.pins + [Some(|s.pins|)], s.nodes[w].ins.sizes[j := s.nodes[w].ins.sizes[j] + 1]))
            && forall u | 0 <= u < |s.nodes| && u != w :: t.nodes[u] == s.nodes[u]
  {
    GrowPortKeeps(s, w, In, j);
    var g := GrowPort(s, w, In, j);
    CopyInputKeeps(g, p);
    hide Consistent;
    AttachKeeps(CopyInput(g, p), |s.pins|, w, In, |s.nodes[w].ins.pins|);
  }

  lemma CopyStep(s0: Store, s: Store, v: nat, slices: seq<Slice>, e: Entry, j: nat, p: nat)
    requires Consistent(s0) && Progress(s0, s, v, slices) && slices != [] && e.Copied?
    requires j < |s.nodes[|s.nodes| - 1].ins.sizes|
    requires e.place < |s.nodes[v].ins.pins| && s.nodes[v].ins.pins[e.place] == Some(p)
    ensures p < |s.pins| && s.pins[p].dir == Some(In) && (s.pins[p].net.Some? ==> s.pins[p].net.value < |s.nets|)
    ensures var t := CopyIn(s, p, |s.nodes| - 1, j);
            && j < |slices[|slices| - 1].inSizes|
            && Progress(s0, t, v, slices[|slices| - 1 := Extend(slices[|slices| - 1], In, e, j)])
            && t.nodes[v] == s.nodes[v]
  {
    assert SpotOk(s, v, In, e.place);
    hide Consistent, SliceOk, Remains, PinsKept, EntryOk;
    var w, last := |s.nodes| - 1, slices[|slices| - 1];
    assert SliceOk(s0, s, v, |s0.nodes| + (|slices| - 1), last);
    CopyInEffect(s, p, w, j);
    var t := CopyIn(s, p, w, j);
    SizesAgree(s0, s, v, w, last, In);
    Original(s0, s, v, In, e.place, p);
    KeptTransitive(s0, s, t);
    CopiedOk(s0, s, t, s0.nodes[v].ins.pins, e, p);
    SliceMore(s0, s, t, v, w, last, In, e, j, |s.pins|);
    SlicesStep(s0, s, t, v, slices, Extend(last, In, e, j));
  }

  lemma CopiedOk(s0: Store, s: Store, t: Store, pins: seq<Option<nat>>, e: Entry, p: nat)
    requires e.Copied? && e.place < |pins| && pins[e.place] == Some(p) && p < |s0.pins| && PinsKept(s0, s) && |t.pins| == |s.pins| + 1
    requires t.pins[|s.pins|].net == s.pins[p].net && t.pins[|s.pins|].mapping == s.pins[p].mapping
    ensures EntryOk(s0, t, pins, e, |s.pins|)
  {
  }

  function Zeros(n: nat): (zs: seq<nat>)
    ensures |zs| == n
  {
    if n == 0 then [] else Zeros(n - 1) + [0]
  }

  /** A new node with empty ports. */
  function OpenSlice(s: Store, ins: nat, outs: nat): Store {
    s.(nodes := s.nodes + [Node(Side([], Zeros(ins)), Side([], Zeros(outs)))])
  }

  lemma OpenStep(s0: Store, s: Store, v: nat, slices: seq<Slice>, ins: nat, outs: nat)
    requires Progress(s0, s, v, slices)
    ensures Progress(s0, OpenSlice(s, ins, outs), v, slices + [Slice([], [], Zeros(ins), Zeros(outs))])
    ensures OpenSlice(s, ins, outs).nodes[v] == s.nodes[v]
  {
    var t := OpenSlice(s, ins, outs);
    assert Consistent(t) by { OpenKeeps(s, ins, outs); }
    hide Consistent;
    var next := slices + [Slice([], [], Zeros(ins), Zeros(outs))];
    assert PinsKept(s, t);
    forall i | 0 <= i < |next| ensures SliceOk(s0, t, v, |s0.nodes| + i, next[i]) {
      if i < |slices| {
        SliceStays(s0, s, t, v, |s0.nodes| + i, slices[i]);
      }
    }
  }

  lemma OpenKeeps(s: Store, ins: nat, outs: nat)
    requires Consistent(s)
    ensures Consistent(OpenSlice(s, ins, outs))
  {
    var t := OpenSlice(s, ins, outs);
    forall u: nat, e: Dir, x: nat | u < |t.nodes| && x < |SideOf(t.nodes[u], e).pins| ensures SpotOk(t, u, e, x) {
      assert u < |s.nodes| && SpotOk(s, u, e, x);
    }
    forall p: nat | p < |t.pins| ensures PinOk(t, p) {
      assert PinOk(s, p);
    }
    forall n: nat, k: nat | n < |t.nets| && k < |t.nets[n].fanouts| ensures FanoutOk(t, n, k) {
      assert FanoutOk(s, n, k);
    }
    forall n: nat | n < |t.nets| ensures DriverOk(t, n) {
      assert DriverOk(s, n);
    }
  }
}
