/**
 * Everything that power is added up over: the primitives and the multiplexed output pins below every block of the grid,
 * listed once each, and what one of them adds.
 */
module PowerSites {
  import opened Options
  import opened MuxCount
  import opened PowerUse

  // ----- Where power is used -----

  /** A node of a block's graph, what is placed in it, and its library entry. */
  datatype Place = Place(node: Node, block: Option<Block>, entry: Instance)

  /** The way to a child: its type's number and its own. */
  datatype Step = Step(kind: nat, index: nat)

  /** A primitive as a whole, or an output pin of one of a node's interconnects. */
  datatype Site = Primitive | Output(interconnect: nat, port: nat, pin: nat)

  datatype Item = Item(path: seq<Step>, site: Site, place: Place)

  /** The first library entry of that name. */
  ghost predicate FirstNamed(entries: seq<Instance>, name: string, entry: Instance) {
    exists e | 0 <= e < |entries| :: entries[e] == entry && entry.name == name && forall j | 0 <= j < e :: entries[j].name != name
  }

  /** The mode of the block, or the first one where nothing is placed. */
  predicate InMode(p: Place, mode: Mode) {
    var m := if p.block.Some? then p.block.value.mode else 0;
    m < |p.node.modes| && p.node.modes[m] == mode
  }

  /** A child in that mode that the entry's own entries know, with what is placed in it. */
  ghost predicate Child(up: Place, s: Step, down: Place) {
    && up.entry.Sum? && FirstNamed(up.entry.children, down.node.name, down.entry)
    && (exists mode | mode in up.node.modes && InMode(up, mode) ::
          s.kind < |mode.children| && s.index < |mode.children[s.kind]| && down.node == mode.children[s.kind][s.index])
    && down.block ==
       if up.block.Some? && s.kind < |up.block.value.children| && s.index < |up.block.value.children[s.kind]|
       then up.block.value.children[s.kind][s.index] else None
  }

  ghost predicate Leads(start: Place, path: seq<Step>, end: Place)
    decreases path
  {
    if path == [] then start == end else exists mid :: Child(start, path[0], mid) && Leads(mid, path[1..], end)
  }

  /** What is counted at a place: a macro, and the output pins of multiplexed interconnects without a clock among their inputs. */
  ghost predicate Counted(p: Place, site: Site) {
    match site
    case Primitive => p.entry.Macro?
    case Output(c, x, y) =>
      && p.entry.Sum?
      && exists mode | mode in p.node.modes && InMode(p, mode) ::
           && c < |mode.interconnects| && mode.interconnects[c].Muxed?
           && x < |mode.interconnects[c].outputs| && y < |mode.interconnects[c].outputs[x]|
           && forall i, j | 0 <= i < |mode.interconnects[c].inputs| && 0 <= j < |mode.interconnects[c].inputs[i]| ::
                !mode.interconnects[c].inputs[i][j].clock
  }

  predicate SameKey(a: Item, b: Item) {
    a.path == b.path && a.site == b.site
  }

  predicate Apart(items: seq<Item>) {
    forall i, j | 0 <= i < j < |items| :: !SameKey(items[i], items[j])
  }

  ghost predicate Belongs(start: Place, item: Item) {
    Leads(start, item.path, item.place) && Counted(item.place, item.site)
  }

  /** The list has everything that is counted below a place, once. */
  ghost predicate ListsAll(start: Place, items: seq<Item>) {
    Apart(items) && forall item :: item in items <==> Belongs(start, item)
  }

  // ----- The list -----

  predicate PlaceOk(p: Place) {
    InstanceOk(p.entry) && Fits(p.node, p.block, p.entry)
  }

  function ModeHere(p: Place): Mode
    requires PlaceOk(p) && p.entry.Sum?
  {
    p.node.modes[ModeOf(p.block)]
  }

  function Known(p: Place, t: nat, k: nat): (known: bool)
    requires PlaceOk(p) && p.entry.Sum? && t < |ModeHere(p).children| && k < |ModeHere(p).children[t]|
  {
    Entry(p.entry.children, ModeHere(p).children[t][k].name) < |p.entry.children|
  }

  function ChildPlace(p: Place, t: nat, k: nat): (q: Place)
    requires PlaceOk(p) && p.entry.Sum? && t < |ModeHere(p).children| && k < |ModeHere(p).children[t]| && Known(p, t, k)
    ensures q.entry < p.entry && PlaceOk(q)
  {
    var child := ModeHere(p).children[t][k];
    Place(child, ChildOf(p.block, t, k), p.entry.children[Entry(p.entry.children, child.name)])
  }

  function Under(s: Step, items: seq<Item>): (r: seq<Item>)
    ensures |r| == |items|
  {
    if items == [] then [] else Under(s, items[..|items| - 1]) + [items[|items| - 1].(path := [s] + items[|items| - 1].path)]
  }

  /** The first y pins of output port x. */
  function PinItems(p: Place, c: nat, x: nat, y: nat): (r: seq<Item>)
    ensures |r| == y
  {
    if y == 0 then [] else PinItems(p, c, x, y - 1) + [Item([], Output(c, x, y - 1), p)]
  }

  /** The first x output ports. */
  function PortItems(p: Place, c: nat, outputs: seq<seq<Pin>>, x: nat): seq<Item>
    requires x <= |outputs|
  {
    if x == 0 then [] else PortItems(p, c, outputs, x - 1) + PinItems(p, c, x - 1, |outputs[x - 1]|)
  }

  function InterconnectItems(p: Place, c: nat, i: Interconnect): seq<Item> {
    if i.Direct? || HasClock(Flat(i.inputs)) then [] else PortItems(p, c, i.outputs, |i.outputs|)
  }

  /** The first c interconnects. */
  function InterconnectsItems(p: Place, cs: seq<Interconnect>, c: nat): seq<Item>
    requires c <= |cs|
  {
    if c == 0 then [] else InterconnectsItems(p, cs, c - 1) + InterconnectItems(p, c - 1, cs[c - 1])
  }

  function Items(p: Place): seq<Item>
    requires PlaceOk(p)
    decreases p.entry, 3, 0, 0
  {
    match p.entry
    case Ignore(_) => []
    case Macro(_, _, _, _, _) => [Item([], Primitive, p)]
    case Sum(_, _) =>
      TypeItems(p, |ModeHere(p).children|) + InterconnectsItems(p, ModeHere(p).interconnects, |ModeHere(p).interconnects|)
  }

  /** The first t child types. */
  function TypeItems(p: Place, t: nat): seq<Item>
    requires PlaceOk(p) && p.entry.Sum? && t <= |ModeHere(p).children|
    decreases p.entry, 2, t, 0
  {
    if t == 0 then [] else TypeItems(p, t - 1) + ChildrenItems(p, t - 1, |ModeHere(p).children[t - 1]|)
  }

  /** The first k children of type t. */
  function ChildrenItems(p: Place, t: nat, k: nat): seq<Item>
    requires PlaceOk(p) && p.entry.Sum? && t < |ModeHere(p).children| && k <= |ModeHere(p).children[t]|
    decreases p.entry, 1, t, k
  {
    if k == 0 then [] else ChildrenItems(p, t, k - 1) + ChildItems(p, t, k - 1)
  }

  function ChildItems(p: Place, t: nat, k: nat): seq<Item>
    requires PlaceOk(p) && p.entry.Sum? && t < |ModeHere(p).children| && k < |ModeHere(p).children[t]|
    decreases p.entry, 0, t, k
  {
    if Known(p, t, k) then Under(Step(t, k), Items(ChildPlace(p, t, k))) else []
  }

  // ----- The list is complete -----

  lemma {:induction false} UnderHas(s: Step, items: seq<Item>, item: Item)
    ensures item in Under(s, items) <==> item.path != [] && item.path[0] == s && item.(path := item.path[1..]) in items
  {
    if items != [] {
      var n := |items| - 1;
      UnderHas(s, items[..n], item);
      assert items == items[..n] + [items[n]];
      if item.path != [] && item.path[0] == s {
        assert item.path == [s] + item.path[1..];
      }
      assert ([s] + items[n].path)[1..] == items[n].path;
    }
  }

  lemma {:induction false} PinHas(p: Place, c: nat, x: nat, y: nat, item: Item)
    ensures item in PinItems(p, c, x, y)
            <==> item.path == [] && item.place == p && item.site.Output? && item.site.interconnect == c && item.site.port == x && item.site.pin < y
  {
    if y > 0 {
      PinHas(p, c, x, y - 1, item);
    }
  }

  lemma {:induction false} PortHas(p: Place, c: nat, outputs: seq<seq<Pin>>, x: nat, item: Item)
    requires x <= |outputs|
    ensures item in PortItems(p, c, outputs, x)
            <==> item.path == [] && item.place == p && item.site.Output? && item.site.interconnect == c && item.site.port < x && item.site.pin < |outputs[item.site.port]|
  {
    if x > 0 {
      PortHas(p, c, outputs, x - 1, item);
      PinHas(p, c, x - 1, |outputs[x - 1]|, item);
    }
  }

  ghost predicate ClockFree(inputs: seq<seq<Pin>>) {
    forall i, j | 0 <= i < |inputs| && 0 <= j < |inputs[i]| :: !inputs[i][j].clock
  }

  lemma {:induction false} FlatHas(inputs: seq<seq<Pin>>, p: Pin)
    ensures p in Flat(inputs) <==> exists i | 0 <= i < |inputs| :: p in inputs[i]
  {
    if inputs != [] {
      var n := |inputs| - 1;
      FlatHas(inputs[..n], p);
      if i :| 0 <= i < n && p in inputs[..n][i] {
        assert p in inputs[i];
      }
      if i :| 0 <= i < n && p in inputs[i] {
        assert p in inputs[..n][i];
      }
    }
  }

  lemma NoClock(inputs: seq<seq<Pin>>)
    ensures HasClock(Flat(inputs)) <==> !ClockFree(inputs)
  {
    hide Flat;
    if HasClock(Flat(inputs)) {
      var p :| p in Flat(inputs) && p.clock;
      FlatHas(inputs, p);
      var i :| 0 <= i < |inputs| && p in inputs[i];
      var j :| 0 <= j < |inputs[i]| && inputs[i][j] == p;
    }
    if i, j :| 0 <= i < |inputs| && 0 <= j < |inputs[i]| && inputs[i][j].clock {
      FlatHas(inputs, inputs[i][j]);
    }
  }

  /** Output pins of the first c interconnects that are counted. */
  ghost predicate OutputOf(p: Place, cs: seq<Interconnect>, c: nat, item: Item) {
    && item.path == [] && item.place == p && item.site.Output? && item.site.interconnect < c <= |cs|
    && var i := cs[item.site.interconnect];
       i.Muxed? && ClockFree(i.inputs) && item.site.port < |i.outputs| && item.site.pin < |i.outputs[item.site.port]|
  }

  lemma {:induction false} InterconnectsHas(p: Place, cs: seq<Interconnect>, c: nat, item: Item)
    requires c <= |cs|
    ensures item in InterconnectsItems(p, cs, c) <==> OutputOf(p, cs, c, item)
  {
    hide HasClock, ClockFree, Flat, PortItems;
    if c > 0 {
      InterconnectsHas(p, cs, c - 1, item);
      var i := cs[c - 1];
      if i.Muxed? {
        NoClock(i.inputs);
        PortHas(p, c - 1, i.outputs, |i.outputs|, item);
      }
    }
  }

  lemma {:induction false} ChildrenHas(p: Place, t: nat, k: nat, item: Item)
    requires PlaceOk(p) && p.entry.Sum? && t < |ModeHere(p).children| && k <= |ModeHere(p).children[t]|
    ensures item in ChildrenItems(p, t, k)
            <==> item.path != [] && item.path[0].kind == t && item.path[0].index < k && item in ChildItems(p, t, item.path[0].index)
    decreases k
  {
    hide PlaceOk, ModeHere, Items;
    if k > 0 {
      ChildrenHas(p, t, k - 1, item);
      ChildFirst(p, t, k - 1, item);
    }
  }

  lemma ChildFirst(p: Place, t: nat, k: nat, item: Item)
    requires PlaceOk(p) && p.entry.Sum? && t < |ModeHere(p).children| && k < |ModeHere(p).children[t]|
    ensures item in ChildItems(p, t, k) ==> item.path != [] && item.path[0] == Step(t, k)
    ensures item in ChildItems(p, t, k)
            <==> Known(p, t, k) && item.path != [] && item.path[0] == Step(t, k) && item.(path := item.path[1..]) in Items(ChildPlace(p, t, k))
  {
    hide PlaceOk, ModeHere, Items, Under;
    if Known(p, t, k) {
      UnderHas(Step(t, k), Items(ChildPlace(p, t, k)), item);
    }
  }

  lemma {:induction false} TypesHas(p: Place, t: nat, item: Item)
    requires PlaceOk(p) && p.entry.Sum? && t <= |ModeHere(p).children|
    ensures item in TypeItems(p, t)
            <==> && item.path != [] && item.path[0].kind < t && item.path[0].index < |ModeHere(p).children[item.path[0].kind]|
                 && item in ChildItems(p, item.path[0].kind, item.path[0].index)
    decreases t
  {
    hide PlaceOk, ModeHere, ChildItems, ChildrenItems;
    if t > 0 {
      TypesHas(p, t - 1, item);
      ChildrenHas(p, t - 1, |ModeHere(p).children[t - 1]|, item);
    }
  }

  lemma EntryNamed(entries: seq<Instance>, name: string, entry: Instance)
    ensures FirstNamed(entries, name, entry) <==> Entry(entries, name) < |entries| && entries[Entry(entries, name)] == entry
  {
  }

  lemma ModeUnique(p: Place, mode: Mode)
    requires PlaceOk(p) && p.entry.Sum?
    ensures mode in p.node.modes && InMode(p, mode) <==> mode == ModeHere(p)
  {
  }

  lemma ChildUnique(p: Place, s: Step, q: Place)
    requires PlaceOk(p) && p.entry.Sum?
    ensures Child(p, s, q) <==>
              && s.kind < |ModeHere(p).children| && s.index < |ModeHere(p).children[s.kind]|
              && Known(p, s.kind, s.index) && q == ChildPlace(p, s.kind, s.index)
  {
    hide InMode, PlaceOk, ModeHere, FirstNamed, Entry;
    ModeUnique(p, ModeHere(p));
    forall mode ensures mode in p.node.modes && InMode(p, mode) <==> mode == ModeHere(p) {
      ModeUnique(p, mode);
    }
    EntryNamed(p.entry.children, q.node.name, q.entry);
  }

  lemma CountedHere(p: Place, item: Item)
    requires PlaceOk(p) && p.entry.Sum? && item.path == []
    ensures Belongs(p, item) <==> OutputOf(p, ModeHere(p).interconnects, |ModeHere(p).interconnects|, item)
  {
    hide InMode, PlaceOk, ModeHere;
    ModeUnique(p, ModeHere(p));
    forall mode ensures mode in p.node.modes && InMode(p, mode) <==> mode == ModeHere(p) {
      ModeUnique(p, mode);
    }
  }

  /** An item is in the list exactly when it belongs there. */
  lemma {:induction false} ItemsHas(p: Place, item: Item)
    requires PlaceOk(p)
    ensures item in Items(p) <==> Belongs(p, item)
    decreases p.entry
  {
    match p.entry
    case Ignore(_) =>
      NoChild(p, item);
    case Macro(_, _, _, _, _) =>
      NoChild(p, item);
    case Sum(_, _) =>
      hide PlaceOk, ModeHere, TypeItems, InterconnectsItems, ChildItems, Counted, Known, Child;
      TypesHas(p, |ModeHere(p).children|, item);
      InterconnectsHas(p, ModeHere(p).interconnects, |ModeHere(p).interconnects|, item);
      if item.path == [] {
        CountedHere(p, item);
      } else {
        var s := item.path[0];
        forall q ensures Child(p, s, q) <==>
              && s.kind < |ModeHere(p).children| && s.index < |ModeHere(p).children[s.kind]|
              && Known(p, s.kind, s.index) && q == ChildPlace(p, s.kind, s.index)
        {
          ChildUnique(p, s, q);
        }
        if s.kind < |ModeHere(p).children| && s.index < |ModeHere(p).children[s.kind]| {
          ChildFirst(p, s.kind, s.index, item);
          if Known(p, s.kind, s.index) {
            ItemsHas(ChildPlace(p, s.kind, s.index), item.(path := item.path[1..]));
          }
        }
      }
  }

  lemma NoChild(p: Place, item: Item)
    requires !p.entry.Sum?
    ensures Belongs(p, item) <==> item.path == [] && item.place == p && item.site.Primitive? && p.entry.Macro?
  {
  }

  // ----- The list has everything once -----

  lemma ApartJoin(a: seq<Item>, b: seq<Item>)
    requires Apart(a) && Apart(b) && forall x, y | x in a && y in b :: !SameKey(x, y)
    ensures Apart(a + b)
  {
    forall i, j | 0 <= i < j < |a + b| ensures !SameKey((a + b)[i], (a + b)[j]) {
      if i < |a| && j >= |a| {
        assert a[i] in a && b[j - |a|] in b;
      }
    }
  }

  lemma {:induction false} UnderApart(s: Step, items: seq<Item>)
    requires Apart(items)
    ensures Apart(Under(s, items))
  {
    if items != [] {
      var n := |items| - 1;
      UnderApart(s, items[..n]);
      var last := items[n].(path := [s] + items[n].path);
      forall x | x in Under(s, items[..n]) ensures !SameKey(x, last) {
        UnderHas(s, items[..n], x);
        var i :| 0 <= i < n && items[i] == x.(path := x.path[1..]);
        assert !SameKey(items[i], items[n]);
        assert ([s] + items[n].path)[1..] == items[n].path;
      }
      ApartJoin(Under(s, items[..n]), [last]);
    }
  }

  lemma {:induction false} PinsApart(p: Place, c: nat, x: nat, y: nat)
    ensures Apart(PinItems(p, c, x, y))
  {
    if y > 0 {
      PinsApart(p, c, x, y - 1);
      var front, last := PinItems(p, c, x, y - 1), Item([], Output(c, x, y - 1), p);
      forall item | item in front ensures !SameKey(item, last) {
        PinHas(p, c, x, y - 1, item);
      }
      ApartJoin(front, [last]);
    }
  }

  lemma {:induction false} PortsApart(p: Place, c: nat, outputs: seq<seq<Pin>>, x: nat)
    requires x <= |outputs|
    ensures Apart(PortItems(p, c, outputs, x))
  {
    if x > 0 {
      PortsApart(p, c, outputs, x - 1);
      PinsApart(p, c, x - 1, |outputs[x - 1]|);
      forall a, b | a in PortItems(p, c, outputs, x - 1) && b in PinItems(p, c, x - 1, |outputs[x - 1]|) ensures !SameKey(a, b) {
        PortHas(p, c, outputs, x - 1, a);
        PinHas(p, c, x - 1, |outputs[x - 1]|, b);
      }
      ApartJoin(PortItems(p, c, outputs, x - 1), PinItems(p, c, x - 1, |outputs[x - 1]|));
    }
  }

  lemma NoneApart()
    ensures Apart([])
  {
  }

  lemma InterconnectApart(p: Place, c: nat, i: Interconnect)
    ensures Apart(InterconnectItems(p, c, i))
  {
    hide HasClock, Flat, PortItems, Apart;
    NoneApart();
    if i.Muxed? {
      PortsApart(p, c, i.outputs, |i.outputs|);
    }
  }

  lemma InterconnectHas(p: Place, c: nat, i: Interconnect, item: Item)
    ensures item in InterconnectItems(p, c, i) ==> item.path == [] && item.site.Output? && item.site.interconnect == c
  {
    hide HasClock, Flat, PortItems;
    if i.Muxed? {
      PortHas(p, c, i.outputs, |i.outputs|, item);
    }
  }

  lemma {:induction false} InterconnectsApart(p: Place, cs: seq<Interconnect>, c: nat)
    requires c <= |cs|
    ensures Apart(InterconnectsItems(p, cs, c))
  {
    hide InterconnectItems, Apart;
    NoneApart();
    if c > 0 {
      InterconnectsApart(p, cs, c - 1);
      InterconnectApart(p, c - 1, cs[c - 1]);
      forall a, b | a in InterconnectsItems(p, cs, c - 1) && b in InterconnectItems(p, c - 1, cs[c - 1]) ensures !SameKey(a, b) {
        InterconnectsHas(p, cs, c - 1, a);
        InterconnectHas(p, c - 1, cs[c - 1], b);
      }
      ApartJoin(InterconnectsItems(p, cs, c - 1), InterconnectItems(p, c - 1, cs[c - 1]));
    }
  }

  lemma {:induction false} ItemsApart(p: Place)
    requires PlaceOk(p)
    ensures Apart(Items(p))
    decreases p.entry, 3, 0, 0
  {
    if p.entry.Sum? {
      hide PlaceOk, ModeHere, TypeItems, InterconnectsItems, ChildItems, Apart;
      var kinds, cs := |ModeHere(p).children|, ModeHere(p).interconnects;
      TypesApart(p, kinds);
      InterconnectsApart(p, cs, |cs|);
      forall a, b | a in TypeItems(p, kinds) && b in InterconnectsItems(p, cs, |cs|) ensures !SameKey(a, b) {
        TypesHas(p, kinds, a);
        InterconnectsHas(p, cs, |cs|, b);
      }
      ApartJoin(TypeItems(p, kinds), InterconnectsItems(p, cs, |cs|));
    }
  }

  lemma {:induction false} TypesApart(p: Place, t: nat)
    requires PlaceOk(p) && p.entry.Sum? && t <= |ModeHere(p).children|
    ensures Apart(TypeItems(p, t))
    decreases p.entry, 2, t, 0
  {
    if t > 0 {
      hide PlaceOk, ModeHere, ChildrenItems, ChildItems, Apart;
      var k := |ModeHere(p).children[t - 1]|;
      TypesApart(p, t - 1);
      ChildrenApart(p, t - 1, k);
      forall a, b | a in TypeItems(p, t - 1) && b in ChildrenItems(p, t - 1, k) ensures !SameKey(a, b) {
        TypesHas(p, t - 1, a);
        ChildrenHas(p, t - 1, k, b);
      }
      ApartJoin(TypeItems(p, t - 1), ChildrenItems(p, t - 1, k));
    }
  }

  lemma {:induction false} ChildrenApart(p: Place, t: nat, k: nat)
    requires PlaceOk(p) && p.entry.Sum? && t < |ModeHere(p).children| && k <= |ModeHere(p).children[t]|
    ensures Apart(ChildrenItems(p, t, k))
    decreases p.entry, 1, t, k
  {
    hide PlaceOk, ModeHere, ChildItems, Apart;
    NoneApart();
    if k > 0 {
      ChildrenApart(p, t, k - 1);
      ChildApart(p, t, k - 1);
      forall a, b | a in ChildrenItems(p, t, k - 1) && b in ChildItems(p, t, k - 1) ensures !SameKey(a, b) {
        ChildrenHas(p, t, k - 1, a);
        ChildFirst(p, t, k - 1, b);
      }
      ApartJoin(ChildrenItems(p, t, k - 1), ChildItems(p, t, k - 1));
    }
  }

  lemma {:induction false} ChildApart(p: Place, t: nat, k: nat)
    requires PlaceOk(p) && p.entry.Sum? && t < |ModeHere(p).children| && k < |ModeHere(p).children[t]|
    ensures Apart(ChildItems(p, t, k))
    decreases p.entry, 0, t, k
  {
    hide PlaceOk, ModeHere, Items, Under, Apart;
    NoneApart();
    if Known(p, t, k) {
      ItemsApart(ChildPlace(p, t, k));
      UnderApart(Step(t, k), Items(ChildPlace(p, t, k)));
    }
  }

  /** Everything counted below a place is in its list, once, and nothing else is. */
  lemma ItemsExact(p: Place)
    requires PlaceOk(p)
    ensures ListsAll(p, Items(p))
  {
    hide Items, Belongs, Apart;
    ItemsApart(p);
    forall item ensures item in Items(p) <==> Belongs(p, item) {
      ItemsHas(p, item);
    }
  }

  // ----- Totals -----

  /** What one item adds. */
  function ItemUse(lib: Library, item: Item): Use
    requires LibraryOk(lib)
  {
    var p := item.place;
    match item.site
    case Primitive => if p.entry.Macro? && p.entry.atFreq > 0.0 then MacroUse(lib, p.node, p.block, p.entry) else NoUse
    case Output(c, _, _) =>
      if ModeOf(p.block) < |p.node.modes| && c < |p.node.modes[ModeOf(p.block)].interconnects| then
        var i := p.node.modes[ModeOf(p.block)].interconnects[c];
        if i.Muxed? && Flat(i.inputs) != [] then OutputUse(lib, p.block, Flat(i.inputs)) else NoUse
      else NoUse
  }

  function Total(lib: Library, items: seq<Item>): Use
    requires LibraryOk(lib)
  {
    if items == [] then NoUse else Add(Total(lib, items[..|items| - 1]), ItemUse(lib, items[|items| - 1]))
  }

  lemma {:induction false} TotalAppend(lib: Library, a: seq<Item>, b: seq<Item>)
    requires LibraryOk(lib)
    ensures Total(lib, a + b) == Add(Total(lib, a), Total(lib, b))
  {
    hide ItemUse, Add;
    if b == [] {
      assert a + b == a;
      AddNone(Total(lib, a));
    } else {
      var n := |b| - 1;
      assert (a + b)[..|a + b| - 1] == a + b[..n];
      TotalAppend(lib, a, b[..n]);
      AddAdd(Total(lib, a), Total(lib, b[..n]), ItemUse(lib, b[n]));
    }
  }

  lemma {:induction false} UnderTotal(lib: Library, s: Step, items: seq<Item>)
    requires LibraryOk(lib)
    ensures Total(lib, Under(s, items)) == Total(lib, items)
  {
    if items != [] {
      UnderTotal(lib, s, items[..|items| - 1]);
      hide ItemUse;
      SamePlace(lib, items[|items| - 1], [s] + items[|items| - 1].path);
    }
  }

  lemma SamePlace(lib: Library, item: Item, path: seq<Step>)
    requires LibraryOk(lib)
    ensures ItemUse(lib, item.(path := path)) == ItemUse(lib, item)
  {
  }
}
