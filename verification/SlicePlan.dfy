/**
 * How a memory is cut into slices as wide as the architecture's memories: which pins each slice gets, which are gone from
 * the original at every point, and that every shared pin goes to exactly one slice.
 */
module SlicePlan {
  import opened Options
  import opened Division

  // ----- Ports -----

  /** The first pin of port j. */
  function Offset(sizes: seq<nat>, j: nat): nat
    requires j <= |sizes|
  {
    if j == 0 then 0 else Offset(sizes, j - 1) + sizes[j - 1]
  }

  lemma {:induction false} OffsetGrows(sizes: seq<nat>, j: nat, k: nat)
    requires j < k <= |sizes|
    ensures Offset(sizes, j) + sizes[j] <= Offset(sizes, k)
  {
    if j < k - 1 {
      OffsetGrows(sizes, j, k - 1);
    }
  }

  /** Pins of different ports, or at different places of one port, are different pins. */
  lemma OffsetDistinct(sizes: seq<nat>, j: nat, q: nat, k: nat, r: nat)
    requires j < |sizes| && q < sizes[j] && k < |sizes| && r < sizes[k]
    ensures Offset(sizes, j) + q == Offset(sizes, k) + r <==> j == k && q == r
    ensures Offset(sizes, j) + q < Offset(sizes, |sizes|)
  {
    OffsetGrows(sizes, j, |sizes|);
    if j < k {
      OffsetGrows(sizes, j, k);
    } else if k < j {
      OffsetGrows(sizes, k, j);
    }
  }

  /** Every pin belongs to a port. */
  lemma {:induction false} PortOf(sizes: seq<nat>, n: nat, o: nat) returns (j: nat, q: nat)
    requires n <= |sizes| && o < Offset(sizes, n)
    ensures j < n && q < sizes[j] && o == Offset(sizes, j) + q
  {
    if o >= Offset(sizes, n - 1) {
      j, q := n - 1, o - Offset(sizes, n - 1);
    } else {
      j, q := PortOf(sizes, n - 1, o);
    }
  }

  // ----- Slices -----

  /** How many of the width's pins the slices before slice i have. */
  function Start(width: nat, target: nat, i: nat): nat {
    if i * target < width then i * target else width
  }

  /** A pin of a slice: an original, by its place in the original node, or a copy of one. */
  datatype Entry = Moved(place: nat) | Copied(place: nat)

  /** The shape of the split: which ports of a side are shared out. */
  datatype Plan = Plan(sizes: seq<nat>, shared: seq<bool>, width: nat, target: nat, slices: nat)

  predicate PlanOk(plan: Plan) {
    && plan.target > 0 && plan.slices == Ceil(plan.width, plan.target) && |plan.shared| == |plan.sizes|
    && forall j | 0 <= j < |plan.sizes| && plan.shared[j] :: plan.sizes[j] == plan.width
  }

  /** The pins of port j in slice i. */
  function Share(plan: Plan, i: nat, j: nat): nat
    requires j < |plan.sizes| == |plan.shared|
  {
    if plan.shared[j] then
      (if Start(plan.width, plan.target, i + 1) >= Start(plan.width, plan.target, i)
       then Start(plan.width, plan.target, i + 1) - Start(plan.width, plan.target, i) else 0)
    else plan.sizes[j]
  }

  /** Pin k of port j in slice i. */
  function PortEntry(plan: Plan, i: nat, j: nat, k: nat): Entry
    requires j < |plan.sizes| == |plan.shared|
  {
    var o := Offset(plan.sizes, j);
    if plan.shared[j] then Moved(o + Start(plan.width, plan.target, i) + k)
    else if i + 1 < plan.slices then Copied(o + k)
    else Moved(o + k)
  }

  /** The first k pins of port j in slice i. */
  function PortEntries(plan: Plan, i: nat, j: nat, k: nat): (es: seq<Entry>)
    requires j < |plan.sizes| == |plan.shared|
    ensures |es| == k
  {
    if k == 0 then [] else PortEntries(plan, i, j, k - 1) + [PortEntry(plan, i, j, k - 1)]
  }

  /** The pins of the first j ports in slice i. */
  function SideEntries(plan: Plan, i: nat, j: nat): seq<Entry>
    requires j <= |plan.sizes| == |plan.shared|
  {
    if j == 0 then [] else SideEntries(plan, i, j - 1) + PortEntries(plan, i, j - 1, Share(plan, i, j - 1))
  }

  function ShareSizes(plan: Plan, i: nat, j: nat): (ns: seq<nat>)
    requires j <= |plan.sizes| == |plan.shared|
    ensures |ns| == j
  {
    if j == 0 then [] else ShareSizes(plan, i, j - 1) + [Share(plan, i, j - 1)]
  }

  lemma {:induction false} ShareSizesAt(plan: Plan, i: nat, n: nat, x: nat)
    requires x < n <= |plan.sizes| == |plan.shared|
    ensures ShareSizes(plan, i, n)[x] == Share(plan, i, x)
  {
    if x < n - 1 {
      ShareSizesAt(plan, i, n - 1, x);
    }
  }

  lemma {:induction false} SameOffset(a: seq<nat>, b: seq<nat>, j: nat)
    requires j <= |a| && j <= |b| && a[..j] == b[..j]
    ensures Offset(a, j) == Offset(b, j)
  {
    if j > 0 {
      assert a[..j - 1] == a[..j][..j - 1] && b[..j - 1] == b[..j][..j - 1];
      assert a[j - 1] == a[..j][j - 1] && b[j - 1] == b[..j][j - 1];
      SameOffset(a, b, j - 1);
    }
  }

  lemma {:induction false} PortEntriesAt(plan: Plan, i: nat, j: nat, n: nat, k: nat)
    requires j < |plan.sizes| == |plan.shared| && k < n
    ensures PortEntries(plan, i, j, n)[k] == PortEntry(plan, i, j, k)
  {
    hide PortEntry;
    if k < n - 1 {
      PortEntriesAt(plan, i, j, n - 1, k);
    }
  }

  lemma {:induction false} SideLength(plan: Plan, i: nat, n: nat)
    requires n <= |plan.sizes| == |plan.shared|
    ensures |SideEntries(plan, i, n)| == Offset(ShareSizes(plan, i, n), n)
  {
    hide Share;
    if n > 0 {
      SideLength(plan, i, n - 1);
      assert ShareSizes(plan, i, n)[..n - 1] == ShareSizes(plan, i, n - 1)[..n - 1];
      SameOffset(ShareSizes(plan, i, n), ShareSizes(plan, i, n - 1), n - 1);
    }
  }

  /** The slice's own port sizes say where its pin k of port j is. */
  lemma {:induction false} EntryAt(plan: Plan, i: nat, n: nat, j: nat, k: nat)
    requires j < n <= |plan.sizes| == |plan.shared| && k < Share(plan, i, j)
    ensures Offset(ShareSizes(plan, i, n), j) + k < |SideEntries(plan, i, n)|
    ensures SideEntries(plan, i, n)[Offset(ShareSizes(plan, i, n), j) + k] == PortEntry(plan, i, j, k)
  {
    hide Share, PortEntry, Offset;
    SideLength(plan, i, n - 1);
    if j < n - 1 {
      EntryAt(plan, i, n - 1, j, k);
      assert ShareSizes(plan, i, n)[..j] == ShareSizes(plan, i, n - 1)[..j];
      SameOffset(ShareSizes(plan, i, n), ShareSizes(plan, i, n - 1), j);
    } else {
      assert ShareSizes(plan, i, n)[..j] == ShareSizes(plan, i, j)[..j];
      SameOffset(ShareSizes(plan, i, n), ShareSizes(plan, i, j), j);
      PortEntriesAt(plan, i, j, Share(plan, i, j), k);
    }
  }

  // ----- The originals that are gone -----

  /** How many pins of port p have left the original when slice i is at pin k of port j. */
  function Gone(plan: Plan, i: nat, j: nat, k: nat, p: nat): nat
    requires p < |plan.sizes| == |plan.shared|
  {
    if plan.shared[p] then
      Start(plan.width, plan.target, if p < j then i + 1 else i) + (if p == j then k else 0)
    else if i >= plan.slices then plan.sizes[p]
    else if i + 1 == plan.slices then (if p < j then plan.sizes[p] else if p == j then k else 0)
    else 0
  }

  /** The original has lost exactly those pins. */
  ghost predicate Left(plan: Plan, pins: seq<Option<nat>>, i: nat, j: nat, k: nat)
    requires |plan.sizes| == |plan.shared|
  {
    && |pins| == Offset(plan.sizes, |plan.sizes|)
    && forall p: nat, q: nat | p < |plan.sizes| && q < plan.sizes[p] :: SpotLeft(plan, pins, i, j, k, p, q)
  }

  predicate SpotLeft(plan: Plan, pins: seq<Option<nat>>, i: nat, j: nat, k: nat, p: nat, q: nat)
    requires p < |plan.sizes| == |plan.shared| && q < plan.sizes[p]
  {
    var o := Offset(plan.sizes, p) + q;
    o < |pins| && (pins[o].Some? <==> q >= Gone(plan, i, j, k, p))
  }

  /** The pin at hand is still there. */
  lemma HereLeft(plan: Plan, pins: seq<Option<nat>>, i: nat, j: nat, k: nat)
    requires PlanOk(plan) && Left(plan, pins, i, j, k) && j < |plan.sizes| && k < Share(plan, i, j) && i < plan.slices
    ensures PortEntry(plan, i, j, k).place < |pins| && pins[PortEntry(plan, i, j, k).place].Some?
  {
    hide Start, Offset;
    StartBounds(plan.width, plan.target, i);
    var q := if plan.shared[j] then Start(plan.width, plan.target, i) + k else k;
    assert SpotLeft(plan, pins, i, j, k, j, q);
  }

  lemma StartBounds(width: nat, target: nat, i: nat)
    ensures Start(width, target, i) <= Start(width, target, i + 1) <= width
    ensures Start(width, target, i + 1) - Start(width, target, i) <= target
    ensures Start(width, target, 0) == 0
  {
    assert (i + 1) * target == i * target + target;
  }

  lemma MoveLeft(plan: Plan, pins: seq<Option<nat>>, i: nat, j: nat, k: nat)
    requires PlanOk(plan) && Left(plan, pins, i, j, k) && j < |plan.sizes| && k < Share(plan, i, j) && i < plan.slices
    requires PortEntry(plan, i, j, k).Moved? && PortEntry(plan, i, j, k).place < |pins|
    ensures Left(plan, pins[PortEntry(plan, i, j, k).place := None], i, j, k + 1)
  {
    hide Start, Offset;
    var after := k + 1;
    StartBounds(plan.width, plan.target, i);
    var here := if plan.shared[j] then Start(plan.width, plan.target, i) + k else k;
    var next := pins[PortEntry(plan, i, j, k).place := None];
    forall p: nat, q: nat | p < |plan.sizes| && q < plan.sizes[p] ensures SpotLeft(plan, next, i, j, after, p, q) {
      OffsetDistinct(plan.sizes, j, here, p, q);
      assert SpotLeft(plan, pins, i, j, k, p, q);
    }
  }

  lemma CopyLeft(plan: Plan, pins: seq<Option<nat>>, i: nat, j: nat, k: nat)
    requires PlanOk(plan) && Left(plan, pins, i, j, k) && j < |plan.sizes| && PortEntry(plan, i, j, k).Copied?
    ensures Left(plan, pins, i, j, k + 1)
  {
    hide Start, Offset;
    var after := k + 1;
    forall p: nat, q: nat | p < |plan.sizes| && q < plan.sizes[p] ensures SpotLeft(plan, pins, i, j, after, p, q) {
      assert SpotLeft(plan, pins, i, j, k, p, q);
    }
  }

  lemma PortLeft(plan: Plan, pins: seq<Option<nat>>, i: nat, j: nat)
    requires PlanOk(plan) && j < |plan.sizes| && Left(plan, pins, i, j, Share(plan, i, j)) && i < plan.slices
    ensures Left(plan, pins, i, j + 1, 0)
  {
    hide Start, Offset;
    var after := j + 1;
    StartBounds(plan.width, plan.target, i);
    forall p: nat, q: nat | p < |plan.sizes| && q < plan.sizes[p] ensures SpotLeft(plan, pins, i, after, 0, p, q) {
      assert SpotLeft(plan, pins, i, j, Share(plan, i, j), p, q);
    }
  }

  lemma SliceLeft(plan: Plan, pins: seq<Option<nat>>, i: nat)
    requires PlanOk(plan) && Left(plan, pins, i, |plan.sizes|, 0) && i < plan.slices
    ensures Left(plan, pins, i + 1, 0, 0)
  {
    hide Start, Offset;
    var after := i + 1;
    StartBounds(plan.width, plan.target, i);
    forall p: nat, q: nat | p < |plan.sizes| && q < plan.sizes[p] ensures SpotLeft(plan, pins, after, 0, 0, p, q) {
      assert SpotLeft(plan, pins, i, |plan.sizes|, 0, p, q);
    }
  }

  lemma AllLeft(plan: Plan, pins: seq<Option<nat>>)
    requires PlanOk(plan) && |pins| == Offset(plan.sizes, |plan.sizes|) && plan.slices > 0
    requires forall o | 0 <= o < |pins| :: pins[o].Some?
    ensures Left(plan, pins, 0, 0, 0)
  {
    hide Offset;
    StartBounds(plan.width, plan.target, 0);
    forall p: nat, q: nat | p < |plan.sizes| && q < plan.sizes[p] ensures SpotLeft(plan, pins, 0, 0, 0, p, q) {
      OffsetDistinct(plan.sizes, p, q, p, q);
    }
  }

  /** After the last slice no pin is left. */
  lemma NoneLeft(plan: Plan, pins: seq<Option<nat>>)
    requires PlanOk(plan) && Left(plan, pins, plan.slices, 0, 0)
    ensures forall o | 0 <= o < |pins| :: pins[o] == None
  {
    hide Offset;
    LastStart(plan.width, plan.target);
    forall o | 0 <= o < |pins| ensures pins[o] == None {
      var p, q := PortOf(plan.sizes, |plan.sizes|, o);
      assert SpotLeft(plan, pins, plan.slices, 0, 0, p, q);
    }
  }

  lemma LastStart(width: nat, target: nat)
    requires target > 0
    ensures Ceil(width, target) >= 0 && Start(width, target, Ceil(width, target)) == width
  {
    CeilBounds(width, target);
  }

  // ----- Who gets what -----

  function SliceCount(width: nat, target: nat): (n: nat)
    requires target > 0
    ensures n == Ceil(width, target)
  {
    CeilBounds(width, target);
    Ceil(width, target)
  }

  /** Where an entry of a slice comes from. */
  lemma {:induction false} EntryFrom(plan: Plan, i: nat, n: nat, e: Entry) returns (j: nat, k: nat)
    requires n <= |plan.sizes| == |plan.shared| && e in SideEntries(plan, i, n)
    ensures j < n && k < Share(plan, i, j) && e == PortEntry(plan, i, j, k)
  {
    hide Share, PortEntry;
    var last := PortEntries(plan, i, n - 1, Share(plan, i, n - 1));
    if e in last {
      j := n - 1;
      k := PortFrom(plan, i, j, Share(plan, i, j), e);
    } else {
      j, k := EntryFrom(plan, i, n - 1, e);
    }
  }

  lemma {:induction false} PortFrom(plan: Plan, i: nat, j: nat, n: nat, e: Entry) returns (k: nat)
    requires j < |plan.sizes| == |plan.shared| && e in PortEntries(plan, i, j, n)
    ensures k < n && e == PortEntry(plan, i, j, k)
  {
    hide Share, PortEntry;
    if e == PortEntry(plan, i, j, n - 1) {
      k := n - 1;
    } else {
      k := PortFrom(plan, i, j, n - 1, e);
    }
  }

  lemma {:induction false} EntryIn(plan: Plan, i: nat, n: nat, j: nat, k: nat)
    requires j < n <= |plan.sizes| == |plan.shared| && k < Share(plan, i, j)
    ensures PortEntry(plan, i, j, k) in SideEntries(plan, i, n)
  {
    hide Share, PortEntry;
    if j == n - 1 {
      PortIn(plan, i, j, Share(plan, i, j), k);
    } else {
      EntryIn(plan, i, n - 1, j, k);
    }
  }

  lemma {:induction false} PortIn(plan: Plan, i: nat, j: nat, n: nat, k: nat)
    requires j < |plan.sizes| == |plan.shared| && k < n
    ensures PortEntry(plan, i, j, k) in PortEntries(plan, i, j, n)
  {
    hide PortEntry;
    if k < n - 1 {
      PortIn(plan, i, j, n - 1, k);
    }
  }

  /** Pin q of a shared port goes to exactly one slice: the one whose stretch of the word it is in. */
  lemma SharedOnce(plan: Plan, i: nat, j: nat, q: nat)
    requires PlanOk(plan) && j < |plan.sizes| && plan.shared[j] && q < plan.width && i < plan.slices
    ensures Moved(Offset(plan.sizes, j) + q) in SideEntries(plan, i, |plan.sizes|)
            <==> Start(plan.width, plan.target, i) <= q < Start(plan.width, plan.target, i + 1)
  {
    hide Start, Offset, SideEntries;
    StartBounds(plan.width, plan.target, i);
    var e, a := Moved(Offset(plan.sizes, j) + q), Start(plan.width, plan.target, i);
    if e in SideEntries(plan, i, |plan.sizes|) {
      var p, k := EntryFrom(plan, i, |plan.sizes|, e);
      var here := if plan.shared[p] then a + k else k;
      OffsetDistinct(plan.sizes, p, here, j, q);
    }
    if a <= q < Start(plan.width, plan.target, i + 1) {
      EntryIn(plan, i, |plan.sizes|, j, q - a);
    }
  }

  /** Every pin of another port is copied to each slice but the last, which gets the pin itself. */
  lemma OthersEverywhere(plan: Plan, i: nat, j: nat, q: nat)
    requires PlanOk(plan) && j < |plan.sizes| && !plan.shared[j] && q < plan.sizes[j] && i < plan.slices
    ensures (if i + 1 < plan.slices then Copied(Offset(plan.sizes, j) + q) else Moved(Offset(plan.sizes, j) + q))
            in SideEntries(plan, i, |plan.sizes|)
  {
    hide Offset, SideEntries;
    EntryIn(plan, i, |plan.sizes|, j, q);
  }

  /** The slices are as wide as the target, but for the last, which may be narrower. */
  lemma SliceWidths(width: nat, target: nat, i: nat)
    requires target > 0 && i < SliceCount(width, target)
    ensures Start(width, target, i) < Start(width, target, i + 1)
    ensures i + 1 < SliceCount(width, target) ==> Start(width, target, i + 1) - Start(width, target, i) == target
    ensures Start(width, target, SliceCount(width, target)) == width
  {
    CeilBounds(width, target);
    LastStart(width, target);
    var n := SliceCount(width, target);
    assert (i + 1) * target == i * target + target;
    Times(target, n - 1, i);
    assert target * (n - 1) == target * n - target;
    assert target * i == i * target;
    if i + 1 < n {
      Times(target, n - 1, i + 1);
      assert target * (i + 1) == (i + 1) * target;
    }
  }
}
