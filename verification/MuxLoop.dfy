/** The loop that grows a mux node column by column while it consumes the branch lists, and that it performs the merge. */
module MuxLoop {
  import opened Names
  import opened Options
  import opened Signals
  import opened MuxMerge

  // ----- The source's loop -----

  /** Drivers of x over all lists. */
  function TotalCount(lists: seq<PinList>, x: Name): nat {
    if lists == [] then 0 else Count(lists[0], x) + TotalCount(lists[1..], x)
  }

  /** How many of the lists have x at their head. */
  function Heads(lists: seq<PinList>, x: Name): nat {
    if lists == [] then 0 else (if HasHead(lists[|lists| - 1], x) then 1 else 0) + Heads(lists[..|lists| - 1], x)
  }

  /** The part of each list from its index on. */
  function Remaining(lists: seq<PinList>, idx: seq<nat>): seq<PinList>
    requires |idx| == |lists| && forall j | 0 <= j < |lists| :: idx[j] <= |lists[j]|
  {
    seq(|lists|, j requires 0 <= j < |lists| => lists[j][idx[j]..])
  }

  function Flatten(lists: seq<PinList>): PinList {
    if lists == [] then [] else Flatten(lists[..|lists| - 1]) + lists[|lists| - 1]
  }

  /** Connected pin slots. */
  function Wrap(pins: seq<Signal>): seq<Option<Signal>> {
    seq(|pins|, j requires 0 <= j < |pins| => Some(pins[j]))
  }

  function Repeat(n: nat, times: nat): seq<nat> {
    if times == 0 then [] else Repeat(n, times - 1) + [n]
  }

  function Unwrap(pins: seq<Option<Signal>>): seq<Signal>
    requires forall j | 0 <= j < |pins| :: pins[j].Some?
  {
    seq(|pins|, j requires 0 <= j < |pins| => pins[j].value)
  }

  /** The pin slots after the control slots: one row of branch pins per mux column. */
  function Slots(columns: PinList): seq<Option<Signal>> {
    if columns == [] then [] else
      var last := columns[|columns| - 1].sig;
      Slots(columns[..|columns| - 1]) + if last.OneHot? then Wrap(last.data) else []
  }

  /** The list drives every name as often as the lists do together. */
  ghost predicate SameDrivers(combined: PinList, lists: seq<PinList>) {
    forall x :: Count(combined, x) == TotalCount(lists, x)
  }

  lemma {:induction false} TotalCountSplit(lists: seq<PinList>, x: Name)
    requires lists != []
    ensures TotalCount(lists, x) == TotalCount(lists[..|lists| - 1], x) + Count(lists[|lists| - 1], x)
  {
    if |lists| > 1 {
      TotalCountSplit(lists[1..], x);
      assert lists[1..][..|lists| - 2] == lists[..|lists| - 1][1..];
    }
  }

  lemma {:induction false} FlattenCount(lists: seq<PinList>, x: Name)
    ensures Count(Flatten(lists), x) == TotalCount(lists, x)
  {
    if lists != [] {
      FlattenCount(lists[..|lists| - 1], x);
      CountAppend(Flatten(lists[..|lists| - 1]), lists[|lists| - 1], x);
      TotalCountSplit(lists, x);
    }
  }

  lemma {:induction false} TotalCountRest(lists: seq<PinList>, name: Name, x: Name)
    ensures TotalCount(Rest(lists, name), x) + (if x == name then Heads(lists, name) else 0) == TotalCount(lists, x)
    ensures Heads(lists, name) <= TotalCount(lists, name)
  {
    if lists != [] {
      var front := lists[..|lists| - 1];
      TotalCountRest(front, name, x);
      TotalCountSplit(lists, x);
      TotalCountSplit(lists, name);
      TotalCountSplit(Rest(lists, name), x);
      assert Rest(lists, name)[..|lists| - 1] == Rest(front, name);
    }
  }

  lemma {:induction false} SomeHead(lists: seq<PinList>, x: Name)
    requires exists j :: 0 <= j < |lists| && HasHead(lists[j], x)
    ensures Heads(lists, x) > 0
  {
    if !HasHead(lists[|lists| - 1], x) {
      var j :| 0 <= j < |lists| && HasHead(lists[j], x);
      assert HasHead(lists[..|lists| - 1][j], x);
      SomeHead(lists[..|lists| - 1], x);
    }
  }

  lemma {:induction false} TotalCountMember(lists: seq<PinList>, x: Name)
    ensures TotalCount(lists, x) > 0 <==> Driven(lists, x)
    ensures forall j | 0 <= j < |lists| :: Count(lists[j], x) <= TotalCount(lists, x)
  {
    if lists != [] {
      TotalCountMember(lists[1..], x);
      if j :| 0 <= j < |lists| - 1 && Count(lists[1..][j], x) > 0 {
        assert Count(lists[j + 1], x) > 0;
      }
      forall j | 0 < j < |lists| ensures Count(lists[j], x) <= TotalCount(lists, x) {
        assert lists[j] == lists[1..][j - 1];
      }
    }
  }

  /** The m copies of the least name stand in front. */
  lemma {:induction false} SkipCopies(list: PinList, m: nat, x: Name)
    requires Sorted(list) && list != [] && m <= Count(list, list[0].name)
    ensures m <= |list|
    ensures Count(list[m..], x) + (if x == list[0].name then m else 0) == Count(list, x)
  {
    if m > 0 {
      var rest := list[1..];
      if m > 1 {
        CountMember(rest, list[0].name);
        var i :| 0 <= i < |rest| && rest[i].name == list[0].name;
        assert LessEq(list[0].name, rest[0].name) && LessEq(rest[0].name, rest[i].name) by {
          Total(rest[0].name, rest[0].name);
        }
        Antisymmetric(list[0].name, rest[0].name);
        SkipCopies(rest, m - 1, x);
        assert rest[m - 1..] == list[m..];
      }
    }
  }

  /** The combined list's next name is the least head of the branches. */
  lemma NextCombined(combined: PinList, lists: seq<PinList>)
    requires Sorted(combined) && combined != [] && AllSorted(lists)
    requires SameDrivers(combined, lists)
    ensures TotalPins(lists) > 0 && FirstName(lists) == combined[0].name
  {
    var c := combined[0].name;
    TotalCountMember(lists, c);
    var j :| 0 <= j < |lists| && Count(lists[j], c) > 0;
    NoPins(lists);
    FirstNameFacts(lists);
    var f := FirstName(lists);
    var k :| 0 <= k < |lists| && HasHead(lists[k], f);
    assert Count(lists[k], f) > 0;
    TotalCountMember(lists, f);
    CountMember(combined, f);
    var i :| 0 <= i < |combined| && combined[i].name == f;
    Total(c, c);
    assert LessEq(c, f);
    CountMember(lists[j], c);
    var p :| 0 <= p < |lists[j]| && lists[j][p].name == c;
    Transitive(f, lists[j][0].name, if p == 0 then lists[j][0].name else c);
    Antisymmetric(c, f);
  }

  /** One pass of the merge loop: the matched copies are exactly the ones skipped. */
  lemma SkipMatched(combined: PinList, i: nat, lists: seq<PinList>, m: nat)
    requires Sorted(combined) && i < |combined| && AllSorted(lists)
    requires TotalPins(lists) > 0 && FirstName(lists) == combined[i].name
    requires SameDrivers(combined[i..], lists)
    requires m == Heads(lists, combined[i].name)
    ensures 0 < m <= |combined| - i
    ensures SameDrivers(combined[i + m..], Rest(lists, combined[i].name))
  {
    hide Count, TotalCount, Heads, Rest, TotalPins, FirstName;
    var name, left := combined[i].name, combined[i..];
    FirstNameFacts(lists);
    SomeHead(lists, name);
    TotalCountRest(lists, name, name);
    SkipCopies(left, m, name);
    assert left[m..] == combined[i + m..];
    forall x ensures Count(left[m..], x) == TotalCount(Rest(lists, name), x) {
      TotalCountRest(lists, name, x);
      SkipCopies(left, m, x);
    }
  }

  lemma CombinedSorts(lists: seq<PinList>)
    ensures Sorted(Sort(Flatten(lists)))
    ensures SameDrivers(Sort(Flatten(lists)), lists)
  {
    forall x ensures Count(Sort(Flatten(lists)), x) == TotalCount(lists, x) {
      FlattenCount(lists, x);
      SortFacts(Flatten(lists), x);
    }
    SortFacts(Flatten(lists), "");
  }

  lemma TotalsZero(lists: seq<PinList>)
    requires SameDrivers([], lists)
    ensures TotalPins(lists) == 0
  {
    NoPins(lists);
    forall j | 0 <= j < |lists| ensures lists[j] == [] {
      if lists[j] != [] {
        TotalCountMember(lists, lists[j][0].name);
      }
    }
  }

  lemma FillSlot<T>(slots0: seq<T>, column: seq<T>, j: nat, pins: seq<T>)
    requires j < |column| && |pins| == |slots0| + |column|
    requires pins[..|slots0| + j] == slots0 + column[..j]
    ensures pins[|slots0| + j := column[j]][..|slots0| + j + 1] == slots0 + column[..j + 1]
  {
    assert pins[|slots0| + j := column[j]][..|slots0| + j + 1] == pins[..|slots0| + j] + [column[j]];
  }

  lemma AddColumn(pins: seq<Option<Signal>>, columns: PinList, name: Name, controls: seq<Signal>, data: seq<Signal>)
    ensures pins + Slots(columns) + Wrap(data) == pins + Slots(columns + [Pin(name, OneHot(controls, data))])
  {
    assert (columns + [Pin(name, OneHot(controls, data))])[..|columns|] == columns;
  }

  lemma AddPort(ports: seq<nat>, n: nat, times: nat)
    ensures ports + Repeat(n, times) + [n] == ports + Repeat(n, times + 1)
  {
  }

  lemma MergeStep(columns: PinList, controls: seq<Signal>, lists: seq<PinList>)
    requires TotalPins(lists) > 0
    ensures var x := FirstName(lists);
            columns + MergeColumns(controls, lists) ==
            columns + [Pin(x, OneHot(controls, Column(lists, x)))] + MergeColumns(controls, Rest(lists, x))
  {
  }

  lemma NextRow(i: nat, n: nat)
    ensures (i + 1) * n == i * n + n
  {
  }

  lemma {:induction false} SlotAt(columns: PinList, n: nat, k: nat, j: nat)
    requires forall i | 0 <= i < |columns| :: columns[i].sig.OneHot? && |columns[i].sig.data| == n
    requires k < |columns| && j < n
    ensures |Slots(columns)| == |columns| * n && k * n + j < |columns| * n
    ensures Slots(columns)[k * n + j] == Some(columns[k].sig.data[j])
  {
    var front := columns[..|columns| - 1];
    SlotsLength(front, n);
    assert (|columns| - 1) * n + n == |columns| * n;
    if k < |front| {
      SlotAt(front, n, k, j);
    }
  }

  lemma {:induction false} SlotsLength(columns: PinList, n: nat)
    requires forall i | 0 <= i < |columns| :: columns[i].sig.OneHot? && |columns[i].sig.data| == n
    ensures |Slots(columns)| == |columns| * n
  {
    if columns != [] {
      SlotsLength(columns[..|columns| - 1], n);
      assert (|columns| - 1) * n + n == |columns| * n;
    }
  }

  lemma {:induction false} OnlyDriver(list: PinList, k: nat)
    requires k < |list| && Count(list, list[k].name) == 1
    ensures Lookup(list, list[k].name) == list[k].sig
  {
    if k > 0 {
      var x := list[k].name;
      CountMember(list[1..], x);
      assert list[1..][k - 1].name == x;
      OnlyDriver(list[1..], k - 1);
    }
  }

  lemma {:induction false} MaxCountOne(lists: seq<PinList>, x: Name)
    requires forall j | 0 <= j < |lists| :: Count(lists[j], x) <= 1
    ensures MaxCount(lists, x) == if Driven(lists, x) then 1 else 0
  {
    if lists != [] {
      assert forall j | 0 <= j < |lists| - 1 :: lists[1..][j] == lists[j + 1];
      MaxCountOne(lists[1..], x);
      if Driven(lists[1..], x) {
        var j :| 0 <= j < |lists| - 1 && Count(lists[1..][j], x) > 0;
        assert Count(lists[j + 1], x) > 0;
      }
      if Driven(lists, x) && Count(lists[0], x) == 0 {
        var j :| 0 <= j < |lists| && Count(lists[j], x) > 0;
        assert Count(lists[1..][j - 1], x) > 0;
      }
    }
  }

  lemma {:induction false} CountTwice(list: PinList, i: nat, k: nat)
    requires i < k < |list| && list[i].name == list[k].name
    ensures Count(list, list[i].name) > 1
  {
    if i > 0 {
      CountTwice(list[1..], i - 1, k - 1);
    } else {
      assert list[1..][k - 1].name == list[0].name;
      CountMember(list[1..], list[0].name);
    }
  }

  /** The columns are in strictly increasing order of their names when no branch drives a name twice. */
  lemma MergeStrict(controls: seq<Signal>, lists: seq<PinList>)
    requires AllSorted(lists) && forall j, x | 0 <= j < |lists| :: Count(lists[j], x) <= 1
    ensures var columns := MergeColumns(controls, lists);
            forall i, k | 0 <= i < k < |columns| :: LessEq(columns[i].name, columns[k].name) && columns[i].name != columns[k].name
  {
    hide MergeColumns, Count, LessEq, MaxCount, Driven;
    var columns := MergeColumns(controls, lists);
    MergeSorted(controls, lists);
    forall i: nat, k: nat | i < k < |columns| ensures columns[i].name != columns[k].name {
      if columns[i].name == columns[k].name {
        CountTwice(columns, i, k);
        MergeCount(controls, lists, columns[i].name);
        MaxCountOne(lists, columns[i].name);
        assert false;
      }
    }
  }

  /**
   * Where every pin goes when no branch drives a name twice: each driven name has exactly one column, and the
   * slot of column k and branch j holds branch j's pin for that name, or the implied signal.
   */
  lemma MergeSlots(controls: seq<Signal>, lists: seq<PinList>)
    requires AllSorted(lists)
    requires forall j, x | 0 <= j < |lists| :: Count(lists[j], x) <= 1
    ensures forall x :: Count(MergeColumns(controls, lists), x) == if Driven(lists, x) then 1 else 0
    ensures var columns := MergeColumns(controls, lists);
            && |Slots(columns)| == |columns| * |lists|
            && forall k, j | 0 <= k < |columns| && 0 <= j < |lists| ::
                 k * |lists| + j < |Slots(columns)| && Slots(columns)[k * |lists| + j] == Some(Lookup(lists[j], columns[k].name))
  {
    hide MergeColumns, Slots, Count, Lookup, LessEq, MaxCount, Driven;
    var columns, n := MergeColumns(controls, lists), |lists|;
    forall x ensures Count(columns, x) == if Driven(lists, x) then 1 else 0 {
      MergeCount(controls, lists, x);
      MaxCountOne(lists, x);
    }
    forall k | 0 <= k < |columns| ensures columns[k].sig == OneHot(controls, Lookups(lists, columns[k].name)) {
      CountMember(columns, columns[k].name);
      OnlyDriver(columns, k);
      MergeLookup(controls, lists, columns[k].name);
    }
    SlotsLength(columns, n);
    forall k, j | 0 <= k < |columns| && 0 <= j < n
      ensures k * n + j < |Slots(columns)| && Slots(columns)[k * n + j] == Some(Lookup(lists[j], columns[k].name))
    {
      SlotAt(columns, n, k, j);
    }
  }

  /** Between two columns: what has been merged, what is left, and how the node's pins and ports have grown. */
  ghost predicate Progress(controls: seq<Signal>, lists: seq<PinList>, combined: PinList, i: nat, idx: seq<nat>, ret: PinList,
      pins0: seq<Option<Signal>>, pins: seq<Option<Signal>>, ports0: seq<nat>, ports: seq<nat>)
  {
    && i <= |combined| && |idx| == |lists| && (forall j | 0 <= j < |lists| :: idx[j] <= |lists[j]|)
    && ret + MergeColumns(controls, Remaining(lists, idx)) == MergeColumns(controls, lists)
    && SameDrivers(combined[i..], Remaining(lists, idx))
    && (|ret| + 1) * |lists| == |pins|
    && pins == pins0 + Slots(ret)
    && ports == ports0 + Repeat(|lists|, |ret|)
  }

  lemma Start(controls: seq<Signal>, lists: seq<PinList>, idx: seq<nat>, pins: seq<Option<Signal>>, ports: seq<nat>)
    requires |pins| == |idx| == |lists| && forall j | 0 <= j < |idx| :: idx[j] == 0
    ensures Progress(controls, lists, Sort(Flatten(lists)), 0, idx, [], pins, pins, ports, ports)
    ensures Sorted(Sort(Flatten(lists)))
  {
    hide Sort, Flatten, MergeColumns, SameDrivers, Sorted, Remaining, Slots, Repeat;
    var combined := Sort(Flatten(lists));
    CombinedSorts(lists);
    assert combined[0..] == combined;
    NoneConsumed(lists, idx);
    NoColumns(|lists|);
    assert pins + [] == pins && ports + [] == ports;
    assert [] + MergeColumns(controls, lists) == MergeColumns(controls, lists);
  }

  lemma NoneConsumed(lists: seq<PinList>, idx: seq<nat>)
    requires |idx| == |lists| && forall j | 0 <= j < |idx| :: idx[j] == 0
    ensures Remaining(lists, idx) == lists
  {
  }

  lemma NoColumns(n: nat)
    ensures Slots([]) == [] && Repeat(n, 0) == []
  {
  }

  lemma Finish(controls: seq<Signal>, lists: seq<PinList>, combined: PinList, idx: seq<nat>, ret: PinList,
      pins0: seq<Option<Signal>>, pins: seq<Option<Signal>>, ports0: seq<nat>, ports: seq<nat>)
    requires Progress(controls, lists, combined, |combined|, idx, ret, pins0, pins, ports0, ports)
    ensures ret == MergeColumns(controls, lists)
    ensures pins == pins0 + Slots(ret) && ports == ports0 + Repeat(|lists|, |ret|)
  {
    assert combined[|combined|..] == [];
    TotalsZero(Remaining(lists, idx));
  }

  /** A column under construction: the slots and list indexes of branches 0 .. j - 1 are done. */
  ghost predicate Attached(lists: seq<PinList>, idx: seq<nat>, name: Name, slots0: seq<Option<Signal>>, j: nat,
      pins: seq<Option<Signal>>, next: seq<nat>, iSkip: nat)
    requires |idx| == |lists| && forall k | 0 <= k < |lists| :: idx[k] <= |lists[k]|
  {
    var rem := Remaining(lists, idx);
    && j <= |lists| == |next| && |pins| == |slots0| + |lists|
    && pins[..|slots0| + j] == slots0 + Wrap(Column(rem, name))[..j]
    && (forall k | j <= k < |lists| :: next[k] == idx[k])
    && (forall k | 0 <= k < j :: next[k] <= |lists[k]| && lists[k][next[k]..] == Rest(rem, name)[k])
    && iSkip == Heads(rem[..j], name)
  }

  lemma AttachStep(lists: seq<PinList>, idx: seq<nat>, name: Name, slots0: seq<Option<Signal>>, j: nat,
      pins: seq<Option<Signal>>, next: seq<nat>, iSkip: nat)
    requires |idx| == |lists| && forall k | 0 <= k < |lists| :: idx[k] <= |lists[k]|
    requires j < |lists| && Attached(lists, idx, name, slots0, j, pins, next, iSkip)
    ensures next[j] <= |lists[j]|
    ensures if next[j] < |lists[j]| && name == lists[j][next[j]].name
            then Attached(lists, idx, name, slots0, j + 1, pins[|slots0| + j := Some(lists[j][next[j]].sig)], next[j := next[j] + 1], iSkip + 1)
            else Attached(lists, idx, name, slots0, j + 1, pins[|slots0| + j := Some(Net(name))], next, iSkip)
  {
    var rem := Remaining(lists, idx);
    assert rem[..j + 1][..j] == rem[..j];
    FillSlot(slots0, Wrap(Column(rem, name)), j, pins);
  }

  lemma AttachEnd(lists: seq<PinList>, idx: seq<nat>, name: Name, slots0: seq<Option<Signal>>,
      pins: seq<Option<Signal>>, next: seq<nat>, iSkip: nat)
    requires |idx| == |lists| && forall k | 0 <= k < |lists| :: idx[k] <= |lists[k]|
    requires Attached(lists, idx, name, slots0, |lists|, pins, next, iSkip)
    ensures forall k | 0 <= k < |lists| :: next[k] <= |lists[k]|
    ensures Remaining(lists, next) == Rest(Remaining(lists, idx), name)
    ensures iSkip == Heads(Remaining(lists, idx), name)
    ensures pins == slots0 + Wrap(Column(Remaining(lists, idx), name))
    ensures forall k | |slots0| <= k < |pins| :: pins[k].Some?
    ensures Unwrap(pins[|slots0|..]) == Column(Remaining(lists, idx), name)
  {
    var rem := Remaining(lists, idx);
    var column := Wrap(Column(rem, name));
    assert rem[..|lists|] == rem && column[..|lists|] == column && pins[..|pins|] == pins;
    assert pins[|slots0|..] == column;
  }

  method CombineLists(lists: seq<PinList>) returns (r: PinList)
    ensures r == Flatten(lists)
  {
    r := [];
    for i := 0 to |lists|
      invariant r == Flatten(lists[..i])
    {
      for j := 0 to |lists[i]|
        invariant r == Flatten(lists[..i]) + lists[i][..j]
      {
        r := r + [lists[i][j]];
      }
      assert lists[..i + 1][..i] == lists[..i] && lists[i][..|lists[i]|] == lists[i];
    }
    assert lists[..|lists|] == lists;
  }

  /** A node's input side: its pin array (None is an unconnected slot) and the sizes of its input ports. */
  class MuxNode {
    var inputPins: seq<Option<Signal>>
    var inputPortSizes: seq<nat>

    constructor ()
      ensures inputPins == [] && inputPortSizes == []
    {
      inputPins, inputPortSizes := [], [];
    }

    method AllocateMoreInputPins(width: nat)
      modifies this`inputPins
      ensures inputPins == old(inputPins) + seq(width, _ => None)
    {
      inputPins := inputPins + seq(width, _ => None);
    }

    method AddInputPortInformation(width: nat)
      modifies this`inputPortSizes
      ensures inputPortSizes == old(inputPortSizes) + [width]
    {
      inputPortSizes := inputPortSizes + [width];
    }

    method AddInputPin(pin: Signal, idx: nat)
      requires idx < |inputPins|
      modifies this`inputPins
      ensures inputPins == old(inputPins)[idx := Some(pin)]
    {
      inputPins := inputPins[idx := Some(pin)];
    }

    /** The first n pins, all connected. */
    function Controls(n: nat): seq<Signal>
      requires n <= |inputPins| && forall j | 0 <= j < n :: inputPins[j].Some?
      reads this
    {
      Unwrap(inputPins[..n])
    }

    /** One mux column: allocate its slots, then attach each branch's pin for the name, or the implied signal. */
    method AttachColumn(lists: seq<PinList>, idx: seq<nat>, name: Name, inIndex: nat)
      returns (iSkip: nat, next: seq<nat>, data: seq<Signal>)
      requires |idx| == |lists| && forall j | 0 <= j < |lists| :: idx[j] <= |lists[j]|
      requires inIndex * |lists| == |inputPins|
      modifies this
      ensures |next| == |lists| && forall j | 0 <= j < |lists| :: next[j] <= |lists[j]|
      ensures Remaining(lists, next) == Rest(Remaining(lists, idx), name)
      ensures iSkip == Heads(Remaining(lists, idx), name)
      ensures inputPins == old(inputPins) + Wrap(data)
      ensures data == Column(Remaining(lists, idx), name)
      ensures inputPortSizes == old(inputPortSizes) + [|lists|]
    {
      var n := |lists|;
      var base := inIndex * n;
      ghost var slots0 := inputPins;
      iSkip, next := 0, idx;
      AllocateMoreInputPins(n);
      AddInputPortInformation(n);
      assert Attached(lists, idx, name, slots0, 0, inputPins, next, iSkip);
      for j := 0 to n
        invariant Attached(lists, idx, name, slots0, j, inputPins, next, iSkip)
        invariant |inputPins| == |slots0| + n && |next| == n && inputPortSizes == old(inputPortSizes) + [n]
      {
        hide Attached, Column, Rest, Heads, Remaining, Wrap;
        var pinIndex := base + j;
        AttachStep(lists, idx, name, slots0, j, inputPins, next, iSkip);
        if next[j] < |lists[j]| && name == lists[j][next[j]].name {
          AddInputPin(lists[j][next[j]].sig, pinIndex);
          next := next[j := next[j] + 1];
          iSkip := iSkip + 1;
        } else {
          AddInputPin(Net(name), pinIndex);
        }
      }
      AttachEnd(lists, idx, name, slots0, inputPins, next, iSkip);
      data := Unwrap(inputPins[base..]);
    }

    /** The body of the merge loop. */
    method NextColumn(controls: seq<Signal>, lists: seq<PinList>, combined: PinList, i: nat, idx: seq<nat>, ret: PinList, inIndex: nat,
        ghost pins0: seq<Option<Signal>>, ghost ports0: seq<nat>)
      returns (iSkip: nat, next: seq<nat>, pin: Pin)
      requires Progress(controls, lists, combined, i, idx, ret, pins0, inputPins, ports0, inputPortSizes) && i < |combined| && inIndex == |ret| + 1
      requires Sorted(combined) && AllSorted(lists)
      modifies this
      ensures 0 < iSkip <= |combined| - i
      ensures Progress(controls, lists, combined, i + iSkip, next, ret + [pin], pins0, inputPins, ports0, inputPortSizes)
    {
      hide Count, TotalCount, MergeColumns, Heads, FirstName, TotalPins, LessEq;
      ghost var rem := Remaining(lists, idx);
      var name := combined[i].name;
      NextCombined(combined[i..], rem);
      var data;
      iSkip, next, data := AttachColumn(lists, idx, name, inIndex);
      SkipMatched(combined, i, rem, iSkip);
      AddColumn(pins0, ret, name, controls, data);
      AddPort(ports0, |lists|, |ret|);
      MergeStep(ret, controls, rem);
      NextRow(inIndex, |lists|);
      pin := Pin(name, OneHot(controls, data));
    }

    /**
     * create_mux_statements. The control pins are already in slots 0 .. n - 1. The result is the merge of the
     * branch lists, and column k's pins sit in slots (k + 1) * n .. (k + 2) * n - 1 in branch order.
     */
    method CreateMuxStatements(lists: seq<PinList>) returns (ret: PinList)
      requires |inputPins| == |lists| && forall j | 0 <= j < |lists| :: inputPins[j].Some?
      requires AllSorted(lists)
      modifies this
      ensures ret == MergeColumns(old(Controls(|lists|)), lists)
      ensures inputPins == old(inputPins) + Slots(ret)
      ensures inputPortSizes == old(inputPortSizes) + Repeat(|lists|, |ret|)
    {
      hide MergeColumns, Count, TotalCount, Flatten, Slots, Repeat, Sort, Sorted, Remaining, Progress, Unwrap;
      var idx := seq(|lists|, _ => 0);
      var controls := Controls(|lists|);
      ghost var pins0, ports0 := inputPins, inputPortSizes;
      ret := [];
      var inIndex := 1;
      var combined := CombineLists(lists);
      combined := Sort(combined);
      Start(controls, lists, idx, inputPins, inputPortSizes);
      var i := 0;
      while i < |combined|
        invariant Progress(controls, lists, combined, i, idx, ret, pins0, inputPins, ports0, inputPortSizes)
        invariant i <= |combined| && inIndex == |ret| + 1
        decreases |combined| - i
      {
        var iSkip, pin;
        iSkip, idx, pin := NextColumn(controls, lists, combined, i, idx, ret, inIndex, pins0, ports0);
        ret := ret + [pin];
        i := i + iSkip;
        inIndex := inIndex + 1;
      }
      Finish(controls, lists, combined, idx, ret, pins0, inputPins, ports0, inputPortSizes);
    }
  }
}
