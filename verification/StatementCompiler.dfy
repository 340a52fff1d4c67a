/**
 * Expansion of the statements of a sequential always block into one-hot muxes feeding flip-flops, and its
 * meaning: the flip-flops compute what running the statement computes.
 */
module StatementCompiler {
  import opened Names
  import opened Options
  import opened Signals
  import opened MuxMerge
  import opened MuxLoop

  /** Absent stands for a branch the source text leaves out. Labels and values are least significant bit first. */
  datatype Stmt =
    | Absent
    | Assign(targets: seq<Name>, value: seq<Signal>)
    | Block(body: seq<Stmt>)
    | If(cond: seq<Signal>, thn: Stmt, els: Stmt)
    | Case(selector: seq<Signal>, labels: seq<seq<bool>>, bodies: seq<Stmt>, hasDefault: bool)

  /** Every case has one body per label and one more for a default, which comes last. */
  predicate Shaped(s: Stmt) {
    match s
    case Block(body) => forall i | 0 <= i < |body| :: Shaped(body[i])
    case If(_, t, e) => Shaped(t) && Shaped(e)
    case Case(_, labels, bodies, d) =>
      |bodies| == |labels| + (if d then 1 else 0) && forall i | 0 <= i < |bodies| :: Shaped(bodies[i])
    case _ => true
  }

  // ----- What a statement means -----

  predicate Bit(bits: seq<bool>, i: nat) {
    i < |bits| && bits[i]
  }

  /** Equality of unsigned numbers of any widths. */
  predicate SameNumber(a: seq<bool>, b: seq<bool>) {
    forall i | 0 <= i < |a| + |b| :: Bit(a, i) == Bit(b, i)
  }

  /** The first label equal to the selector; |labels| (the default, if there is one) when none is. */
  function Chosen(labels: seq<seq<bool>>, sel: seq<bool>): (k: nat)
    ensures k <= |labels|
    ensures k < |labels| ==> SameNumber(labels[k], sel)
    ensures forall i | 0 <= i < k :: !SameNumber(labels[i], sel)
  {
    if labels == [] || SameNumber(labels[0], sel) then 0
    else
      var k := Chosen(labels[1..], sel);
      assert forall i | 0 < i < k + 1 :: labels[i] == labels[1..][i - 1];
      k + 1
  }

  function AssignAll(targets: seq<Name>, value: seq<Signal>, v: Values): map<Name, bool> {
    if targets == [] then map[] else
      var bit := value != [] && Eval(value[0], v);
      map[targets[0] := bit] + AssignAll(targets[1..], if value == [] then [] else value[1..], v)
  }

  /** The non-blocking updates that running s schedules; all right-hand sides read the old values. */
  function Run(s: Stmt, v: Values): map<Name, bool>
    decreases s
  {
    match s
    case Absent => map[]
    case Assign(targets, value) => AssignAll(targets, value, v)
    case Block(body) => RunAll(body, v)
    case If(cond, t, e) => if true in Bits(cond, v) then Run(t, v) else Run(e, v)
    case Case(selector, labels, bodies, _) =>
      var k := Chosen(labels, Bits(selector, v));
      if k < |bodies| then Run(bodies[k], v) else map[]
  }

  function RunAll(body: seq<Stmt>, v: Values): map<Name, bool>
    decreases body
  {
    if body == [] then map[] else RunAll(body[..|body| - 1], v) + Run(body[|body| - 1], v)
  }

  /** The value of net x after the clock edge. */
  function Next(s: Stmt, v: Values, x: Name): bool {
    if x in Run(s, v) then Run(s, v)[x] else v(x)
  }

  // ----- Expansion -----

  /** alias_output_assign_pins_to_inputs: missing value bits are zeros, spare ones are dropped. */
  function Alias(targets: seq<Name>, value: seq<Signal>): PinList {
    if targets == [] then [] else
      [Pin(targets[0], if value == [] then Const(false) else value[0])] +
      Alias(targets[1..], if value == [] then [] else value[1..])
  }

  /** The label at the selector's width: zero-extended, or cut off. */
  function Fit(bits: seq<bool>, width: nat): seq<bool> {
    seq(width, i requires 0 <= i < width => Bit(bits, i))
  }

  function Constants(bits: seq<bool>): seq<Signal> {
    seq(|bits|, i requires 0 <= i < |bits| => Const(bits[i]))
  }

  function Matches(selector: seq<Signal>, labels: seq<seq<bool>>): seq<Signal> {
    seq(|labels|, i requires 0 <= i < |labels| => Same(selector, Constants(Fit(labels[i], |selector|))))
  }

  /** create_case_control_signals */
  function CaseControls(selector: seq<Signal>, labels: seq<seq<bool>>, hasDefault: bool): seq<Signal> {
    var matches := Matches(selector, labels);
    if hasDefault then matches + [NoneOf(matches)] else matches
  }

  /** create_if_control_signals */
  function IfControls(cond: seq<Signal>): seq<Signal> {
    var c := if |cond| == 1 then cond[0] else AnyOf(cond);
    [c, Not(c)]
  }

  function SortAll(lists: seq<PinList>): seq<PinList> {
    seq(|lists|, i requires 0 <= i < |lists| => Sort(lists[i]))
  }

  function Compile(s: Stmt): PinList
    decreases s
  {
    match s
    case Absent => []
    case Assign(targets, value) => Alias(targets, value)
    case Block(body) => Flatten(CompileAll(body))
    case If(cond, t, e) => MergeColumns(IfControls(cond), SortAll([Compile(t), Compile(e)]))
    case Case(selector, labels, bodies, d) =>
      MergeColumns(CaseControls(selector, labels, d), SortAll(CompileAll(bodies)))
  }

  function CompileAll(body: seq<Stmt>): (lists: seq<PinList>)
    ensures |lists| == |body|
    ensures forall i | 0 <= i < |body| :: lists[i] == Compile(body[i])
    decreases body
  {
    if body == [] then [] else CompileAll(body[..|body| - 1]) + [Compile(body[|body| - 1])]
  }

  method ExpandBlock(body: seq<Stmt>) returns (list: PinList)
    requires forall i | 0 <= i < |body| :: Shaped(body[i])
    ensures list == Flatten(CompileAll(body))
    decreases body, 0
  {
    hide Compile, Shaped, Flatten;
    var lists := [];
    for i := 0 to |body|
      invariant |lists| == i && forall k | 0 <= k < i :: lists[k] == Compile(body[k])
    {
      var child := Expand(body[i]);
      lists := lists + [child];
    }
    assert lists == CompileAll(body);
    list := CombineLists(lists);
  }

  method ExpandBranches(bodies: seq<Stmt>) returns (lists: seq<PinList>)
    requires forall i | 0 <= i < |bodies| :: Shaped(bodies[i])
    ensures lists == SortAll(CompileAll(bodies)) && AllSorted(lists)
    decreases bodies, 0
  {
    hide Compile, Shaped, Sort, AllSorted;
    lists := [];
    for i := 0 to |bodies|
      invariant |lists| == i && forall k | 0 <= k < i :: lists[k] == Sort(Compile(bodies[k]))
    {
      var list := Expand(bodies[i]);
      lists := lists + [Sort(list)];
    }
    SortedBranches(CompileAll(bodies));
  }

  method ExpandIf(cond: seq<Signal>, t: Stmt, e: Stmt) returns (list: PinList)
    requires Shaped(t) && Shaped(e)
    ensures list == MergeColumns(IfControls(cond), SortAll([Compile(t), Compile(e)]))
    decreases If(cond, t, e), 0
  {
    hide Compile, Shaped, Sort, AllSorted, MergeColumns, IfControls, Slots, Repeat;
    var node := ExpandIfControls(cond);
    var thn := Expand(t);
    var els := Expand(e);
    var lists := [Sort(thn), Sort(els)];
    assert lists == SortAll([thn, els]);
    SortedBranches([thn, els]);
    list := node.CreateMuxStatements(lists);
  }

  method ExpandCase(selector: seq<Signal>, labels: seq<seq<bool>>, bodies: seq<Stmt>, hasDefault: bool) returns (list: PinList)
    requires (forall i | 0 <= i < |bodies| :: Shaped(bodies[i])) && |CaseControls(selector, labels, hasDefault)| == |bodies|
    ensures list == MergeColumns(CaseControls(selector, labels, hasDefault), SortAll(CompileAll(bodies)))
    decreases bodies, 1
  {
    hide Compile, Shaped, Sort, AllSorted, MergeColumns, CaseControls, CompileAll, Slots, Repeat;
    var node := ExpandCaseControls(selector, labels, hasDefault);
    var lists := ExpandBranches(bodies);
    list := node.CreateMuxStatements(lists);
  }

  /** netlist_expand_ast_of_module on a statement: depth first, one mux node per if and case. */
  method Expand(s: Stmt) returns (list: PinList)
    requires Shaped(s)
    ensures list == Compile(s)
    decreases s, 1
  {
    hide MergeColumns, SortAll, CompileAll, Flatten, Alias;
    match s {
      case Absent =>
        list := [];
      case Assign(targets, value) =>
        list := Alias(targets, value);
      case Block(body) =>
        list := ExpandBlock(body);
      case If(cond, t, e) =>
        list := ExpandIf(cond, t, e);
      case Case(selector, labels, bodies, d) =>
        list := ExpandCase(selector, labels, bodies, d);
    }
  }

  method ExpandIfControls(cond: seq<Signal>) returns (node: MuxNode)
    ensures fresh(node) && |node.inputPins| == 2 && node.inputPins[0].Some? && node.inputPins[1].Some?
    ensures node.Controls(2) == IfControls(cond)
  {
    node := new MuxNode();
    node.AllocateMoreInputPins(2);
    node.AddInputPortInformation(2);
    var c := if |cond| == 1 then cond[0] else AnyOf(cond);
    node.AddInputPin(c, 0);
    node.AddInputPin(Not(c), 1);
  }

  method ExpandCaseControls(selector: seq<Signal>, labels: seq<seq<bool>>, hasDefault: bool) returns (node: MuxNode)
    ensures fresh(node) && |node.inputPins| == |CaseControls(selector, labels, hasDefault)|
    ensures forall j | 0 <= j < |node.inputPins| :: node.inputPins[j].Some?
    ensures node.Controls(|node.inputPins|) == CaseControls(selector, labels, hasDefault)
  {
    node := new MuxNode();
    ghost var controls := CaseControls(selector, labels, hasDefault);
    var n := |labels| + if hasDefault then 1 else 0;
    node.AllocateMoreInputPins(n);
    node.AddInputPortInformation(n);
    var others := [];
    for i := 0 to |labels|
      invariant others == Matches(selector, labels)[..i] && |node.inputPins| == n
      invariant forall j | 0 <= j < i :: node.inputPins[j] == Some(controls[j])
    {
      var compare := Same(selector, Constants(Fit(labels[i], |selector|)));
      node.AddInputPin(compare, i);
      others := others + [compare];
    }
    assert others == Matches(selector, labels);
    if hasDefault {
      node.AddInputPin(NoneOf(others), |labels|);
    }
  }

  lemma SortedBranches(lists: seq<PinList>)
    ensures AllSorted(SortAll(lists))
    ensures forall x :: MaxCount(SortAll(lists), x) == MaxCount(lists, x)
    ensures forall x, j | 0 <= j < |lists| :: Lookup(SortAll(lists)[j], x) == Lookup(lists[j], x)
    ensures forall x, j | 0 <= j < |lists| :: Count(SortAll(lists)[j], x) == Count(lists[j], x)
  {
    forall x, j | 0 <= j < |lists|
      ensures Sorted(SortAll(lists)[j]) && Lookup(SortAll(lists)[j], x) == Lookup(lists[j], x)
      ensures Count(SortAll(lists)[j], x) == Count(lists[j], x)
    {
      SortFacts(lists[j], x);
    }
    forall j | 0 <= j < |lists| ensures Sorted(SortAll(lists)[j]) {
      SortFacts(lists[j], "");
    }
    forall x ensures MaxCount(SortAll(lists), x) == MaxCount(lists, x) {
      EqualMaxCount(SortAll(lists), lists, x);
    }
  }

  lemma {:induction false} EqualMaxCount(a: seq<PinList>, b: seq<PinList>, x: Name)
    requires |a| == |b| && forall j | 0 <= j < |a| :: Count(a[j], x) == Count(b[j], x)
    ensures MaxCount(a, x) == MaxCount(b, x)
  {
    if a != [] {
      EqualMaxCount(a[1..], b[1..], x);
    }
  }

  // ----- Case headers: when the one-hot controls select what the case statement selects -----

  /** The i-th control wire of a case mux, for a selector value. */
  predicate ControlOn(labels: seq<seq<bool>>, hasDefault: bool, sel: seq<bool>, i: nat) {
    if i < |labels| then Fit(labels[i], |sel|) == sel
    else hasDefault && i == |labels| && forall j | 0 <= j < |labels| :: Fit(labels[j], |sel|) != sel
  }

  /** What the mux puts out: the OR of all data bits whose control is on. */
  predicate Muxed(labels: seq<seq<bool>>, hasDefault: bool, sel: seq<bool>, data: seq<bool>) {
    exists i | 0 <= i < |data| :: ControlOn(labels, hasDefault, sel, i) && data[i]
  }

  /** What the statement selects: the chosen branch's bit, or the held bit when no branch is taken. */
  predicate Picked(labels: seq<seq<bool>>, sel: seq<bool>, data: seq<bool>, hold: bool) {
    var k := Chosen(labels, sel);
    if k < |data| then data[k] else hold
  }

  /** Labels fit the selector, are distinct, and leave no selector value without a branch. */
  ghost predicate HeaderOk(width: nat, labels: seq<seq<bool>>, hasDefault: bool) {
    && (forall i, b | 0 <= i < |labels| && width <= b < |labels[i]| :: !labels[i][b])
    && (forall i, j | 0 <= i < j < |labels| :: Fit(labels[i], width) != Fit(labels[j], width))
    && (hasDefault || forall sel: seq<bool> | |sel| == width :: exists i :: 0 <= i < |labels| && Fit(labels[i], width) == sel)
  }

  function BranchCount(labels: seq<seq<bool>>, hasDefault: bool): nat {
    |labels| + if hasDefault then 1 else 0
  }

  lemma FittingMatch(bits: seq<bool>, sel: seq<bool>)
    requires forall b | |sel| <= b < |bits| :: !bits[b]
    ensures SameNumber(bits, sel) <==> Fit(bits, |sel|) == sel
  {
    var f := Fit(bits, |sel|);
    if SameNumber(bits, sel) {
      assert forall i | 0 <= i < |sel| :: f[i] == Bit(bits, i) == Bit(sel, i) == sel[i];
    }
    if f == sel {
      forall i | 0 <= i < |bits| + |sel| ensures Bit(bits, i) == Bit(sel, i) {
        if i < |sel| {
          assert f[i] == Bit(bits, i);
        }
      }
    }
  }

  /** Under a good header exactly the chosen branch's control is on. */
  lemma HeaderSelects(labels: seq<seq<bool>>, hasDefault: bool, sel: seq<bool>)
    requires HeaderOk(|sel|, labels, hasDefault)
    ensures var k := Chosen(labels, sel);
            k < BranchCount(labels, hasDefault) &&
            forall i | 0 <= i < BranchCount(labels, hasDefault) :: ControlOn(labels, hasDefault, sel, i) <==> i == k
  {
    forall i | 0 <= i < |labels| ensures SameNumber(labels[i], sel) <==> Fit(labels[i], |sel|) == sel {
      FittingMatch(labels[i], sel);
    }
    if !hasDefault {
      var i :| 0 <= i < |labels| && Fit(labels[i], |sel|) == sel;
    }
  }

  /** A selector value and branch bits on which the mux and the statement disagree. */
  ghost predicate Disagree(width: nat, labels: seq<seq<bool>>, hasDefault: bool, sel: seq<bool>, data: seq<bool>, hold: bool) {
    && |sel| == width && |data| == BranchCount(labels, hasDefault)
    && Muxed(labels, hasDefault, sel, data) != Picked(labels, sel, data, hold)
  }

  lemma BadHeader(width: nat, labels: seq<seq<bool>>, hasDefault: bool)
    returns (sel: seq<bool>, data: seq<bool>, hold: bool)
    requires !HeaderOk(width, labels, hasDefault)
    ensures Disagree(width, labels, hasDefault, sel, data, hold)
  {
    var n := BranchCount(labels, hasDefault);
    if i, b :| 0 <= i < |labels| && width <= b < |labels[i]| && labels[i][b] {
      // A label cut to the selector's width switches its branch on although the number never matches.
      sel := Fit(labels[i], width);
      assert !SameNumber(labels[i], sel) by { assert Bit(labels[i], b) != Bit(sel, b); }
      var k := Chosen(labels, sel);
      data, hold := seq(n, j => j == i), false;
      assert k != i && ControlOn(labels, hasDefault, sel, i) && data[i];
    } else if i, j :| 0 <= i < j < |labels| && Fit(labels[i], width) == Fit(labels[j], width) {
      // Two equal labels switch both branches on.
      sel := Fit(labels[i], width);
      FittingMatch(labels[i], sel);
      FittingMatch(labels[j], sel);
      var k := Chosen(labels, sel);
      var other := if k == i then j else i;
      data, hold := seq(n, c => c == other), false;
      assert k <= i && ControlOn(labels, hasDefault, sel, other) && data[other];
    } else {
      // A value no branch covers switches every branch off.
      sel :| |sel| == width && forall i :: 0 <= i < |labels| ==> Fit(labels[i], width) != sel;
      data, hold := seq(n, _ => false), true;
      forall i | 0 <= i < |labels| ensures !SameNumber(labels[i], sel) {
        FittingMatch(labels[i], sel);
      }
    }
  }

  lemma GoodHeader(width: nat, labels: seq<seq<bool>>, hasDefault: bool, sel: seq<bool>, data: seq<bool>, hold: bool)
    requires HeaderOk(width, labels, hasDefault)
    ensures !Disagree(width, labels, hasDefault, sel, data, hold)
  {
    if |sel| == width && |data| == BranchCount(labels, hasDefault) {
      HeaderSelects(labels, hasDefault, sel);
    }
  }

  /** The one-hot case mux selects like the statement for every selector value and branch data iff the header is good. */
  lemma HeaderExact(width: nat, labels: seq<seq<bool>>, hasDefault: bool)
    ensures HeaderOk(width, labels, hasDefault) <==>
            forall sel, data, hold :: !Disagree(width, labels, hasDefault, sel, data, hold)
  {
    if HeaderOk(width, labels, hasDefault) {
      forall sel, data, hold ensures !Disagree(width, labels, hasDefault, sel, data, hold) {
        GoodHeader(width, labels, hasDefault, sel, data, hold);
      }
    } else {
      var sel, data, hold := BadHeader(width, labels, hasDefault);
    }
  }

  lemma ControlsEval(selector: seq<Signal>, labels: seq<seq<bool>>, hasDefault: bool, v: Values)
    ensures |CaseControls(selector, labels, hasDefault)| == BranchCount(labels, hasDefault)
    ensures forall i | 0 <= i < BranchCount(labels, hasDefault) ::
              Eval(CaseControls(selector, labels, hasDefault)[i], v) == ControlOn(labels, hasDefault, Bits(selector, v), i)
  {
    var sel, matches := Bits(selector, v), Matches(selector, labels);
    forall i | 0 <= i < |labels| ensures Eval(matches[i], v) == (Fit(labels[i], |sel|) == sel) {
      var f := Fit(labels[i], |sel|);
      assert matches[i] == Same(selector, Constants(f));
      assert forall j | 0 <= j < |sel| :: Eval(Constants(f)[j], v) == f[j];
      if Eval(matches[i], v) {
        assert forall j | 0 <= j < |sel| :: f[j] == sel[j];
      }
    }
  }

  // ----- Meaning preservation -----

  /** Every case in s has a good header. */
  ghost predicate GoodCases(s: Stmt) {
    match s
    case Block(body) => forall i | 0 <= i < |body| :: GoodCases(body[i])
    case If(_, t, e) => GoodCases(t) && GoodCases(e)
    case Case(selector, labels, bodies, d) =>
      HeaderOk(|selector|, labels, d) && forall i | 0 <= i < |bodies| :: GoodCases(bodies[i])
    case _ => true
  }

  /** No name is driven twice. */
  ghost predicate Once(list: PinList) {
    forall x :: Count(list, x) <= 1
  }

  /** The register driven by list takes this value at the edge. */
  predicate Clocked(list: PinList, v: Values, x: Name) {
    Eval(Lookup(list, x), v)
  }

  lemma {:induction false} MaxCountBound(lists: seq<PinList>, j: nat, x: Name)
    requires j < |lists|
    ensures Count(lists[j], x) <= MaxCount(lists, x)
  {
    if j > 0 {
      MaxCountBound(lists[1..], j - 1, x);
    }
  }

  lemma {:induction false} MaxCountAttained(lists: seq<PinList>, x: Name)
    requires lists != []
    ensures exists j :: 0 <= j < |lists| && Count(lists[j], x) == MaxCount(lists, x)
  {
    if |lists| > 1 {
      MaxCountAttained(lists[1..], x);
      var j :| 0 <= j < |lists| - 1 && Count(lists[1..][j], x) == MaxCount(lists[1..], x);
      assert Count(lists[j + 1], x) == MaxCount(lists[1..], x);
      assert Count(lists[0], x) == MaxCount(lists, x) || Count(lists[j + 1], x) == MaxCount(lists, x);
    } else {
      assert Count(lists[0], x) == MaxCount(lists, x);
    }
  }

  /** A merged mux passes on the branch whose control is the only one on. */
  lemma MuxPasses(controls: seq<Signal>, lists: seq<PinList>, k: nat, v: Values, x: Name)
    requires k < |lists| == |controls|
    requires forall i | 0 <= i < |controls| :: Eval(controls[i], v) <==> i == k
    ensures Clocked(MergeColumns(controls, SortAll(lists)), v, x) == Clocked(lists[k], v, x)
  {
    var sorted := SortAll(lists);
    SortedBranches(lists);
    MergeLookup(controls, sorted, x);
    assert Lookup(sorted[k], x) == Lookup(lists[k], x);
    if Driven(sorted, x) {
      var data := Lookups(sorted, x);
      assert data[k] == Lookup(lists[k], x);
      assert Eval(OneHot(controls, data), v) == Eval(data[k], v);
    } else {
      assert Count(sorted[k], x) == 0;
      LookupAbsent(sorted[k], x);
    }
  }

  lemma MergedOnce(controls: seq<Signal>, lists: seq<PinList>)
    requires Once(MergeColumns(controls, SortAll(lists)))
    ensures forall j | 0 <= j < |lists| :: Once(lists[j])
    ensures forall x :: Count(MergeColumns(controls, SortAll(lists)), x) == 0 ==> forall j | 0 <= j < |lists| :: Count(lists[j], x) == 0
  {
    SortedBranches(lists);
    forall x, j | 0 <= j < |lists| ensures Count(lists[j], x) <= Count(MergeColumns(controls, SortAll(lists)), x) {
      MergeCount(controls, SortAll(lists), x);
      MaxCountBound(lists, j, x);
    }
    forall j, x | 0 <= j < |lists| ensures Count(lists[j], x) <= 1 {
      assert Count(MergeColumns(controls, SortAll(lists)), x) <= 1;
    }
  }

  lemma IfPasses(cond: seq<Signal>, lists: seq<PinList>, v: Values, x: Name)
    requires |lists| == 2
    ensures Clocked(MergeColumns(IfControls(cond), SortAll(lists)), v, x) ==
            Clocked(lists[if true in Bits(cond, v) then 0 else 1], v, x)
  {
    IfControlsEval(cond, v);
    MuxPasses(IfControls(cond), lists, if true in Bits(cond, v) then 0 else 1, v, x);
  }

  lemma CasePasses(selector: seq<Signal>, labels: seq<seq<bool>>, d: bool, lists: seq<PinList>, v: Values, x: Name)
    requires HeaderOk(|selector|, labels, d) && |lists| == BranchCount(labels, d)
    ensures Chosen(labels, Bits(selector, v)) < |lists|
    ensures Clocked(MergeColumns(CaseControls(selector, labels, d), SortAll(lists)), v, x) ==
            Clocked(lists[Chosen(labels, Bits(selector, v))], v, x)
  {
    ControlsEval(selector, labels, d, v);
    HeaderSelects(labels, d, Bits(selector, v));
    MuxPasses(CaseControls(selector, labels, d), lists, Chosen(labels, Bits(selector, v)), v, x);
  }

  lemma {:induction false} AliasClocked(targets: seq<Name>, value: seq<Signal>, v: Values, x: Name)
    requires Count(Alias(targets, value), x) <= 1
    ensures Count(Alias(targets, value), x) == 0 ==> x !in AssignAll(targets, value, v)
    ensures Clocked(Alias(targets, value), v, x) ==
            if x in AssignAll(targets, value, v) then AssignAll(targets, value, v)[x] else v(x)
  {
    if targets != [] {
      var rest := if value == [] then [] else value[1..];
      assert Alias(targets, value)[1..] == Alias(targets[1..], rest);
      AliasClocked(targets[1..], rest, v, x);
    }
  }

  lemma BlockParts(lists: seq<PinList>, x: Name)
    requires lists != []
    ensures Count(Flatten(lists), x) == Count(Flatten(lists[..|lists| - 1]), x) + Count(lists[|lists| - 1], x)
    ensures Lookup(Flatten(lists), x) ==
            if Count(Flatten(lists[..|lists| - 1]), x) > 0 then Lookup(Flatten(lists[..|lists| - 1]), x)
            else Lookup(lists[|lists| - 1], x)
  {
    CountAppend(Flatten(lists[..|lists| - 1]), lists[|lists| - 1], x);
    LookupAppend(Flatten(lists[..|lists| - 1]), lists[|lists| - 1], x);
  }

  /**
   * Meaning preservation: if no name ends up driven twice and every case header is good, then in every state every
   * net takes the value that running the statement gives it; nets the run does not assign hold.
   */
  lemma {:induction false} CompileCorrect(s: Stmt, v: Values, x: Name)
    requires Shaped(s) && GoodCases(s) && Once(Compile(s))
    ensures Clocked(Compile(s), v, x) == Next(s, v, x)
    ensures Count(Compile(s), x) == 0 ==> x !in Run(s, v)
    decreases s
  {
    match s {
      case Absent =>
      case Assign(targets, value) =>
        AliasClocked(targets, value, v, x);
      case Block(body) =>
        BlockCorrect(body, v, x);
      case If(cond, t, e) =>
        var lists := [Compile(t), Compile(e)];
        MergedOnce(IfControls(cond), lists);
        IfPasses(cond, lists, v, x);
        assert Once(lists[0]) && Once(lists[1]);
        CompileCorrect(t, v, x);
        CompileCorrect(e, v, x);
      case Case(selector, labels, bodies, d) =>
        var lists := CompileAll(bodies);
        MergedOnce(CaseControls(selector, labels, d), lists);
        CasePasses(selector, labels, d, lists, v, x);
        var k := Chosen(labels, Bits(selector, v));
        assert lists[k] == Compile(bodies[k]) && Once(lists[k]);
        CompileCorrect(bodies[k], v, x);
    }
  }

  lemma IfControlsEval(cond: seq<Signal>, v: Values)
    ensures Eval(IfControls(cond)[0], v) == (true in Bits(cond, v))
    ensures Eval(IfControls(cond)[1], v) != (true in Bits(cond, v))
  {
    var bits := Bits(cond, v);
    if true in bits {
      var i :| 0 <= i < |bits| && bits[i];
      assert Eval(cond[i], v);
    }
    if i :| 0 <= i < |cond| && Eval(cond[i], v) {
      assert bits[i];
    }
  }

  lemma {:induction false} BlockCorrect(body: seq<Stmt>, v: Values, x: Name)
    requires forall i | 0 <= i < |body| :: Shaped(body[i]) && GoodCases(body[i])
    requires Once(Flatten(CompileAll(body)))
    ensures Clocked(Flatten(CompileAll(body)), v, x) == if x in RunAll(body, v) then RunAll(body, v)[x] else v(x)
    ensures Count(Flatten(CompileAll(body)), x) == 0 ==> x !in RunAll(body, v)
    decreases body
  {
    if body != [] {
      var front, last := body[..|body| - 1], body[|body| - 1];
      var lists := CompileAll(body);
      assert lists[..|lists| - 1] == CompileAll(front) && lists[|lists| - 1] == Compile(last);
      forall y ensures Count(Compile(last), y) <= 1 && Count(Flatten(CompileAll(front)), y) <= 1 {
        BlockParts(lists, y);
      }
      BlockParts(lists, x);
      BlockCorrect(front, v, x);
      CompileCorrect(last, v, x);
    }
  }
}
