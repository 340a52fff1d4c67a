/**
 * A sequential always block from statement to flip-flops: which statements are accepted, and what the accepted
 * ones compute.
 */
module RegisteredAlways {
  import opened Names
  import opened Signals
  import opened MuxMerge
  import opened MuxLoop
  import opened StatementCompiler

  // ----- How often a name is driven -----

  function Occurs(targets: seq<Name>, x: Name): nat {
    if targets == [] then 0 else (if targets[0] == x then 1 else 0) + Occurs(targets[1..], x)
  }

  function Max(a: nat, b: nat): nat {
    if a >= b then a else b
  }

  /** A choice of branch for every if (0 takes the then branch) and case. */
  type Path = Stmt -> nat

  /** Assignments to x along one path through s. */
  function OnPath(s: Stmt, path: Path, x: Name): nat
    decreases s
  {
    match s
    case Absent => 0
    case Assign(targets, _) => Occurs(targets, x)
    case Block(body) => OnPathAll(body, path, x)
    case If(_, t, e) => if path(s) == 0 then OnPath(t, path, x) else OnPath(e, path, x)
    case Case(_, _, bodies, _) => if path(s) < |bodies| then OnPath(bodies[path(s)], path, x) else 0
  }

  function OnPathAll(body: seq<Stmt>, path: Path, x: Name): nat
    decreases body
  {
    if body == [] then 0 else OnPathAll(body[..|body| - 1], path, x) + OnPath(body[|body| - 1], path, x)
  }

  lemma {:induction false} AliasCount(targets: seq<Name>, value: seq<Signal>, x: Name)
    ensures Count(Alias(targets, value), x) == Occurs(targets, x)
  {
    if targets != [] {
      var rest := if value == [] then [] else value[1..];
      assert Alias(targets, value)[1..] == Alias(targets[1..], rest);
      AliasCount(targets[1..], rest, x);
    }
  }

  lemma BranchesCount(controls: seq<Signal>, lists: seq<PinList>, x: Name)
    ensures Count(MergeColumns(controls, SortAll(lists)), x) == MaxCount(lists, x)
  {
    SortedBranches(lists);
    MergeCount(controls, SortAll(lists), x);
  }

  /** No path assigns x more often than the expansion drives it. */
  lemma {:induction false} PathBound(s: Stmt, path: Path, x: Name)
    ensures OnPath(s, path, x) <= Count(Compile(s), x)
    decreases s
  {
    match s {
      case Absent =>
      case Assign(targets, value) =>
        AliasCount(targets, value, x);
      case Block(body) =>
        PathBoundAll(body, path, x);
      case If(cond, t, e) =>
        var lists := [Compile(t), Compile(e)];
        BranchesCount(IfControls(cond), lists, x);
        MaxCountBound(lists, 0, x);
        MaxCountBound(lists, 1, x);
        PathBound(t, path, x);
        PathBound(e, path, x);
      case Case(selector, labels, bodies, d) =>
        var lists := CompileAll(bodies);
        BranchesCount(CaseControls(selector, labels, d), lists, x);
        if path(s) < |bodies| {
          MaxCountBound(lists, path(s), x);
          PathBound(bodies[path(s)], path, x);
        }
    }
  }

  lemma {:induction false} PathBoundAll(body: seq<Stmt>, path: Path, x: Name)
    ensures OnPathAll(body, path, x) <= Count(Flatten(CompileAll(body)), x)
    decreases body
  {
    if body != [] {
      var lists := CompileAll(body);
      assert lists[..|lists| - 1] == CompileAll(body[..|body| - 1]);
      BlockParts(lists, x);
      PathBoundAll(body[..|body| - 1], path, x);
      PathBound(body[|body| - 1], path, x);
    }
  }

  /** A branch of s on which the expansion drives x most often. */
  ghost predicate IsBest(s: Stmt, x: Name, k: nat) {
    match s
    case If(_, t, e) =>
      if k == 0 then Count(Compile(t), x) >= Count(Compile(e), x) else Count(Compile(e), x) >= Count(Compile(t), x)
    case Case(_, _, bodies, _) =>
      bodies == [] || (k < |bodies| && Count(Compile(bodies[k]), x) == MaxCount(CompileAll(bodies), x))
    case _ => true
  }

  lemma BestExists(s: Stmt, x: Name)
    ensures exists k :: IsBest(s, x, k)
  {
    match s {
      case If(_, t, e) =>
        assert IsBest(s, x, 0) || IsBest(s, x, 1);
      case Case(_, _, bodies, _) =>
        if bodies == [] {
          assert IsBest(s, x, 0);
        } else {
          MaxCountAttained(CompileAll(bodies), x);
          var k :| 0 <= k < |bodies| && Count(CompileAll(bodies)[k], x) == MaxCount(CompileAll(bodies), x);
          assert IsBest(s, x, k);
        }
      case _ =>
        assert IsBest(s, x, 0);
    }
  }

  ghost function BestBranch(s: Stmt, x: Name): nat {
    BestExists(s, x);
    var k :| IsBest(s, x, k);
    k
  }

  ghost function BestPath(x: Name): Path {
    s => BestBranch(s, x)
  }

  /** Some path assigns x as often as the expansion drives it. */
  lemma {:induction false} PathAttained(s: Stmt, x: Name)
    ensures OnPath(s, BestPath(x), x) == Count(Compile(s), x)
    decreases s
  {
    match s {
      case Absent =>
      case Assign(targets, value) =>
        AliasCount(targets, value, x);
      case Block(body) =>
        PathAttainedAll(body, x);
      case If(cond, t, e) =>
        var lists := [Compile(t), Compile(e)];
        BranchesCount(IfControls(cond), lists, x);
        assert lists[1..] == [Compile(e)] && MaxCount(lists[1..][1..], x) == 0;
        assert MaxCount(lists[1..], x) == Count(Compile(e), x);
        assert MaxCount(lists, x) == Max(Count(Compile(t), x), Count(Compile(e), x));
        assert IsBest(s, x, BestBranch(s, x));
        PathAttained(t, x);
        PathAttained(e, x);
      case Case(selector, labels, bodies, d) =>
        BranchesCount(CaseControls(selector, labels, d), CompileAll(bodies), x);
        assert IsBest(s, x, BestBranch(s, x));
        if bodies != [] {
          PathAttained(bodies[BestBranch(s, x)], x);
        }
    }
  }

  lemma {:induction false} PathAttainedAll(body: seq<Stmt>, x: Name)
    ensures OnPathAll(body, BestPath(x), x) == Count(Flatten(CompileAll(body)), x)
    decreases body
  {
    if body != [] {
      var lists := CompileAll(body);
      assert lists[..|lists| - 1] == CompileAll(body[..|body| - 1]);
      BlockParts(lists, x);
      PathAttainedAll(body[..|body| - 1], x);
      PathAttained(body[|body| - 1], x);
    }
  }

  /** Some path assigns x. */
  ghost predicate Assigned(s: Stmt, x: Name) {
    exists path: Path :: OnPath(s, path, x) > 0
  }

  /** Some path assigns x more than once. */
  ghost predicate AssignedTwice(s: Stmt, x: Name) {
    exists path: Path :: OnPath(s, path, x) > 1
  }

  /** The expansion drives x more than once iff some path through the statement assigns x more than once. */
  lemma TwiceIffPath(s: Stmt, x: Name)
    ensures Count(Compile(s), x) > 1 <==> AssignedTwice(s, x)
    ensures Count(Compile(s), x) > 0 <==> Assigned(s, x)
  {
    PathAttained(s, x);
    forall path: Path ensures OnPath(s, path, x) <= Count(Compile(s), x) {
      PathBound(s, path, x);
    }
  }

  // ----- Flip-flops -----

  datatype Error = MissingDriver(name: Name) | DrivenTwice(name: Name)
  datatype Result<T> = Ok(value: T) | Err(error: Error)

  /** Every name in the list is a declared net without a driver, and none is driven twice. */
  ghost predicate Connectable(list: PinList, nets: map<Name, bool>) {
    forall x :: Count(list, x) > 0 ==> x in nets && !nets[x] && Count(list, x) == 1
  }

  /**
   * terminate_registered_assignment: one flip-flop per pin. nets holds the declared nets and whether each has a
   * driver already; the result gives the data input of each flip-flop by the net it drives.
   */
  method TerminateRegistered(list: PinList, nets: map<Name, bool>) returns (r: Result<map<Name, Signal>>)
    ensures r.Ok? <==> Connectable(list, nets)
    ensures r.Ok? ==> forall x :: (x in r.value <==> Count(list, x) > 0) && (x in r.value ==> r.value[x] == Lookup(list, x))
    ensures r.Err? && r.error.MissingDriver? ==> r.error.name !in nets && Count(list, r.error.name) > 0
    ensures r.Err? && r.error.DrivenTwice? ==>
              var x := r.error.name; x in nets && Count(list, x) > 0 && (nets[x] || Count(list, x) > 1)
    ensures r.Err? ==> exists i :: 0 <= i < |list| && list[i].name == r.error.name && Connectable(list[..i], nets)
  {
    var flipFlops: map<Name, Signal> := map[];
    for i := 0 to |list|
      invariant forall x :: x in flipFlops <==> Count(list[..i], x) > 0
      invariant forall x :: x in flipFlops ==> flipFlops[x] == Lookup(list[..i], x)
      invariant Connectable(list[..i], nets)
    {
      var x := list[i].name;
      assert list[..i + 1] == list[..i] + [list[i]];
      forall y ensures Count(list[..i + 1], y) == Count(list[..i], y) + Count([list[i]], y)
        ensures Lookup(list[..i + 1], y) == if Count(list[..i], y) > 0 then Lookup(list[..i], y) else Lookup([list[i]], y)
        ensures Count(list[..i + 1], y) <= Count(list, y)
      {
        CountAppend(list[..i], [list[i]], y);
        LookupAppend(list[..i], [list[i]], y);
        CountAppend(list[..i + 1], list[i + 1..], y);
        assert list == list[..i + 1] + list[i + 1..];
      }
      assert Count([list[i]][1..], x) == 0;
      assert forall y :: Count([list[i]], y) == if y == x then 1 else 0;
      if x !in nets {
        return Err(MissingDriver(x));
      }
      if nets[x] || x in flipFlops {
        return Err(DrivenTwice(x));
      }
      flipFlops := flipFlops[x := list[i].sig];
    }
    assert list[..|list|] == list;
    r := Ok(flipFlops);
  }

  /** The net's value after the clock edge: its flip-flop's data input, or its old value without one. */
  predicate Edge(flipFlops: map<Name, Signal>, v: Values, x: Name) {
    if x in flipFlops then Eval(flipFlops[x], v) else v(x)
  }

  /** Every assigned net is declared, has no other driver, and is assigned at most once on every path. */
  ghost predicate Acceptable(s: Stmt, nets: map<Name, bool>) {
    forall x, path: Path {:trigger OnPath(s, path, x)} ::
      OnPath(s, path, x) > 0 ==> x in nets && !nets[x] && OnPath(s, path, x) == 1
  }

  lemma ConnectableIffAcceptable(s: Stmt, nets: map<Name, bool>)
    ensures Connectable(Compile(s), nets) <==> Acceptable(s, nets)
  {
    forall x ensures Count(Compile(s), x) == OnPath(s, BestPath(x), x) {
      PathAttained(s, x);
    }
    forall x, path: Path ensures OnPath(s, path, x) <= Count(Compile(s), x) {
      PathBound(s, path, x);
    }
    if Connectable(Compile(s), nets) {
      forall x, path: Path | OnPath(s, path, x) > 0
        ensures x in nets && !nets[x] && OnPath(s, path, x) == 1
      {
        assert Count(Compile(s), x) > 0;
      }
    }
    if Acceptable(s, nets) {
      forall x | Count(Compile(s), x) > 0 ensures x in nets && !nets[x] && Count(Compile(s), x) == 1 {
        assert OnPath(s, BestPath(x), x) > 0;
      }
    }
  }

  /**
   * A sequential always block. It is accepted exactly when every net assigned on some path is declared, undriven and
   * assigned once on that path; and then, if its case headers are good, the flip-flops step every net in every state
   * to the value running the statement gives it. Otherwise the error names a net that is assigned on some path, and is
   * undeclared, or is driven already or twice on one path.
   */
  method ElaborateAlways(s: Stmt, nets: map<Name, bool>) returns (r: Result<map<Name, Signal>>)
    requires Shaped(s)
    ensures r.Ok? <==> Acceptable(s, nets)
    ensures r.Ok? && GoodCases(s) ==> forall v: Values, x :: Edge(r.value, v, x) == Next(s, v, x)
    ensures r.Ok? ==> forall x :: (x in r.value <==> Assigned(s, x)) && (x in r.value ==> r.value[x] == Lookup(Compile(s), x))
    ensures r.Err? ==> Assigned(s, r.error.name)
    ensures r.Err? && r.error.MissingDriver? ==> r.error.name !in nets
    ensures r.Err? && r.error.DrivenTwice? ==> r.error.name in nets && (nets[r.error.name] || AssignedTwice(s, r.error.name))
  {
    hide Assigned, AssignedTwice;
    var list := Expand(s);
    r := TerminateRegistered(list, nets);
    ConnectableIffAcceptable(s, nets);
    forall x ensures (Count(list, x) > 1 <==> AssignedTwice(s, x)) && (Count(list, x) > 0 <==> Assigned(s, x)) {
      TwiceIffPath(s, x);
    }
    if r.Ok? && GoodCases(s) {
      forall v: Values, x ensures Edge(r.value, v, x) == Next(s, v, x) {
        assert Once(list);
        CompileCorrect(s, v, x);
        if x !in r.value {
          LookupAbsent(list, x);
        }
      }
    }
  }

  // ----- A bad case header always has a victim -----

  function Nets(names: seq<Name>): seq<Signal> {
    seq(|names|, i requires 0 <= i < |names| => Net(names[i]))
  }

  function Loads(x: Name, data: seq<bool>): seq<Stmt> {
    seq(|data|, i requires 0 <= i < |data| => Assign([x], [Const(data[i])]))
  }

  function State(names: seq<Name>, sel: seq<bool>, hold: bool): Values
    requires |names| == |sel|
  {
    (n: Name) => if exists i :: 0 <= i < |names| && names[i] == n then exists i :: 0 <= i < |names| && names[i] == n && sel[i] else hold
  }

  lemma StateReads(names: seq<Name>, sel: seq<bool>, hold: bool)
    requires |names| == |sel| && forall i, j | 0 <= i < j < |names| :: names[i] != names[j]
    ensures Bits(Nets(names), State(names, sel, hold)) == sel
  {
    var v := State(names, sel, hold);
    forall i | 0 <= i < |names| ensures v(names[i]) == sel[i] {
      if j :| 0 <= j < |names| && names[j] == names[i] && sel[j] {
        assert i == j;
      }
    }
  }

  lemma LoadLists(x: Name, data: seq<bool>)
    ensures var lists := CompileAll(Loads(x, data));
            |lists| == |data| && forall j | 0 <= j < |data| :: lists[j] == [Pin(x, Const(data[j]))]
  {
    var lists := CompileAll(Loads(x, data));
    forall j | 0 <= j < |data| ensures lists[j] == [Pin(x, Const(data[j]))] {
      assert Loads(x, data)[j] == Assign([x], [Const(data[j])]);
      assert [x][1..] == [] && [Const(data[j])][1..] == [] && Alias([], []) == [];
      assert Alias([x], [Const(data[j])]) == [Pin(x, Const(data[j]))];
    }
  }

  lemma LoadLookups(x: Name, data: seq<bool>)
    requires data != []
    ensures var lists := SortAll(CompileAll(Loads(x, data)));
            && AllSorted(lists) && Driven(lists, x)
            && |Lookups(lists, x)| == |data| && forall j | 0 <= j < |data| :: Lookups(lists, x)[j] == Const(data[j])
  {
    var plain := CompileAll(Loads(x, data));
    LoadLists(x, data);
    SortedBranches(plain);
    assert Count(SortAll(plain)[0], x) == Count(plain[0], x) == 1;
  }

  lemma LoadsDrive(labels: seq<seq<bool>>, hasDefault: bool, selector: seq<Signal>, x: Name, data: seq<bool>, v: Values)
    requires |data| == BranchCount(labels, hasDefault) > 0
    ensures Clocked(Compile(Case(selector, labels, Loads(x, data), hasDefault)), v, x) ==
            Muxed(labels, hasDefault, Bits(selector, v), data)
  {
    hide Sorted, MergeColumns, Count, Driven, Lookup, Lookups, CompileAll, SortAll, Loads;
    var lists, controls := SortAll(CompileAll(Loads(x, data))), CaseControls(selector, labels, hasDefault);
    LoadLookups(x, data);
    MergeLookup(controls, lists, x);
    ControlsEval(selector, labels, hasDefault, v);
    var drivers := Lookups(lists, x);
    assert forall j | 0 <= j < |data| :: Eval(drivers[j], v) == data[j];
    assert Eval(OneHot(controls, drivers), v) == Muxed(labels, hasDefault, Bits(selector, v), data);
  }

  lemma LoadsRun(labels: seq<seq<bool>>, hasDefault: bool, selector: seq<Signal>, x: Name, data: seq<bool>, v: Values)
    requires |data| == BranchCount(labels, hasDefault)
    ensures Next(Case(selector, labels, Loads(x, data), hasDefault), v, x) == Picked(labels, Bits(selector, v), data, v(x))
  {
    var k := Chosen(labels, Bits(selector, v));
    if k < |data| {
      assert Loads(x, data)[k] == Assign([x], [Const(data[k])]);
      assert [x][1..] == [];
      assert AssignAll([x], [Const(data[k])], v) == map[x := data[k]];
      assert Run(Loads(x, data)[k], v) == map[x := data[k]];
      assert Run(Case(selector, labels, Loads(x, data), hasDefault), v) == map[x := data[k]];
    }
  }

  /**
   * The header condition is exact: over distinct selector nets, a case header is good iff every register load under
   * it steps like the statement in every state.
   */
  lemma CaseHeaderExact(names: seq<Name>, labels: seq<seq<bool>>, hasDefault: bool, x: Name)
    requires forall i, j | 0 <= i < j < |names| :: names[i] != names[j]
    requires x !in names && BranchCount(labels, hasDefault) > 0
    ensures HeaderOk(|names|, labels, hasDefault) <==>
            forall data: seq<bool>, v: Values | |data| == BranchCount(labels, hasDefault) ::
              Clocked(Compile(Case(Nets(names), labels, Loads(x, data), hasDefault)), v, x) ==
              Next(Case(Nets(names), labels, Loads(x, data), hasDefault), v, x)
  {
    if HeaderOk(|names|, labels, hasDefault) {
      forall data: seq<bool>, v: Values | |data| == BranchCount(labels, hasDefault)
        ensures Clocked(Compile(Case(Nets(names), labels, Loads(x, data), hasDefault)), v, x) ==
                Next(Case(Nets(names), labels, Loads(x, data), hasDefault), v, x)
      {
        LoadsDrive(labels, hasDefault, Nets(names), x, data, v);
        LoadsRun(labels, hasDefault, Nets(names), x, data, v);
        GoodHeader(|names|, labels, hasDefault, Bits(Nets(names), v), data, v(x));
      }
    } else {
      var sel, data, hold := BadHeader(|names|, labels, hasDefault);
      var v := State(names, sel, hold);
      StateReads(names, sel, hold);
      LoadsDrive(labels, hasDefault, Nets(names), x, data, v);
      LoadsRun(labels, hasDefault, Nets(names), x, data, v);
    }
  }
}
