/**
 * create_mux_statements: the k-way merge of the branches' sorted pin lists into one one-hot mux per
 * driven name. MergeColumns is the merge; the class below runs the source's index loop over the node's pin array.
 */
module MuxMerge {
  import opened Names
  import opened Signals

  function TotalPins(lists: seq<PinList>): nat {
    if lists == [] then 0 else |lists[0]| + TotalPins(lists[1..])
  }

  predicate HasHead(list: PinList, x: Name) {
    list != [] && list[0].name == x
  }

  /** The least name at the head of any list. */
  function FirstName(lists: seq<PinList>): Name
    requires TotalPins(lists) > 0
  {
    if lists[0] == [] then FirstName(lists[1..])
    else if TotalPins(lists[1..]) == 0 then lists[0][0].name
    else
      var m := FirstName(lists[1..]);
      if LessEq(lists[0][0].name, m) then lists[0][0].name else m
  }

  /** One mux's data pins: a branch that drives x supplies its pin, any other the implied signal, x itself. */
  function Column(lists: seq<PinList>, x: Name): seq<Signal> {
    seq(|lists|, j requires 0 <= j < |lists| => if HasHead(lists[j], x) then lists[j][0].sig else Net(x))
  }

  function Rest(lists: seq<PinList>, x: Name): seq<PinList> {
    seq(|lists|, j requires 0 <= j < |lists| => if HasHead(lists[j], x) then lists[j][1..] else lists[j])
  }

  function MergeColumns(controls: seq<Signal>, lists: seq<PinList>): PinList
    decreases TotalPins(lists)
  {
    if TotalPins(lists) == 0 then []
    else
      var x := FirstName(lists);
      FirstNameFacts(lists);
      RestShrinks(lists, x);
      [Pin(x, OneHot(controls, Column(lists, x)))] + MergeColumns(controls, Rest(lists, x))
  }

  predicate AllSorted(lists: seq<PinList>) {
    forall j | 0 <= j < |lists| :: Sorted(lists[j])
  }

  lemma {:induction false} NoPins(lists: seq<PinList>)
    ensures TotalPins(lists) == 0 <==> forall j | 0 <= j < |lists| :: lists[j] == []
  {
    if lists != [] {
      NoPins(lists[1..]);
      forall j | 0 <= j < |lists| && TotalPins(lists) == 0 ensures lists[j] == [] {
        if j > 0 {
          assert lists[j] == lists[1..][j - 1];
        }
      }
    }
  }

  lemma {:induction false} FirstNameFacts(lists: seq<PinList>)
    requires TotalPins(lists) > 0
    ensures exists j :: 0 <= j < |lists| && HasHead(lists[j], FirstName(lists))
    ensures forall j | 0 <= j < |lists| && lists[j] != [] :: LessEq(FirstName(lists), lists[j][0].name)
  {
    var x := FirstName(lists);
    var tail := lists[1..];
    NoPins(tail);
    if TotalPins(tail) > 0 {
      FirstNameFacts(tail);
      var k :| 0 <= k < |tail| && HasHead(tail[k], FirstName(tail));
      assert HasHead(lists[k + 1], FirstName(tail));
      if lists[0] != [] {
        Total(lists[0][0].name, FirstName(tail));
        Total(x, x);
        assert HasHead(lists[0], lists[0][0].name);
      }
    } else {
      assert HasHead(lists[0], x);
      Total(x, x);
    }
    forall j | 0 <= j < |lists| && lists[j] != [] ensures LessEq(x, lists[j][0].name) {
      if j > 0 {
        assert tail[j - 1] == lists[j];
        if lists[0] != [] {
          Transitive(x, FirstName(tail), lists[j][0].name);
        }
      }
    }
  }

  lemma {:induction false} RestShrinks(lists: seq<PinList>, x: Name)
    ensures TotalPins(Rest(lists, x)) <= TotalPins(lists)
    ensures (exists j :: 0 <= j < |lists| && HasHead(lists[j], x)) ==> TotalPins(Rest(lists, x)) < TotalPins(lists)
  {
    if lists != [] {
      assert Rest(lists, x)[1..] == Rest(lists[1..], x);
      RestShrinks(lists[1..], x);
      if j :| 0 < j < |lists| && HasHead(lists[j], x) {
        assert HasHead(lists[1..][j - 1], x);
      }
    }
  }

  lemma SortedAfterHead(list: PinList, x: Name)
    requires Sorted(list) && (list == [] || LessEq(x, list[0].name)) && !HasHead(list, x)
    ensures Count(list, x) == 0
  {
    CountMember(list, x);
    if i :| 0 <= i < |list| && list[i].name == x {
      assert i > 0 && LessEq(list[0].name, x);
      Antisymmetric(x, list[0].name);
      assert false;
    }
  }

  /** Each branch's driver of x. */
  function Lookups(lists: seq<PinList>, x: Name): seq<Signal> {
    seq(|lists|, j requires 0 <= j < |lists| => Lookup(lists[j], x))
  }

  predicate Driven(lists: seq<PinList>, x: Name) {
    exists j :: 0 <= j < |lists| && Count(lists[j], x) > 0
  }

  lemma ColumnOfFirst(lists: seq<PinList>)
    requires AllSorted(lists) && TotalPins(lists) > 0
    ensures Column(lists, FirstName(lists)) == Lookups(lists, FirstName(lists))
    ensures Driven(lists, FirstName(lists))
  {
    var x := FirstName(lists);
    FirstNameFacts(lists);
    var k :| 0 <= k < |lists| && HasHead(lists[k], x);
    assert Count(lists[k], x) > 0;
    forall j | 0 <= j < |lists| ensures Column(lists, x)[j] == Lookup(lists[j], x) {
      if !HasHead(lists[j], x) {
        SortedAfterHead(lists[j], x);
        LookupAbsent(lists[j], x);
      }
    }
  }

  lemma RestKeeps(lists: seq<PinList>, name: Name, x: Name)
    requires name != x
    ensures Lookups(Rest(lists, name), x) == Lookups(lists, x)
    ensures Driven(Rest(lists, name), x) == Driven(lists, x)
  {
    var rest := Rest(lists, name);
    assert forall j | 0 <= j < |lists| :: Count(rest[j], x) == Count(lists[j], x);
  }

  /**
   * What the merge computes, for any sorted branch lists: net x is driven by a one-hot mux over the branches'
   * drivers of x (x itself where a branch has none), and by nothing when no branch drives it.
   */
  lemma {:induction false} MergeLookup(controls: seq<Signal>, lists: seq<PinList>, x: Name)
    requires AllSorted(lists)
    ensures Lookup(MergeColumns(controls, lists), x) ==
            if Driven(lists, x) then OneHot(controls, Lookups(lists, x)) else Net(x)
    decreases TotalPins(lists)
  {
    NoPins(lists);
    if TotalPins(lists) > 0 {
      var name := FirstName(lists);
      FirstNameFacts(lists);
      RestShrinks(lists, name);
      ColumnOfFirst(lists);
      var rest := Rest(lists, name);
      var merged := MergeColumns(controls, rest);
      assert MergeColumns(controls, lists)[1..] == merged;
      if x != name {
        RestKeeps(lists, name, x);
        MergeLookup(controls, rest, x);
      }
    }
  }

  function MaxCount(lists: seq<PinList>, x: Name): nat {
    if lists == [] then 0 else
      var m := MaxCount(lists[1..], x);
      if Count(lists[0], x) >= m then Count(lists[0], x) else m
  }

  lemma {:induction false} MaxCountRest(lists: seq<PinList>, name: Name, x: Name)
    requires AllSorted(lists)
    requires forall j | 0 <= j < |lists| && lists[j] != [] :: LessEq(name, lists[j][0].name)
    ensures x != name ==> MaxCount(Rest(lists, name), x) == MaxCount(lists, x)
    ensures x == name ==> MaxCount(Rest(lists, name), x) == if MaxCount(lists, x) == 0 then 0 else MaxCount(lists, x) - 1
    ensures x == name && (exists j :: 0 <= j < |lists| && HasHead(lists[j], x)) ==> MaxCount(lists, x) > 0
  {
    if lists != [] {
      assert Rest(lists, name)[1..] == Rest(lists[1..], name);
      MaxCountRest(lists[1..], name, x);
      if !HasHead(lists[0], name) {
        SortedAfterHead(lists[0], name);
      }
      if j :| 0 < j < |lists| && HasHead(lists[j], x) {
        assert HasHead(lists[1..][j - 1], x);
      }
    }
  }

  /** A name gets as many mux columns as the branch that drives it most often has drivers of it. */
  lemma {:induction false} MergeCount(controls: seq<Signal>, lists: seq<PinList>, x: Name)
    requires AllSorted(lists)
    ensures Count(MergeColumns(controls, lists), x) == MaxCount(lists, x)
    decreases TotalPins(lists)
  {
    if TotalPins(lists) == 0 {
      EmptyMaxCount(lists, x);
    } else {
      var name := FirstName(lists);
      FirstNameFacts(lists);
      RestShrinks(lists, name);
      MaxCountRest(lists, name, x);
      var merged := MergeColumns(controls, Rest(lists, name));
      assert MergeColumns(controls, lists)[1..] == merged;
      MergeCount(controls, Rest(lists, name), x);
    }
  }

  lemma {:induction false} EmptyMaxCount(lists: seq<PinList>, x: Name)
    requires TotalPins(lists) == 0
    ensures MaxCount(lists, x) == 0
  {
    if lists != [] {
      EmptyMaxCount(lists[1..], x);
    }
  }

  /** The columns come out in sorted order, no more of them than pins. */
  lemma {:induction false} MergeSorted(controls: seq<Signal>, lists: seq<PinList>)
    requires AllSorted(lists)
    ensures Sorted(MergeColumns(controls, lists))
    ensures |MergeColumns(controls, lists)| <= TotalPins(lists)
    ensures TotalPins(lists) > 0 ==> MergeColumns(controls, lists) != [] && MergeColumns(controls, lists)[0].name == FirstName(lists)
    decreases TotalPins(lists)
  {
    if TotalPins(lists) > 0 {
      var x, rest := FirstName(lists), Rest(lists, FirstName(lists));
      FirstNameFacts(lists);
      RestShrinks(lists, x);
      MergeSorted(controls, rest);
      var merged := MergeColumns(controls, rest);
      if TotalPins(rest) > 0 {
        FirstNameFacts(rest);
        var k :| 0 <= k < |rest| && HasHead(rest[k], FirstName(rest));
        assert LessEq(x, FirstName(rest)) by {
          assert lists[k] != [];
          if HasHead(lists[k], x) {
            assert rest[k][0] == lists[k][1];
          }
        }
        forall i | 0 <= i < |merged| ensures LessEq(x, merged[i].name) {
          if i > 0 {
            Transitive(x, merged[0].name, merged[i].name);
          }
        }
      }
    }
  }
}
