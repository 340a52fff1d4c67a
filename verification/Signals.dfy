/** Combinational signals of a netlist, and the named pin lists that statement expansion passes around. */
module Signals {
  import opened Names

  /** The driver of a pin. OneHot is a multi-port mux, printed to BLIF as an OR of (control AND data) terms. */
  datatype Signal =
    | Const(bit: bool)
    | Net(name: Name)
    | Not(arg: Signal)
    | And(first: Signal, second: Signal)
    | AnyOf(args: seq<Signal>)
    | NoneOf(args: seq<Signal>)
    | Same(left: seq<Signal>, right: seq<Signal>)
    | OneHot(controls: seq<Signal>, data: seq<Signal>)

  type Values = Name -> bool

  predicate Eval(s: Signal, v: Values) {
    match s
    case Const(b) => b
    case Net(n) => v(n)
    case Not(a) => !Eval(a, v)
    case And(a, b) => Eval(a, v) && Eval(b, v)
    case AnyOf(args) => exists i | 0 <= i < |args| :: Eval(args[i], v)
    case NoneOf(args) => forall i | 0 <= i < |args| :: !Eval(args[i], v)
    case Same(l, r) => |l| == |r| && forall i | 0 <= i < |l| :: Eval(l[i], v) == Eval(r[i], v)
    case OneHot(cs, ds) => exists i | 0 <= i < |cs| && i < |ds| :: Eval(cs[i], v) && Eval(ds[i], v)
  }

  function Bits(ss: seq<Signal>, v: Values): seq<bool> {
    seq(|ss|, i requires 0 <= i < |ss| => Eval(ss[i], v))
  }

  datatype Pin = Pin(name: Name, sig: Signal)
  type PinList = seq<Pin>

  /** How often a name is driven by the list. */
  function Count(list: PinList, x: Name): nat {
    if list == [] then 0 else (if list[0].name == x then 1 else 0) + Count(list[1..], x)
  }

  /** The signal that becomes net x: its first driver in the list, or x itself (x holds) when it has none. */
  function Lookup(list: PinList, x: Name): Signal {
    if list == [] then Net(x) else if list[0].name == x then list[0].sig else Lookup(list[1..], x)
  }

  predicate Sorted(list: PinList) {
    forall i, j | 0 <= i < j < |list| :: LessEq(list[i].name, list[j].name)
  }

  function Insert(p: Pin, list: PinList): PinList {
    if list == [] || LessEq(p.name, list[0].name) then [p] + list else [list[0]] + Insert(p, list[1..])
  }

  /** sort_signal_list_alphabetically; the order of equal names, which qsort leaves open, is kept here. */
  function Sort(list: PinList): PinList {
    if list == [] then [] else Insert(list[0], Sort(list[1..]))
  }

  lemma {:induction false} CountAppend(a: PinList, b: PinList, x: Name)
    ensures Count(a + b, x) == Count(a, x) + Count(b, x)
  {
    if a == [] {
      assert a + b == b;
    } else {
      assert (a + b)[1..] == a[1..] + b;
      CountAppend(a[1..], b, x);
    }
  }

  lemma {:induction false} LookupAppend(a: PinList, b: PinList, x: Name)
    ensures Lookup(a + b, x) == if Count(a, x) > 0 then Lookup(a, x) else Lookup(b, x)
  {
    if a == [] {
      assert a + b == b;
    } else {
      assert (a + b)[1..] == a[1..] + b;
      LookupAppend(a[1..], b, x);
    }
  }

  lemma {:induction false} LookupAbsent(list: PinList, x: Name)
    requires Count(list, x) == 0
    ensures Lookup(list, x) == Net(x)
  {
    if list != [] {
      LookupAbsent(list[1..], x);
    }
  }

  lemma {:induction false} CountMember(list: PinList, x: Name)
    ensures Count(list, x) > 0 <==> exists i :: 0 <= i < |list| && list[i].name == x
  {
    if list != [] {
      CountMember(list[1..], x);
      if Count(list[1..], x) > 0 {
        var i :| 0 <= i < |list[1..]| && list[1..][i].name == x;
        assert list[i + 1].name == x;
      }
      forall i | 0 < i < |list| && list[i].name == x ensures Count(list[1..], x) > 0 {
        assert list[1..][i - 1].name == x;
      }
    }
  }

  lemma {:induction false} InsertSorted(p: Pin, list: PinList)
    requires Sorted(list)
    ensures Sorted(Insert(p, list))
    ensures multiset(Insert(p, list)) == multiset{p} + multiset(list)
  {
    if list == [] || LessEq(p.name, list[0].name) {
      forall i | 0 < i < |list| ensures LessEq(p.name, list[i].name) {
        Transitive(p.name, list[0].name, list[i].name);
      }
    } else {
      hide LessEq;
      var rest := Insert(p, list[1..]);
      InsertSorted(p, list[1..]);
      Total(p.name, list[0].name);
      assert list == [list[0]] + list[1..];
      forall i | 0 <= i < |rest| ensures LessEq(list[0].name, rest[i].name) {
        assert rest[i] in multiset(rest);
        assert rest[i] == p || rest[i] in list[1..];
      }
    }
  }

  lemma {:induction false} InsertLookup(p: Pin, list: PinList, x: Name)
    ensures Count(Insert(p, list), x) == (if p.name == x then 1 else 0) + Count(list, x)
    ensures Lookup(Insert(p, list), x) == if p.name == x then p.sig else Lookup(list, x)
  {
    if list == [] || LessEq(p.name, list[0].name) {
      assert ([p] + list)[1..] == list;
    } else {
      var rest := Insert(p, list[1..]);
      InsertLookup(p, list[1..], x);
      Total(p.name, p.name);
      assert ([list[0]] + rest)[1..] == rest;
    }
  }

  lemma {:induction false} SortFacts(list: PinList, x: Name)
    ensures Sorted(Sort(list))
    ensures multiset(Sort(list)) == multiset(list)
    ensures Count(Sort(list), x) == Count(list, x)
    ensures Lookup(Sort(list), x) == Lookup(list, x)
  {
    if list != [] {
      SortFacts(list[1..], x);
      InsertSorted(list[0], Sort(list[1..]));
      InsertLookup(list[0], Sort(list[1..]), x);
      assert list == [list[0]] + list[1..];
    }
  }
}
