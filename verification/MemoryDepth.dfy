/**
 * split_sp_memory_depth and split_dp_memory_depth on a memory node's pin array. The node's ports are read off its pins'
 * mappings; the recursion turns them into the bank network of BankedRam.
 */
module MemoryDepth {
  import opened Signals

  /** The hard block port a pin is mapped to. */
  datatype Mapping = Addr | Data | We | Clk | Addr1 | Data1 | We1 | Addr2 | Data2 | We2 | Unmapped

  datatype MemPin = MemPin(mapping: Mapping, name: string, sig: Signal)

  datatype Error = MissingPort(mapping: Mapping) | BadSplitSize
  datatype Result<T> = Ok(value: T) | Err(error: Error)

  const PAD: string := "top^ZERO_PAD_ZERO"

  /** The pins mapped to a port, in pin order. */
  function Mapped(pins: seq<MemPin>, mapping: Mapping): seq<MemPin> {
    if pins == [] then []
    else (if pins[0].mapping == mapping then [pins[0]] else []) + Mapped(pins[1..], mapping)
  }

  function Drivers(pins: seq<MemPin>): seq<Signal> {
    seq(|pins|, i requires 0 <= i < |pins| => pins[i].sig)
  }

  /** How many leading pins are not tied to the pad net. */
  function Leading(pins: seq<MemPin>): nat {
    if pins == [] || pins[0].name == PAD then 0 else 1 + Leading(pins[1..])
  }

  /** The depth of a memory in address bits: its first pins, up to the first that is tied to the pad net. */
  predicate IsDepth(pins: seq<MemPin>, depth: nat) {
    && depth <= |pins| && (forall i | 0 <= i < depth :: pins[i].name != "top^ZERO_PAD_ZERO")
    && (depth < |pins| ==> pins[depth].name == "top^ZERO_PAD_ZERO")
  }

  lemma {:induction false} LeadingExact(pins: seq<MemPin>, depth: nat)
    ensures IsDepth(pins, depth) <==> depth == Leading(pins)
  {
    if pins == [] {
    } else if pins[0].name != PAD && depth > 0 {
      LeadingExact(pins[1..], depth - 1);
      assert forall i | 0 < i < |pins| :: pins[i] == pins[1..][i - 1];
    }
  }

  function Sum(sizes: seq<nat>): nat {
    if sizes == [] then 0 else sizes[0] + Sum(sizes[1..])
  }

  /** The pins, cut into ports of the given sizes, each port with a mapping of its own. */
  predicate Ported(pins: seq<MemPin>, sizes: seq<nat>) {
    if sizes == [] then pins == []
    else
      && 0 < sizes[0] <= |pins|
      && (forall i | 0 <= i < sizes[0] :: pins[i].mapping == pins[0].mapping)
      && (forall i | sizes[0] <= i < |pins| :: pins[i].mapping != pins[0].mapping)
      && Ported(pins[sizes[0]..], sizes[1..])
  }

  predicate Has(pins: seq<MemPin>, mapping: Mapping) {
    exists i | 0 <= i < |pins| :: pins[i].mapping == mapping
  }

  /** Position of a port's first pin. */
  function First(pins: seq<MemPin>, mapping: Mapping): (i: nat)
    requires Has(pins, mapping)
    ensures i < |pins| && pins[i].mapping == mapping && forall j | 0 <= j < i :: pins[j].mapping != mapping
  {
    if pins[0].mapping == mapping then 0
    else
      assert forall i | 0 < i < |pins| :: pins[i] == pins[1..][i - 1];
      1 + First(pins[1..], mapping)
  }

  function RemoveAt<T>(s: seq<T>, i: nat): seq<T>
    requires i < |s|
  {
    s[..i] + s[i + 1..]
  }

  lemma {:induction false} MappedAppend(a: seq<MemPin>, b: seq<MemPin>, m: Mapping)
    ensures Mapped(a + b, m) == Mapped(a, m) + Mapped(b, m)
  {
    hide Mapped;
    if a == [] {
      assert a + b == b;
      MappedEmpty(m);
    } else {
      MappedAppend(a[1..], b, m);
      MappedFirst(a, m);
      assert a + b == [a[0]] + (a[1..] + b);
      MappedFirst(a + b, m);
      assert (a + b)[1..] == a[1..] + b;
    }
  }

  lemma MappedEmpty(m: Mapping)
    ensures Mapped([], m) == []
  {
  }

  lemma MappedFirst(pins: seq<MemPin>, m: Mapping)
    requires pins != []
    ensures Mapped(pins, m) == (if pins[0].mapping == m then [pins[0]] else []) + Mapped(pins[1..], m)
  {
  }

  lemma {:induction false} MappedNone(pins: seq<MemPin>, m: Mapping)
    ensures Has(pins, m) <==> Mapped(pins, m) != []
  {
    if pins != [] {
      MappedNone(pins[1..], m);
      assert forall i | 0 < i < |pins| :: pins[i] == pins[1..][i - 1];
      if Has(pins[1..], m) {
        var i :| 0 <= i < |pins| - 1 && pins[1..][i].mapping == m;
        assert pins[i + 1].mapping == m;
      }
    }
  }

  lemma MappedAt(pins: seq<MemPin>, i: nat, m: Mapping)
    requires i < |pins|
    ensures Mapped(pins, m) == Mapped(pins[..i], m) + (if pins[i].mapping == m then [pins[i]] else []) + Mapped(pins[i + 1..], m)
  {
    var p, rest := pins[i], pins[i + 1..];
    assert pins == pins[..i] + ([p] + rest);
    MappedAppend(pins[..i], [p] + rest, m);
    assert ([p] + rest)[1..] == rest;
  }

  /** Taking out a port's first pin drops that port's first pin and leaves every other port alone. */
  lemma MappedRemove(pins: seq<MemPin>, port: Mapping, m: Mapping)
    requires Has(pins, port)
    ensures Mapped(pins, port) != [] && Mapped(pins, port)[0] == pins[First(pins, port)]
    ensures Mapped(RemoveAt(pins, First(pins, port)), m) == if m == port then Mapped(pins, m)[1..] else Mapped(pins, m)
  {
    var i := First(pins, port);
    MappedNone(pins[..i], port);
    MappedAt(pins, i, port);
    MappedAt(pins, i, m);
    MappedAppend(pins[..i], pins[i + 1..], m);
  }

  /** Replacing a one-pin port's pin leaves every other port alone. */
  lemma MappedReplace(pins: seq<MemPin>, port: Mapping, p: MemPin, m: Mapping)
    requires Has(pins, port) && |Mapped(pins, port)| == 1 && p.mapping == port
    ensures Mapped(pins[First(pins, port) := p], m) == if m == port then [p] else Mapped(pins, m)
  {
    var i := First(pins, port);
    var after := pins[i := p];
    assert after[..i] == pins[..i] && after[i + 1..] == pins[i + 1..];
    MappedAt(pins, i, port);
    MappedAt(pins, i, m);
    MappedAt(after, i, m);
  }

  lemma {:induction false} RemovePorted(pins: seq<MemPin>, sizes: seq<nat>, port: nat)
    requires Ported(pins, sizes) && port < |sizes| && sizes[port] >= 2
    ensures Sum(sizes[..port]) < |pins|
    ensures Ported(RemoveAt(pins, Sum(sizes[..port])), sizes[port := sizes[port] - 1])
  {
    if port == 0 {
      RemoveFirst(pins, sizes);
    } else {
      var n, k := sizes[0], Sum(sizes[1..][..port - 1]);
      assert Sum(sizes[..port]) == n + k by {
        assert sizes[..port][1..] == sizes[1..][..port - 1];
      }
      hide Ported, Sum;
      PortedParts(pins, sizes);
      RemovePorted(pins[n..], sizes[1..], port - 1);
      RemoveBeyond(pins, n, k);
      var after, shorter := RemoveAt(pins, n + k), sizes[port := sizes[port] - 1];
      assert shorter[0] == n && shorter[1..] == sizes[1..][port - 1 := sizes[port] - 1];
      PortedCons(after, shorter);
    }
  }

  lemma PortedCons(pins: seq<MemPin>, sizes: seq<nat>)
    requires sizes != [] && 0 < sizes[0] <= |pins|
    requires forall i | 0 <= i < sizes[0] :: pins[i].mapping == pins[0].mapping
    requires forall i | sizes[0] <= i < |pins| :: pins[i].mapping != pins[0].mapping
    requires Ported(pins[sizes[0]..], sizes[1..])
    ensures Ported(pins, sizes)
  {
  }

  lemma PortedParts(pins: seq<MemPin>, sizes: seq<nat>)
    requires Ported(pins, sizes) && sizes != []
    ensures 0 < sizes[0] <= |pins|
    ensures forall i | 0 <= i < sizes[0] :: pins[i].mapping == pins[0].mapping
    ensures forall i | sizes[0] <= i < |pins| :: pins[i].mapping != pins[0].mapping
    ensures Ported(pins[sizes[0]..], sizes[1..])
  {
  }

  lemma RemoveFirst(pins: seq<MemPin>, sizes: seq<nat>)
    requires Ported(pins, sizes) && sizes != [] && sizes[0] >= 2
    ensures pins != [] && Ported(RemoveAt(pins, 0), sizes[0 := sizes[0] - 1])
  {
    hide Ported;
    PortedParts(pins, sizes);
    var after, shorter := RemoveAt(pins, 0), sizes[0 := sizes[0] - 1];
    assert forall i | 0 <= i < |after| :: after[i] == pins[i + 1];
    assert after[sizes[0] - 1..] == pins[sizes[0]..];
    assert shorter[1..] == sizes[1..];
    PortedCons(after, shorter);
  }

  lemma RemoveBeyond(pins: seq<MemPin>, n: nat, k: nat)
    requires 0 < n && n + k < |pins|
    requires forall i | 0 <= i < n :: pins[i].mapping == pins[0].mapping
    requires forall i | n <= i < |pins| :: pins[i].mapping != pins[0].mapping
    ensures var after := RemoveAt(pins, n + k);
            && after[n..] == RemoveAt(pins[n..], k)
            && (forall i | 0 <= i < n :: after[i].mapping == after[0].mapping)
            && (forall i | n <= i < |after| :: after[i].mapping != after[0].mapping)
  {
    var after := RemoveAt(pins, n + k);
    assert forall i | 0 <= i < |after| :: after[i] == if i < n + k then pins[i] else pins[i + 1];
  }

  lemma {:induction false} ReplacePorted(pins: seq<MemPin>, sizes: seq<nat>, i: nat, p: MemPin)
    requires Ported(pins, sizes) && i < |pins| && p.mapping == pins[i].mapping
    ensures Ported(pins[i := p], sizes)
  {
    var n := sizes[0];
    if i < n {
      assert pins[i := p][n..] == pins[n..];
    } else {
      ReplacePorted(pins[n..], sizes[1..], i - n, p);
      assert pins[i := p][n..] == pins[n..][i - n := p];
    }
  }
}
