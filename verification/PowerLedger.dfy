/** The two ledgers: power by kind against power by origin, and memory leakage against configuration bits. */
module PowerLedger {
  import opened Options
  import opened MuxCount
  import opened PowerUse
  import opened PowerSites
  import opened PowerGrid

  /** Power by kind and power by origin agree; configuration memory leaks per bit. */
  predicate Balanced(lib: Library, u: Use) {
    u.dynamic + u.leakage == u.primitive + u.inter && u.memLeakage == lib.memStatic * u.bits as real
  }

  lemma AddBalanced(lib: Library, u: Use, v: Use)
    requires Balanced(lib, u) && Balanced(lib, v)
    ensures Balanced(lib, Add(u, v))
  {
    assert lib.memStatic * (u.bits + v.bits) as real == lib.memStatic * u.bits as real + lib.memStatic * v.bits as real;
  }

  lemma NoneBalanced(lib: Library)
    ensures Balanced(lib, NoUse)
  {
  }

  lemma OutputBalanced(lib: Library, b: Option<Block>, pins: seq<Pin>)
    requires LibraryOk(lib) && pins != []
    ensures Balanced(lib, OutputUse(lib, b, pins))
  {
    hide MeanActivity, Muxes, SelectBits, MuxDynamic, MuxLeakage;
  }

  lemma MacroBalanced(lib: Library, n: Node, b: Option<Block>, i: Instance)
    requires LibraryOk(lib) && i.Macro? && i.atFreq > 0.0
    ensures Balanced(lib, MacroUse(lib, n, b, i))
  {
    hide Silent, Flat, MacroDynamic, MacroLeakage;
  }

  lemma ItemBalanced(lib: Library, item: Item)
    requires LibraryOk(lib)
    ensures Balanced(lib, ItemUse(lib, item))
  {
    hide MacroUse, OutputUse, Flat, Balanced;
    NoneBalanced(lib);
    var p := item.place;
    match item.site
    case Primitive =>
      if p.entry.Macro? && p.entry.atFreq > 0.0 {
        MacroBalanced(lib, p.node, p.block, p.entry);
      }
    case Output(c, _, _) =>
      if ModeOf(p.block) < |p.node.modes| && c < |p.node.modes[ModeOf(p.block)].interconnects| {
        var i := p.node.modes[ModeOf(p.block)].interconnects[c];
        if i.Muxed? && Flat(i.inputs) != [] {
          OutputBalanced(lib, p.block, Flat(i.inputs));
        }
      }
  }

  /** Whatever is listed, both ledgers grow alike. */
  lemma {:induction false} GridBalanced(lib: Library, os: seq<Occurrence>)
    requires LibraryOk(lib)
    ensures Balanced(lib, GridTotal(lib, os))
  {
    hide ItemUse, Add, Balanced;
    NoneBalanced(lib);
    if os != [] {
      var n := |os| - 1;
      GridBalanced(lib, os[..n]);
      ItemBalanced(lib, os[n].item);
      AddBalanced(lib, GridTotal(lib, os[..n]), ItemUse(lib, os[n].item));
    }
  }
}
