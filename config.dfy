/** Configuration-space accesses of drivers/pci/pcie_lx.c:
    lx_pcie_cfg_set_target, lx_pcie_conf_address, lx_pcie_read_config and
    lx_pcie_write_config, as the events each one produces. None of them
    reads a register before writing it, so their events do not depend on
    the register file. */
module Config {
  import opened Bits
  import opened Header
  import opened Regs
  import opened Topology

  datatype Option<T> = None | Some(value: T)

  /** The packed target `PAB_TARGET_BUS(bus) | PAB_TARGET_DEV(dev) |
      PAB_TARGET_FUNC(func)` of a request for another bus. */
  function Target(bdf: Bdf): Word
  {
    TargetBus(bdf.bus) | TargetDev(bdf.dev) | TargetFunc(bdf.func)
  }

  /** lx_pcie_cfg_set_target: outbound window 0's PCIe address becomes the
      target, with a zero upper half. */
  function SetTargetEvents(target: Word): seq<Event>
  {
    [RegWrite(AxiAmapPexWinL(0), target), RegWrite(AxiAmapPexWinH(0), 0)]
  }

  /** Where a configuration access goes, and the events that steer the
      hardware there first. */
  datatype Resolved = Resolved(addr: Addr, evs: seq<Event>)

  /** lx_pcie_conf_address. On the controller's own bus, an offset below
      `INDIRECT_ADDR_BNDRY` is reached through page 0 and a higher one
      through its own page; any other bus is reached through the config
      window, aimed at the target. */
  function ConfAddress(busSeq: int, bdf: Bdf, offset: int): (res: Resolved)
    ensures res.addr.Ccsr? <==> bdf.bus == busSeq
    ensures bdf.bus == busSeq ==> |res.evs| == 1 && res.evs[0].PageSelect?
    ensures bdf.bus != busSeq ==> res.addr == Cfg(offset) && res.evs == SetTargetEvents(Target(bdf))
  {
    if bdf.bus == busSeq then
      if offset < IndirectAddrBoundary then Resolved(Ccsr(offset), [PageSelect(0)])
      else Resolved(Ccsr(PageAddr(offset)), [PageSelect(PageIdx(offset))])
    else Resolved(Cfg(offset), SetTargetEvents(Target(bdf)))
  }

  /** pci_get_ff: the all-ones value of an access width, what a read from
      an absent device returns. */
  function AllOnes(w: Width): (v: Word)
    ensures v == Truncate(0xFFFF_FFFF, w)
    ensures v != 0
  {
    match w
    case Size8 => 0xFF
    case Size16 => 0xFFFF
    case _ => 0xFFFF_FFFF
  }

  /** The widths lx_pcie_read_config and lx_pcie_write_config handle. */
  predicate Supported(w: Width)
  {
    !w.Unsupported?
  }

  /** The offsets whose reads lx_pcie_read_config brackets with the LUT
      retry-enable toggle: Vendor ID and Header Type. */
  predicate TogglesLut(offset: U32)
  {
    offset == HeaderTypeOffset || offset == VendorIdOffset
  }

  /** The write of `PCIE_LUT_GCR` before (`on` false) or after (`on` true)
      a read from `offset`: none at all for other offsets. */
  function LutEvents(offset: U32, on: bool): seq<Event>
  {
    if TogglesLut(offset) then [RegWrite(LutGcr, if on then Shl(1, LutGcrRre) else 0)] else []
  }

  /** The outcome of a configuration access: its return code, the value
      stored through `valuep` (None when nothing is stored), and the events
      it produces. */
  datatype Access = Access(ret: int, value: Option<Word>, evs: seq<Event>)

  /** lx_pcie_read_config, where `data` is what the hardware answers at the
      resolved address. */
  function ReadConfig(enabled: bool, busSeq: int, linkUp: bool,
                      bdf: Bdf, offset: U32, w: Width, data: Word): (a: Access)
    ensures a.ret == 0 || a.ret == -EINVAL
    ensures a.ret == -EINVAL <==> AddrValid(enabled, busSeq, linkUp, bdf) == 0 && !Supported(w)
    ensures a.value.Some? <==> a.ret == 0
    ensures AddrValid(enabled, busSeq, linkUp, bdf) != 0 ==> a.evs == [] && a.value == Some(AllOnes(w))
  {
    if AddrValid(enabled, busSeq, linkUp, bdf) != 0 then Access(0, Some(AllOnes(w)), [])
    else
      var res := ConfAddress(busSeq, bdf, UintToInt(offset));
      var load := if Supported(w) then [CfgRead(res.addr, w)] else [];
      Access(if Supported(w) then 0 else -EINVAL,
             if Supported(w) then Some(Truncate(data, w)) else None,
             res.evs + LutEvents(offset, false) + load + LutEvents(offset, true))
  }

  /** lx_pcie_write_config; the `ulong` value is cut to its low 32 bits,
      and the store cuts it to the access width. */
  function WriteConfig(enabled: bool, busSeq: int, linkUp: bool,
                       bdf: Bdf, offset: U32, w: Width, value: Dword): (a: Access)
    ensures a.value == None
    ensures a.ret == 0 || a.ret == -EINVAL
    ensures a.ret == -EINVAL <==> AddrValid(enabled, busSeq, linkUp, bdf) == 0 && !Supported(w)
    ensures AddrValid(enabled, busSeq, linkUp, bdf) != 0 ==> a.evs == []
  {
    if AddrValid(enabled, busSeq, linkUp, bdf) != 0 then Access(0, None, [])
    else
      var res := ConfAddress(busSeq, bdf, UintToInt(offset));
      if Supported(w) then
        Access(0, None, res.evs + [CfgWrite(res.addr, w, Truncate(Lower32(value), w))])
      else Access(-EINVAL, None, res.evs)
  }

  /** Two register writes in a row. */
  lemma TwoWrites(regs: RegFile, page: int, r1: Reg, v1: Word, r2: Reg, v2: Word)
    ensures Apply(regs, [RegWrite(r1, v1), RegWrite(r2, v2)]) == regs[r1 := v1][r2 := v2]
    ensures PageAfter(page, [RegWrite(r1, v1), RegWrite(r2, v2)]) == page
  {
    var e1, e2 := RegWrite(r1, v1), RegWrite(r2, v2);
    assert [e1, e2] == [e1] + [e2];
    assert [e1] == [] + [e1];
    ApplySnoc(regs, [e1], e2);
    ApplySnoc(regs, [], e1);
    PageAfterAppend(page, [e1], [e2]);
    assert PageAfter(page, [e1]) == page by {
      assert [e1][..0] == [];
    }
    assert PageAfter(page, [e2]) == page by {
      assert [e2][..0] == [];
    }
  }

  /** On the controller's own bus, lx_pcie_conf_address writes no register:
      it selects page 0 for an offset below the boundary and the offset's
      own page for any other, and the access goes through the controller's
      own registers. */
  lemma ConfAddressOwnBus(regs: RegFile, page: int, busSeq: int, bdf: Bdf, offset: int)
    requires bdf.bus == busSeq
    ensures
      var res := ConfAddress(busSeq, bdf, offset);
      && NoRegWrites(res.evs)
      && Apply(regs, res.evs) == regs
      && (offset < IndirectAddrBoundary ==>
            PageAfter(page, res.evs) == 0 && res.addr == Ccsr(offset))
      && (offset >= IndirectAddrBoundary ==>
            PageAfter(page, res.evs) == PageIdx(offset) && res.addr == Ccsr(PageAddr(offset)))
  {
    var res := ConfAddress(busSeq, bdf, offset);
    assert res.evs[..0] == [];
  }

  /** On any other bus, lx_pcie_conf_address aims outbound window 0 at the
      target, changes no other register and no page, and the access goes
      through the config window. */
  lemma ConfAddressOtherBus(regs: RegFile, page: int, busSeq: int, bdf: Bdf, offset: int)
    requires bdf.bus != busSeq
    ensures
      var res := ConfAddress(busSeq, bdf, offset);
      var after := Apply(regs, res.evs);
      && res.addr == Cfg(offset)
      && after[AxiAmapPexWinL(0)] == Target(bdf)
      && after[AxiAmapPexWinH(0)] == 0
      && (forall r :: r != AxiAmapPexWinL(0) && r != AxiAmapPexWinH(0) ==> after[r] == regs[r])
      && PageAfter(page, res.evs) == page
  {
    TwoWrites(regs, page, AxiAmapPexWinL(0), Target(bdf), AxiAmapPexWinH(0), 0);
  }

  /** No event is a data access to configuration space. */
  predicate NoAccess(evs: seq<Event>)
  {
    forall i :: 0 <= i < |evs| ==> !evs[i].CfgRead? && !evs[i].CfgWrite?
  }

  /** Steering a configuration access touches neither the LUT nor
      configuration space itself. */
  lemma ConfAddressQuiet(busSeq: int, bdf: Bdf, offset: int)
    ensures NoWriteTo(ConfAddress(busSeq, bdf, offset).evs, LutGcr)
    ensures NoAccess(ConfAddress(busSeq, bdf, offset).evs)
  {
  }

  /** A read from an address that fails validation yields the width's
      all-ones value and returns 0, with no event at all. */
  lemma ReadInvalid(enabled: bool, busSeq: int, linkUp: bool,
                    bdf: Bdf, offset: U32, w: Width, data: Word)
    requires AddrValid(enabled, busSeq, linkUp, bdf) != 0
    ensures
      var a := ReadConfig(enabled, busSeq, linkUp, bdf, offset, w, data);
      a.ret == 0 && a.value == Some(AllOnes(w)) && a.evs == []
  {
  }

  /** For Vendor ID and Header Type, `PCIE_LUT_GCR` is written 0 just
      before the access and `1 << PCIE_LUT_GCR_RRE` just after it, and holds
      the latter at the end. */
  lemma ReadTogglesLut(regs: RegFile, enabled: bool, busSeq: int, linkUp: bool,
                       bdf: Bdf, offset: U32, w: Width, data: Word)
    requires AddrValid(enabled, busSeq, linkUp, bdf) == 0
    requires TogglesLut(offset)
    ensures
      var res := ConfAddress(busSeq, bdf, UintToInt(offset));
      var evs := ReadConfig(enabled, busSeq, linkUp, bdf, offset, w, data).evs;
      var load := if Supported(w) then [CfgRead(res.addr, w)] else [];
      && evs == res.evs + [RegWrite(LutGcr, 0)] + load + [RegWrite(LutGcr, Shl(1, LutGcrRre))]
      && Apply(regs, evs)[LutGcr] == Shl(1, LutGcrRre)
  {
    var res := ConfAddress(busSeq, bdf, UintToInt(offset));
    var load := if Supported(w) then [CfgRead(res.addr, w)] else [];
    ApplyLastWrite(regs, res.evs + [RegWrite(LutGcr, 0)] + load, LutGcr, Shl(1, LutGcrRre), []);
  }

  /** No other offset touches the LUT, whatever the address and width. */
  lemma ReadLeavesLut(enabled: bool, busSeq: int, linkUp: bool,
                      bdf: Bdf, offset: U32, w: Width, data: Word)
    requires !TogglesLut(offset)
    ensures NoWriteTo(ReadConfig(enabled, busSeq, linkUp, bdf, offset, w, data).evs, LutGcr)
  {
    if AddrValid(enabled, busSeq, linkUp, bdf) == 0 {
      ConfAddressQuiet(busSeq, bdf, UintToInt(offset));
    }
  }

  /** A read of an unsupported width still steers the hardware to the
      address and toggles the LUT, but loads nothing, stores nothing through
      `valuep` and returns -EINVAL. */
  lemma ReadUnsupported(enabled: bool, busSeq: int, linkUp: bool,
                        bdf: Bdf, offset: U32, w: Width, data: Word)
    requires AddrValid(enabled, busSeq, linkUp, bdf) == 0
    requires !Supported(w)
    ensures
      var a := ReadConfig(enabled, busSeq, linkUp, bdf, offset, w, data);
      var res := ConfAddress(busSeq, bdf, UintToInt(offset));
      && a.ret == -EINVAL && a.value == None
      && NoAccess(a.evs)
      && a.evs == res.evs + LutEvents(offset, false) + LutEvents(offset, true)
  {
    ConfAddressQuiet(busSeq, bdf, UintToInt(offset));
  }

  /** A value cut to a width fits the width. */
  lemma TruncateFits(v: Word, w: Width)
    ensures Inside(Truncate(v, w), AllOnes(w))
  {
    match w
    case Size8 =>
    case Size16 =>
    case _ =>
  }

  /** A read returns 0 exactly when the address fails validation or the
      width is supported; a read that succeeds stores the loaded value cut
      to the access width; any value stored fits the width. */
  lemma ReadValue(enabled: bool, busSeq: int, linkUp: bool,
                  bdf: Bdf, offset: U32, w: Width, data: Word)
    ensures
      var a := ReadConfig(enabled, busSeq, linkUp, bdf, offset, w, data);
      && (a.ret == 0 <==> AddrValid(enabled, busSeq, linkUp, bdf) != 0 || Supported(w))
      && (a.value.Some? ==> Inside(a.value.value, AllOnes(w)))
      && (AddrValid(enabled, busSeq, linkUp, bdf) == 0 && Supported(w) ==>
            a.value == Some(Truncate(data, w)))
  {
    TruncateFits(data, w);
  }

  /** lx_pcie_write_config never writes the LUT. For an address that fails
      validation nothing happens and 0 is returned; otherwise the hardware
      is steered to the address and, for a supported width, the value is
      stored cut to the width and 0 returned, while for any other width
      nothing is stored and -EINVAL returned. */
  lemma WriteOutcome(enabled: bool, busSeq: int, linkUp: bool,
                     bdf: Bdf, offset: U32, w: Width, value: Dword)
    ensures
      var a := WriteConfig(enabled, busSeq, linkUp, bdf, offset, w, value);
      var res := ConfAddress(busSeq, bdf, UintToInt(offset));
      && NoWriteTo(a.evs, LutGcr)
      && (AddrValid(enabled, busSeq, linkUp, bdf) != 0 ==> a.ret == 0 && a.evs == [])
      && (AddrValid(enabled, busSeq, linkUp, bdf) == 0 && Supported(w) ==>
            a.ret == 0
            && a.evs == res.evs + [CfgWrite(res.addr, w, Truncate(Lower32(value), w))])
      && (AddrValid(enabled, busSeq, linkUp, bdf) == 0 && !Supported(w) ==>
            a.ret == -EINVAL && a.evs == res.evs && NoAccess(a.evs))
  {
    ConfAddressQuiet(busSeq, bdf, UintToInt(offset));
  }
}
