/** The driver state `struct lx_pcie` of drivers/pci/pcie_lx.c and the
    driver's functions as methods that change it step by step: each
    register access goes through Emit, and each method's new state is what
    the events or register operations of the Regs, Config and Setup modules
    leave. */
module Driver {
  import opened Bits
  import opened Header
  import opened Regs
  import opened Topology
  import opened Windows
  import opened Config
  import opened Setup

  /** One LX PCIe controller. The register banks (CCSR, LUT) are one
      register file; `page` is the page the CCSR indirection window shows;
      `log` is every event the controller has seen, in order. */
  class Controller {
    var enabled: bool           // pcie->enabled
    const busSeq: int           // pcie->bus->seq
    const ltssmSta: Word        // PCIE_LTSSM_STA of the pf_ctrl bank
    var regs: RegFile
    var page: int
    var log: seq<Event>
    var streamIdCur: int        // pcie->stream_id_cur
    const cfgStart: Dword       // pcie->cfg_res.start, as the device tree gives it
    const cfgSize: Dword        // fdt_resource_size(&pcie->cfg_res)

    /** A freshly allocated, zeroed private structure over hardware in the
        given state, for a device whose device-tree "config" resource is
        `cfgStart` and `cfgSize`. */
    constructor (busSeq: int, ltssmSta: Word, cfgStart: Dword, cfgSize: Dword, regs: RegFile, page: int)
      ensures !enabled && this.busSeq == busSeq && this.ltssmSta == ltssmSta
      ensures this.cfgStart == cfgStart && this.cfgSize == cfgSize
      ensures this.regs == regs && this.page == page && log == []
      ensures streamIdCur == 0
    {
      enabled := false;
      this.busSeq := busSeq;
      this.ltssmSta := ltssmSta;
      this.regs := regs;
      this.page := page;
      log := [];
      streamIdCur := 0;
      this.cfgStart := cfgStart;
      this.cfgSize := cfgSize;
    }

    /** One bus access (ccsr_writel, lut_writel, ccsr_set_page, or a data
        load or store): `e` happens, and `evs` so far becomes `evs + [e]`. */
    method Emit(ghost r0: RegFile, ghost p0: int, ghost l0: seq<Event>, ghost evs: seq<Event>,
                e: Event) returns (ghost evs': seq<Event>)
      requires After(r0, p0, l0, evs, regs, page, log)
      modifies this`regs, this`page, this`log
      ensures evs' == evs + [e]
      ensures After(r0, p0, l0, evs', regs, page, log)
      ensures regs == (if e.RegWrite? then old(regs)[e.reg := e.val] else old(regs))
      ensures page == (if e.PageSelect? then e.page else old(page))
      ensures log == old(log) + [e]
    {
      AfterSnoc(r0, p0, l0, evs, regs, page, log, e);
      regs := ApplyEvent(regs, e);
      if e.PageSelect? {
        page := e.page;
      }
      log := log + [e];
      evs' := evs + [e];
    }

    /** lx_pcie_cfg_set_target. */
    method CfgSetTarget(target: Word)
      modifies this`regs, this`page, this`log
      ensures After(old(regs), old(page), old(log), SetTargetEvents(target), regs, page, log)
    {
      ghost var r0, p0, l0 := regs, page, log;
      ghost var evs: seq<Event> := [];
      evs := Emit(r0, p0, l0, evs, RegWrite(AxiAmapPexWinL(0), target));
      evs := Emit(r0, p0, l0, evs, RegWrite(AxiAmapPexWinH(0), 0));
    }

    /** lx_pcie_conf_address: the address an access to `offset` of `bdf`
        goes to, after steering the page or the config window there. */
    method ConfAddress(bdf: Bdf, offset: int) returns (addr: Addr)
      modifies this`regs, this`page, this`log
      ensures addr == Config.ConfAddress(busSeq, bdf, offset).addr
      ensures After(old(regs), old(page), old(log), Config.ConfAddress(busSeq, bdf, offset).evs,
                    regs, page, log)
    {
      ghost var r0, p0, l0 := regs, page, log;
      ghost var evs: seq<Event> := [];
      if bdf.bus == busSeq {
        if offset < IndirectAddrBoundary {
          evs := Emit(r0, p0, l0, evs, PageSelect(0));
          return Ccsr(offset);
        }
        evs := Emit(r0, p0, l0, evs, PageSelect(PageIdx(offset)));
        return Ccsr(PageAddr(offset));
      }
      CfgSetTarget(Target(bdf));
      return Cfg(offset);
    }

    /** The write of `PCIE_LUT_GCR` with which lx_pcie_read_config
        brackets a read of the Vendor ID or the Header Type: retries off
        before the read (`on` false), on after it. */
    method LutToggle(ghost r0: RegFile, ghost p0: int, ghost l0: seq<Event>, ghost evs: seq<Event>,
                     offset: U32, on: bool) returns (ghost evs': seq<Event>)
      requires After(r0, p0, l0, evs, regs, page, log)
      modifies this`regs, this`page, this`log
      ensures evs' == evs + LutEvents(offset, on)
      ensures After(r0, p0, l0, evs', regs, page, log)
    {
      evs' := evs;
      if (offset == HeaderTypeOffset) || (offset == VendorIdOffset) {
        evs' := Emit(r0, p0, l0, evs, RegWrite(LutGcr, if on then Shl(1, LutGcrRre) else 0));
      }
    }

    /** The sized load of lx_pcie_read_config from `address`, where `data`
        is what the hardware answers: -EINVAL and no load for an
        unsupported width. */
    method Load(ghost r0: RegFile, ghost p0: int, ghost l0: seq<Event>, ghost evs: seq<Event>,
                address: Addr, w: Width, data: Word)
      returns (ghost evs': seq<Event>, ret: int, value: Option<Word>)
      requires After(r0, p0, l0, evs, regs, page, log)
      modifies this`regs, this`page, this`log
      ensures evs' == evs + (if Supported(w) then [CfgRead(address, w)] else [])
      ensures After(r0, p0, l0, evs', regs, page, log)
      ensures ret == (if Supported(w) then 0 else -EINVAL)
      ensures value == (if Supported(w) then Some(Truncate(data, w)) else None)
    {
      evs', ret := evs, 0;
      match w {
        case Size8 =>
          evs' := Emit(r0, p0, l0, evs, CfgRead(address, w));
          value := Some(data & 0xFF);
        case Size16 =>
          evs' := Emit(r0, p0, l0, evs, CfgRead(address, w));
          value := Some(data & 0xFFFF);
        case Size32 =>
          evs' := Emit(r0, p0, l0, evs, CfgRead(address, w));
          value := Some(data);
        case Unsupported(_) =>
          value := None;
          ret := -EINVAL;
      }
    }

    /** lx_pcie_read_config; `data` is what the hardware answers at the
        resolved address, and `value` is what is stored through `valuep`
        (None when nothing is). */
    method ReadConfig(bdf: Bdf, offset: U32, w: Width, data: Word) returns (ret: int, value: Option<Word>)
      modifies this`regs, this`page, this`log
      ensures var a := Config.ReadConfig(old(enabled), busSeq, LinkUp(ltssmSta), bdf, offset, w, data);
              ret == a.ret && value == a.value
              && After(old(regs), old(page), old(log), a.evs, regs, page, log)
    {
      ghost var r0, p0, l0 := regs, page, log;
      if AddrValid(enabled, busSeq, LinkUp(ltssmSta), bdf) != 0 {
        return 0, Some(AllOnes(w));
      }
      ghost var res := Config.ConfAddress(busSeq, bdf, UintToInt(offset));
      var address := ConfAddress(bdf, UintToInt(offset));
      ghost var evs := res.evs;
      evs := LutToggle(r0, p0, l0, evs, offset, false);
      evs, ret, value := Load(r0, p0, l0, evs, address, w, data);
      evs := LutToggle(r0, p0, l0, evs, offset, true);
    }

    /** lx_pcie_write_config; the `ulong` value is cut to its low 32 bits. */
    method WriteConfig(bdf: Bdf, offset: U32, w: Width, value: Dword) returns (ret: int)
      modifies this`regs, this`page, this`log
      ensures var a := Config.WriteConfig(old(enabled), busSeq, LinkUp(ltssmSta), bdf, offset, w, value);
              ret == a.ret && After(old(regs), old(page), old(log), a.evs, regs, page, log)
    {
      ghost var r0, p0, l0 := regs, page, log;
      ghost var evs: seq<Event> := [];
      if AddrValid(enabled, busSeq, LinkUp(ltssmSta), bdf) != 0 {
        return 0;
      }
      var address := ConfAddress(bdf, UintToInt(offset));
      evs := Config.ConfAddress(busSeq, bdf, UintToInt(offset)).evs;
      match w {
        case Size8 =>
          evs := Emit(r0, p0, l0, evs, CfgWrite(address, w, Lower32(value) & 0xFF));
          return 0;
        case Size16 =>
          evs := Emit(r0, p0, l0, evs, CfgWrite(address, w, Lower32(value) & 0xFFFF));
          return 0;
        case Size32 =>
          evs := Emit(r0, p0, l0, evs, CfgWrite(address, w, Lower32(value)));
          return 0;
        case Unsupported(_) =>
          return -EINVAL;
      }
    }

    /** A `ccsr_writel` of entry `k` of `plan`, the writes an operation
        makes in order, with entries 0 to k - 1 already written. */
    method Write(ghost r0: RegFile, ghost p0: int, ghost l0: seq<Event>, ghost plan: seq<Event>,
                 ghost k: nat, r: Reg, v: Word)
      requires k < |plan| && plan[k] == RegWrite(r, v)
      requires After(r0, p0, l0, plan[..k], regs, page, log)
      modifies this`regs, this`log
      ensures After(r0, p0, l0, plan[..k + 1], regs, page, log)
      ensures regs == old(regs)[r := v]
    {
      AfterSnoc(r0, p0, l0, plan[..k], regs, page, log, RegWrite(r, v));
      assert plan[..k] + [RegWrite(r, v)] == plan[..k + 1];
      regs := regs[r := v];
      log := log + [RegWrite(r, v)];
    }

    /** lx_pcie_outbound_win_set: -EINVAL, with nothing written, for an
        index above `PAB_WINS_NUM`; otherwise the window's six registers
        written and 0. */
    method OutboundWinSet(idx: int, ty: Word, phys: Dword, busAddr: Dword, size: Dword)
      returns (ret: int)
      modifies this`regs, this`log
      ensures ret == (if idx > WinsNum then -EINVAL else 0)
      ensures Ran(old(regs), old(page), old(log), [Outbound(idx, ty, phys, busAddr, size)],
                  regs, page, log)
    {
      ghost var r0, p0, l0 := regs, page, log;
      if idx > WinsNum {
        RanSingle(r0, p0, l0, Outbound(idx, ty, phys, busAddr, size), regs, page, log);
        return -EINVAL;
      }
      ghost var plan := OutboundWrites(r0, idx, ty, phys, busAddr, size);
      OutboundWritesAt(r0, idx, ty, phys, busAddr, size);
      var sizeH := Upper32(SizeMask(size));
      var sizeL := Lower32(SizeMask(size));
      Write(r0, p0, l0, plan, 0, AxiAmapAxiWin(idx), Lower32(phys));
      Write(r0, p0, l0, plan, 1, ExtAxiAmapAxiWin(idx), Upper32(phys));
      Write(r0, p0, l0, plan, 2, AxiAmapPexWinL(idx), Lower32(busAddr));
      Write(r0, p0, l0, plan, 3, AxiAmapPexWinH(idx), Upper32(busAddr));
      Write(r0, p0, l0, plan, 4, ExtAxiAmapSize(idx), sizeH);
      OutboundKeepsCtrl(r0, idx, ty, phys, busAddr, size);
      var val := regs[AxiAmapCtrl(idx)];
      val := OutboundCtrl(val, ty, sizeL);
      Write(r0, p0, l0, plan, 5, AxiAmapCtrl(idx), val);
      RanOne(r0, p0, l0, Outbound(idx, ty, phys, busAddr, size), plan, regs, page, log);
      return 0;
    }

    /** lx_pcie_inbound_win_set_rc: the window's six registers written, for
        any index, and 0. */
    method InboundWinSetRc(idx: int, ty: Word, phys: Dword, busAddr: Dword, size: Dword)
      returns (ret: int)
      modifies this`regs, this`log
      ensures ret == 0
      ensures Ran(old(regs), old(page), old(log), [InboundRc(idx, ty, phys, busAddr, size)],
                  regs, page, log)
    {
      ghost var r0, p0, l0 := regs, page, log;
      ghost var plan := InboundWrites(r0, idx, ty, phys, busAddr, size);
      InboundWritesAt(r0, idx, ty, phys, busAddr, size);
      var winSize := SizeMask(size);
      var val := regs[PexAmapCtrl(idx)];
      val := InboundCtrl(val, ty, Lower32(winSize));
      Write(r0, p0, l0, plan, 0, PexAmapCtrl(idx), val);
      Write(r0, p0, l0, plan, 1, ExtPexAmapSize(idx), Upper32(winSize));
      Write(r0, p0, l0, plan, 2, PexAmapAxiWin(idx), Lower32(phys));
      Write(r0, p0, l0, plan, 3, ExtPexAmapAxiWin(idx), Upper32(phys));
      Write(r0, p0, l0, plan, 4, PexAmapPexWinL(idx), Lower32(busAddr));
      Write(r0, p0, l0, plan, 5, PexAmapPexWinH(idx), Upper32(busAddr));
      RanOne(r0, p0, l0, InboundRc(idx, ty, phys, busAddr, size), plan, regs, page, log);
      return 0;
    }

    /** lx_pcie_dump_wins, without the printing: what it reads back of
        outbound windows 0 to n - 1. */
    method DumpWins(n: int) returns (dump: seq<WinDump>)
      ensures |dump| == (if n < 0 then 0 else n)
      ensures forall i :: 0 <= i < |dump| ==> dump[i] == ReadBack(regs, i)
    {
      dump := [];
      var m := if n < 0 then 0 else n;
      var i := 0;
      while i < m
        invariant 0 <= i <= m
        invariant |dump| == i
        invariant forall k :: 0 <= k < i ==> dump[k] == ReadBack(regs, k)
      {
        dump := dump + [WinDump(regs[AxiAmapAxiWin(i)], regs[ExtAxiAmapAxiWin(i)],
                                regs[AxiAmapPexWinL(i)], regs[AxiAmapPexWinH(i)],
                                regs[ExtAxiAmapSize(i)], regs[AxiAmapCtrl(i)])];
        i := i + 1;
      }
    }

    /** One `if (region) lx_pcie_outbound_win_set(pcie, idx++, ...)` of
        lx_pcie_setup_wins: a present region gets the next outbound window,
        an absent one nothing. */
    method RegionWin(ghost r0: RegFile, ghost p0: int, ghost l0: seq<Event>, ghost wins: seq<Win>,
                     idx: int, ty: Word, region: Option<Region>)
      returns (idx': int, ghost wins': seq<Win>)
      requires idx == 1 + |wins|
      requires Ran(r0, p0, l0, WinsPlan(cfgStart, cfgSize, wins), regs, page, log)
      modifies this`regs, this`page, this`log
      ensures wins' == wins + WinIf(ty, region)
      ensures idx' == 1 + |wins'|
      ensures Ran(r0, p0, l0, WinsPlan(cfgStart, cfgSize, wins'), regs, page, log)
    {
      idx', wins' := idx, wins;
      if region.Some? {
        var w := Win(ty, region.value);
        ghost var r1, p1, l1 := regs, page, log;
        var ret := OutboundWinSet(idx, ty, region.value.physStart, region.value.busStart,
                                  region.value.size);
        RanChain(r0, p0, l0, WinsPlan(cfgStart, cfgSize, wins), r1, p1, l1,
                 [Outbound(idx, ty, region.value.physStart, region.value.busStart,
                           region.value.size)], regs, page, log);
        WinsPlanSnoc(cfgStart, cfgSize, wins, w);
        idx', wins' := idx + 1, wins + [w];
      }
    }

    /** lx_pcie_setup_wins: the plan SetupWinsPlan gives, over the config
        resource; then the dump of one window per region present plus the
        config window. */
    method SetupWins(io: Option<Region>, mem: Option<Region>, pref: Option<Region>)
      returns (dump: seq<WinDump>)
      modifies this`regs, this`page, this`log
      ensures Ran(old(regs), old(page), old(log),
                  SetupWinsPlan(cfgStart, cfgSize, io, mem, pref), regs, page, log)
      ensures |dump| == 1 + CountPresent(io, mem, pref)
      ensures forall i :: 0 <= i < |dump| ==> dump[i] == ReadBack(regs, i)
    {
      ghost var r0, p0, l0 := regs, page, log;
      var idx := 1;
      var ret := InboundWinSetRc(0, IbTypeMemNf, 0, 0, Size1T);
      ghost var r1, p1, l1 := regs, page, log;
      ret := OutboundWinSet(0, TypeCfg, cfgStart, 0, cfgSize);
      RanChain(r0, p0, l0, [InboundRc(0, IbTypeMemNf, 0, 0, Size1T)], r1, p1, l1,
               [Outbound(0, TypeCfg, cfgStart, 0, cfgSize)], regs, page, log);
      ghost var wins: seq<Win> := [];
      assert WinsPlan(cfgStart, cfgSize, wins)
             == [InboundRc(0, IbTypeMemNf, 0, 0, Size1T)] + [Outbound(0, TypeCfg, cfgStart, 0, cfgSize)];
      idx, wins := RegionWin(r0, p0, l0, wins, idx, TypeIo, io);
      idx, wins := RegionWin(r0, p0, l0, wins, idx, TypeMem, mem);
      idx, wins := RegionWin(r0, p0, l0, wins, idx, TypeMem, pref);
      assert [] + WinIf(TypeIo, io) == WinIf(TypeIo, io);
      PresentWinsCount(io, mem, pref);
      dump := DumpWins(idx);
    }

    /** The read-modify-write `val = ccsr_readl(r); val |= bits;
        ccsr_writel(r, val)` of lx_pcie_setup_ctrl, lx_pcie_setup_ep and
        lx_pcie_probe. */
    method SetRegBits(r: Reg, bits: Word)
      modifies this`regs, this`log
      ensures Ran(old(regs), old(page), old(log), [SetBits(r, bits)], regs, page, log)
    {
      ghost var r0, p0, l0 := regs, page, log;
      ghost var plan := Step(r0, SetBits(r, bits));
      var val := regs[r];
      val := val | bits;
      TakeNone(plan);
      TakeAll(plan, 1);
      Write(r0, p0, l0, plan, 0, r, val);
      RanOne(r0, p0, l0, SetBits(r, bits), plan, regs, page, log);
    }

    /** The class-code fix of lx_pcie_setup_ctrl: `GPEX_CLASSCODE` read, its
        class-code field replaced by PCI_CLASS_BRIDGE_PCI, written back. */
    method FixClassCode()
      modifies this`regs, this`log
      ensures Ran(old(regs), old(page), old(log), [PatchClassCode], regs, page, log)
    {
      ghost var r0, p0, l0 := regs, page, log;
      ghost var plan := Step(r0, PatchClassCode);
      var val := regs[GpexClassCode];
      val := PatchedClassCode(val);
      TakeNone(plan);
      TakeAll(plan, 1);
      Write(r0, p0, l0, plan, 0, GpexClassCode, val);
      RanOne(r0, p0, l0, PatchClassCode, plan, regs, page, log);
    }

    /** lx_pcie_setup_ctrl: the class code patched to a PCI-to-PCI bridge,
        the APIO and the memory, I/O and config windows enabled, the windows
        set up, and the stream ID counter reset. */
    method SetupCtrl(io: Option<Region>, mem: Option<Region>, pref: Option<Region>)
      returns (dump: seq<WinDump>)
      modifies this`regs, this`page, this`log, this`streamIdCur
      ensures Ran(old(regs), old(page), old(log),
                  SetupCtrlPlan(cfgStart, cfgSize, PresentWins(io, mem, pref)),
                  regs, page, log)
      ensures streamIdCur == 0
      ensures |dump| == 1 + CountPresent(io, mem, pref)
      ensures forall i :: 0 <= i < |dump| ==> dump[i] == ReadBack(regs, i)
    {
      dump := SetupCtrlRegs(io, mem, pref);
      streamIdCur := 0;
    }

    /** The register work of lx_pcie_setup_ctrl, before the stream ID
        counter is reset. */
    method SetupCtrlRegs(io: Option<Region>, mem: Option<Region>, pref: Option<Region>)
      returns (dump: seq<WinDump>)
      modifies this`regs, this`page, this`log
      ensures Ran(old(regs), old(page), old(log),
                  SetupCtrlPlan(cfgStart, cfgSize, PresentWins(io, mem, pref)),
                  regs, page, log)
      ensures |dump| == 1 + CountPresent(io, mem, pref)
      ensures forall i :: 0 <= i < |dump| ==> dump[i] == ReadBack(regs, i)
    {
      ghost var r0, p0, l0 := regs, page, log;
      CtrlPrologue();
      ghost var r1, p1, l1 := regs, page, log;
      dump := SetupWins(io, mem, pref);
      SetupCtrlRan(cfgStart, cfgSize, PresentWins(io, mem, pref), r0, p0, l0, r1, p1, l1, regs, page, log);
    }

    /** The start of lx_pcie_setup_ctrl: the class code fix, then the APIO
        and the memory, I/O and config windows enabled. */
    method CtrlPrologue()
      modifies this`regs, this`log
      ensures Ran(old(regs), old(page), old(log),
                  [PatchClassCode, SetBits(AxiPioCtrl(0), RcPioEnables())], regs, page, log)
    {
      ghost var r0, p0, l0 := regs, page, log;
      FixClassCode();
      ghost var r1, p1, l1 := regs, page, log;
      SetRegBits(AxiPioCtrl(0), RcPioEnables());
      RanPair(r0, p0, l0, PatchClassCode, r1, p1, l1, SetBits(AxiPioCtrl(0), RcPioEnables()),
              regs, page, log);
    }

    /** lx_pcie_ep_inbound_win_set: BAR `bar` of function `func` mapped to
        `phys`, the high word first, the low word with its enable bit. */
    method EpInboundWinSet(func: int, bar: int, phys: Dword)
      modifies this`regs, this`log
      ensures Ran(old(regs), old(page), old(log), [EpInbound(func, bar, phys)], regs, page, log)
    {
      ghost var r0, p0, l0 := regs, page, log;
      ghost var plan := Step(r0, EpInbound(func, bar, phys));
      TakeNone(plan);
      TakeAll(plan, 2);
      Write(r0, p0, l0, plan, 0, ExtPexBarAmap(func, bar), Upper32(phys));
      Write(r0, p0, l0, plan, 1, PexBarAmap(func, bar), Lower32(phys) | 1);
      RanOne(r0, p0, l0, EpInbound(func, bar, phys), plan, regs, page, log);
    }

    /** lx_pcie_ep_setup_wins: the four inbound BAR windows of function 1 at
        the addresses EpBarTarget gives, then outbound window 0 over the PCI
        memory. */
    method EpSetupWins()
      modifies this`regs, this`log
      ensures Ran(old(regs), old(page), old(log), EpSetupWinsPlan(cfgStart), regs, page, log)
    {
      ghost var r0, p0, l0 := regs, page, log;
      var phys := EpMemoryBase;
      EpInboundWinSet(1, 0, phys);
      ghost var r1, p1, l1 := regs, page, log;
      phys := Add64(phys, Bar1Size);
      EpInboundWinSet(1, 1, phys);
      ghost var r2, p2, l2 := regs, page, log;
      phys := Add64(phys, Bar2Size);
      EpInboundWinSet(1, 2, phys);
      ghost var r3, p3, l3 := regs, page, log;
      phys := Add64(EpMemoryBase, Bar4Size);
      EpInboundWinSet(1, 3, phys);
      ghost var r4, p4, l4 := regs, page, log;
      var ret := OutboundWinSet(0, TypeMem, cfgStart, 0, PciMemorySize);
      assert Ran(r0, p0, l0, [EpInbound(1, 0, EpMemoryBase)], r1, p1, l1);
      assert Ran(r1, p1, l1, [EpInbound(1, 1, Add64(EpMemoryBase, Bar1Size))], r2, p2, l2);
      assert Ran(r2, p2, l2, [EpInbound(1, 2, Add64(Add64(EpMemoryBase, Bar1Size), Bar2Size))],
                 r3, p3, l3);
      assert Ran(r3, p3, l3, [EpInbound(1, 3, Add64(EpMemoryBase, Bar4Size))], r4, p4, l4);
      EpSetupWinsRan(cfgStart, r0, p0, l0, r1, p1, l1, r2, p2, l2, r3, p3, l3,
                     r4, p4, l4, regs, page, log);
    }

    /** lx_pcie_ep_setup_bar: nothing for a size below 4 KiB; otherwise the
        four BAR enables set unless `PCI_BAR_ENABLE` already has them, then
        the BAR selected and its size mask written, the high word only for
        the 64-bit BARs 2 and 3, nothing for any other BAR number. */
    method EpSetupBar(bar: int, size: Dword)
      modifies this`regs, this`log
      ensures Ran(old(regs), old(page), old(log), [EpBar(bar, size)], regs, page, log)
    {
      ghost var r0, p0, l0 := regs, page, log;
      EpBarWritesAt(r0, bar, size);
      if size < 4 * 1024 {
        RanOne(r0, p0, l0, EpBar(bar, size), [], regs, page, log);
        return;
      }
      EnableBars();
      ghost var r1, p1, l1 := regs, page, log;
      WriteBarSize(bar, size);
      AfterChain(r0, p0, l0, EnableWrites(r0[BarEnable]), r1, p1, l1,
                 BarSizeWrites(bar, SizeMask(size)), regs, page, log);
      RanOne(r0, p0, l0, EpBar(bar, size),
             EnableWrites(r0[BarEnable]) + BarSizeWrites(bar, SizeMask(size)), regs, page, log);
    }

    /** The `PCI_BAR_ENABLE` step of lx_pcie_ep_setup_bar: all four BAR
        enables written unless the low four bits are already set. */
    method EnableBars()
      modifies this`regs, this`log
      ensures After(old(regs), old(page), old(log), EnableWrites(old(regs)[BarEnable]),
                    regs, page, log)
    {
      ghost var r0, p0, l0 := regs, page, log;
      ghost var en := EnableWrites(r0[BarEnable]);
      EpBarWritesAt(r0, 0, 0);
      var val := regs[BarEnable];
      if val & 0x0f != 0x0f {
        Write(r0, p0, l0, en, 0, BarEnable, 0x0f);
      }
    }

    /** The `switch (bar)` of lx_pcie_ep_setup_bar: the BAR selected and the
        low word of its size mask written for BARs 0 and 1, the high word as
        well for BARs 2 and 3, nothing for any other number. */
    method WriteBarSize(bar: int, size: Dword)
      modifies this`regs, this`log
      ensures After(old(regs), old(page), old(log), BarSizeWrites(bar, SizeMask(size)),
                    regs, page, log)
    {
      ghost var r0, p0, l0 := regs, page, log;
      ghost var sz := BarSizeWrites(bar, SizeMask(size));
      EpBarWritesAt(r0, bar, size);
      var sizeL := Lower32(SizeMask(size));
      var sizeH := Upper32(SizeMask(size));
      if bar == 0 || bar == 1 {
        Write(r0, p0, l0, sz, 0, BarSelect, bar as Word);
        Write(r0, p0, l0, sz, 1, BarSizeLdw, sizeL);
      } else if bar == 2 || bar == 3 {
        Write(r0, p0, l0, sz, 0, BarSelect, bar as Word);
        Write(r0, p0, l0, sz, 1, BarSizeLdw, sizeL);
        Write(r0, p0, l0, sz, 2, BarSizeUdw, sizeH);
      }
    }

    /** lx_pcie_ep_setup_bars: BAR0, BAR1 and BAR2 with their sizes, and
        BAR4's size through BAR number 3. */
    method EpSetupBars()
      modifies this`regs, this`log
      ensures Ran(old(regs), old(page), old(log), EpSetupBarsPlan(), regs, page, log)
    {
      ghost var r0, p0, l0 := regs, page, log;
      ghost var plan := EpSetupBarsPlan();
      EpSetupBarsPlanAt();
      RanNil(r0, p0, l0);
      ghost var r1, p1, l1 := regs, page, log;
      EpSetupBar(0, Bar0Size);
      RanStep(r0, p0, l0, plan, 0, r1, p1, l1, regs, page, log);
      r1, p1, l1 := regs, page, log;
      EpSetupBar(1, Bar1Size);
      RanStep(r0, p0, l0, plan, 1, r1, p1, l1, regs, page, log);
      r1, p1, l1 := regs, page, log;
      EpSetupBar(2, Bar2Size);
      RanStep(r0, p0, l0, plan, 2, r1, p1, l1, regs, page, log);
      r1, p1, l1 := regs, page, log;
      EpSetupBar(3, Bar4Size);
      RanStep(r0, p0, l0, plan, 3, r1, p1, l1, regs, page, log);
    }

    /** lx_pcie_setup_ep: the BARs, the windows, then the APIO and memory
        window enables. */
    method SetupEp()
      modifies this`regs, this`log
      ensures Ran(old(regs), old(page), old(log), SetupEpPlan(cfgStart), regs, page, log)
    {
      ghost var r0, p0, l0 := regs, page, log;
      EpSetupBars();
      ghost var r1, p1, l1 := regs, page, log;
      EpSetupWins();
      ghost var r2, p2, l2 := regs, page, log;
      SetRegBits(AxiPioCtrl(0), EpPioEnables());
      SetupEpRan(cfgStart, r0, p0, l0, r1, p1, l1, r2, p2, l2, regs, page, log);
    }

    /** lx_pcie_probe. The outcomes of the `ccsr`, `config`, `lut` and
        `pf_ctrl` resource lookups (0 or an error number), what
        is_serdes_configured says of the controller's SerDes protocol, the
        header type the controller's own
        configuration header holds and the regions pci_get_regions reports
        are inputs. A failed lookup returns its error at once; a controller
        whose SerDes is not configured is left disabled and returns 0.
        Otherwise the header type is read, the controller set up as an
        endpoint or a root complex, the PEX and AMBA PIO enabled, and 0
        returned; `link` says whether the link was up at the end. */
    method Probe(ccsrRet: int, serdesOn: bool, cfgRet: int,
                 lutRet: int, pfCtrlRet: int, headerType: bv8,
                 io: Option<Region>, mem: Option<Region>, pref: Option<Region>)
      returns (ret: int, link: bool)
      modifies this`enabled, this`regs, this`page, this`log, this`streamIdCur
      ensures ccsrRet != 0 ==> ret == ccsrRet && enabled == old(enabled)
      ensures ccsrRet == 0 ==> enabled == serdesOn
      ensures ccsrRet == 0 && !serdesOn ==> ret == 0
      ensures ccsrRet == 0 && serdesOn && cfgRet != 0 ==> ret == cfgRet
      ensures ccsrRet == 0 && serdesOn && cfgRet == 0 && lutRet != 0 ==> ret == lutRet
      ensures ccsrRet == 0 && serdesOn && cfgRet == 0 && lutRet == 0 && pfCtrlRet != 0 ==> ret == pfCtrlRet
      ensures ccsrRet != 0 || !serdesOn || cfgRet != 0 || lutRet != 0 || pfCtrlRet != 0 ==>
                !link && regs == old(regs) && page == old(page) && log == old(log)
                && streamIdCur == old(streamIdCur)
      ensures ccsrRet == 0 && serdesOn && cfgRet == 0 && lutRet == 0 && pfCtrlRet == 0 ==>
                && ret == 0 && link == LinkUp(ltssmSta)
                && streamIdCur == (if IsEndpoint(headerType) then old(streamIdCur) else 0)
                && (IsEndpoint(headerType) ==>
                      After(old(regs), old(page), old(log),
                            [CfgRead(Ccsr(HeaderTypeOffset), Size8)]
                            + Run(old(regs), ProbePlan(true, cfgStart, cfgSize, PresentWins(io, mem, pref))),
                            regs, page, log))
                && (!IsEndpoint(headerType) ==>
                      After(old(regs), old(page), old(log),
                            [CfgRead(Ccsr(HeaderTypeOffset), Size8)]
                            + Run(old(regs), ProbePlan(false, cfgStart, cfgSize, PresentWins(io, mem, pref))),
                            regs, page, log))
    {
      link := false;
      if ccsrRet != 0 {
        return ccsrRet, link;
      }
      enabled := serdesOn;
      if !enabled {
        return 0, link;
      }
      if cfgRet != 0 {
        return cfgRet, link;
      }
      if lutRet != 0 {
        return lutRet, link;
      }
      if pfCtrlRet != 0 {
        return pfCtrlRet, link;
      }
      link := ProbeSetup(headerType, io, mem, pref);
      return 0, link;
    }

    /** lx_pcie_probe once its resources are found: the header type read
        from the controller's own configuration header decides between
        endpoint and root-complex setup, then the PEX and AMBA PIO are
        enabled; `link` is lx_pcie_link_up at the end. */
    method ProbeSetup(headerType: bv8, io: Option<Region>, mem: Option<Region>, pref: Option<Region>)
      returns (link: bool)
      modifies this`regs, this`page, this`log, this`streamIdCur
      ensures link == LinkUp(ltssmSta)
      ensures streamIdCur == (if IsEndpoint(headerType) then old(streamIdCur) else 0)
      ensures IsEndpoint(headerType) ==>
                After(old(regs), old(page), old(log),
                      [CfgRead(Ccsr(HeaderTypeOffset), Size8)]
                      + Run(old(regs), ProbePlan(true, cfgStart, cfgSize, PresentWins(io, mem, pref))),
                      regs, page, log)
      ensures !IsEndpoint(headerType) ==>
                After(old(regs), old(page), old(log),
                      [CfgRead(Ccsr(HeaderTypeOffset), Size8)]
                      + Run(old(regs), ProbePlan(false, cfgStart, cfgSize, PresentWins(io, mem, pref))),
                      regs, page, log)
    {
      ghost var r0, p0, l0 := regs, page, log;
      ghost var evs := Emit(r0, p0, l0, [], CfgRead(Ccsr(HeaderTypeOffset), Size8));
      assert evs == [CfgRead(Ccsr(HeaderTypeOffset), Size8)];
      ghost var r1, p1, l1 := regs, page, log;
      if IsEndpoint(headerType) {
        ProbeEpRegs();
        ProbeRan(true, cfgStart, cfgSize, PresentWins(io, mem, pref),
                 CfgRead(Ccsr(HeaderTypeOffset), Size8), r0, p0, l0, r1, p1, l1, regs, page, log);
      } else {
        ProbeRcRegs(io, mem, pref);
        ProbeRan(false, cfgStart, cfgSize, PresentWins(io, mem, pref),
                 CfgRead(Ccsr(HeaderTypeOffset), Size8), r0, p0, l0, r1, p1, l1, regs, page, log);
      }
      link := LinkUp(ltssmSta);
    }

    /** The register work of lx_pcie_probe for an endpoint: its setup,
        then the PIO enables. */
    method ProbeEpRegs()
      modifies this`regs, this`page, this`log
      ensures Ran(old(regs), old(page), old(log), SetupEpPlan(cfgStart) + EnablePlan(), regs, page, log)
    {
      ghost var r0, p0, l0 := regs, page, log;
      SetupEp();
      ghost var r1, p1, l1 := regs, page, log;
      EnablePio();
      RanChain(r0, p0, l0, SetupEpPlan(cfgStart), r1, p1, l1, EnablePlan(), regs, page, log);
    }

    /** The register work of lx_pcie_probe for a root complex: its setup,
        which also resets the stream ID counter, then the PIO enables. */
    method ProbeRcRegs(io: Option<Region>, mem: Option<Region>, pref: Option<Region>)
      modifies this`regs, this`page, this`log, this`streamIdCur
      ensures Ran(old(regs), old(page), old(log),
                  SetupCtrlPlan(cfgStart, cfgSize, PresentWins(io, mem, pref)) + EnablePlan(),
                  regs, page, log)
      ensures streamIdCur == 0
    {
      ghost var r0, p0, l0 := regs, page, log;
      var dump := SetupCtrl(io, mem, pref);
      ghost var r1, p1, l1 := regs, page, log;
      EnablePio();
      RanChain(r0, p0, l0, SetupCtrlPlan(cfgStart, cfgSize, PresentWins(io, mem, pref)), r1, p1, l1,
               EnablePlan(), regs, page, log);
    }

    /** The PIO enables at the end of lx_pcie_probe: PEX PIO of function
        0, then the AMBA APIO and PPIO. */
    method EnablePio()
      modifies this`regs, this`page, this`log
      ensures Ran(old(regs), old(page), old(log), EnablePlan(), regs, page, log)
    {
      ghost var r0, p0, l0 := regs, page, log;
      SetRegBits(PexPioCtrl(0), PpioEn);
      ghost var r1, p1, l1 := regs, page, log;
      SetRegBits(PabCtrl, PabCtrlApioEn | PabCtrlPpioEn);
      RanPair(r0, p0, l0, SetBits(PexPioCtrl(0), PpioEn), r1, p1, l1,
              SetBits(PabCtrl, PabCtrlApioEn | PabCtrlPpioEn), regs, page, log);
    }
  }
}
