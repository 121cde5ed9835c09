/** The one-shot controller setup of drivers/pci/pcie_lx.c as plans of
    register operations: lx_pcie_setup_wins, lx_pcie_setup_ctrl (Root
    Complex), lx_pcie_ep_setup_bar(s), lx_pcie_ep_inbound_win_set,
    lx_pcie_ep_setup_wins, lx_pcie_setup_ep (Endpoint), and the mode choice
    and PIO enables of lx_pcie_probe. */
module Setup {
  import opened Bits
  import opened Header
  import opened Regs
  import opened Windows
  import opened Config

  /** A `struct pci_region` the bus reports: CPU base, bus base, size. */
  datatype Region = Region(physStart: Dword, busStart: Dword, size: Dword)

  /** An outbound window to open: its type and its region. */
  datatype Win = Win(ty: Word, region: Region)

  /** The windows lx_pcie_setup_wins opens for the regions present, in the
      order io, mem, pref; the prefetchable region gets a memory window. */
  function PresentWins(io: Option<Region>, mem: Option<Region>, pref: Option<Region>): seq<Win>
  {
    WinIf(TypeIo, io) + WinIf(TypeMem, mem) + WinIf(TypeMem, pref)
  }

  /** The window a region gets if it is present. */
  function WinIf(ty: Word, region: Option<Region>): seq<Win>
  {
    if region.Some? then [Win(ty, region.value)] else []
  }

  /** The number of regions present. */
  function CountPresent(io: Option<Region>, mem: Option<Region>, pref: Option<Region>): nat
  {
    (if io.Some? then 1 else 0) + (if mem.Some? then 1 else 0) + (if pref.Some? then 1 else 0)
  }

  /** Outbound windows for `wins` at consecutive indices from `idx`. */
  function RegionWins(idx: int, wins: seq<Win>): seq<Op>
    decreases |wins|
  {
    if wins == [] then []
    else
      [Outbound(idx, wins[0].ty, wins[0].region.physStart, wins[0].region.busStart,
                wins[0].region.size)]
      + RegionWins(idx + 1, wins[1..])
  }

  /** lx_pcie_setup_wins: inbound window 0 over the first 1 TiB of memory,
      outbound window 0 over the config space, then one outbound window per
      region present. */
  function SetupWinsPlan(cfgStart: Dword, cfgSize: Dword,
                         io: Option<Region>, mem: Option<Region>, pref: Option<Region>): (plan: seq<Op>)
    ensures |plan| == 2 + CountPresent(io, mem, pref)
    ensures plan[0] == InboundRc(0, IbTypeMemNf, 0, 0, Size1T)
    ensures plan[1] == Outbound(0, TypeCfg, cfgStart, 0, cfgSize)
    ensures forall k :: 2 <= k < |plan| ==> plan[k].Outbound? && plan[k].idx == k - 1
  {
    WinsPlanIndices(cfgStart, cfgSize, PresentWins(io, mem, pref));
    PresentWinsCount(io, mem, pref);
    WinsPlan(cfgStart, cfgSize, PresentWins(io, mem, pref))
  }

  /** The plan of lx_pcie_setup_wins for a given list of region windows. */
  function WinsPlan(cfgStart: Dword, cfgSize: Dword, wins: seq<Win>): seq<Op>
  {
    [InboundRc(0, IbTypeMemNf, 0, 0, Size1T), Outbound(0, TypeCfg, cfgStart, 0, cfgSize)]
    + RegionWins(1, wins)
  }

  /** After the inbound and config windows, the plan of lx_pcie_setup_wins
      numbers its outbound windows 1, 2, ... in plan order. */
  lemma WinsPlanIndices(cfgStart: Dword, cfgSize: Dword, wins: seq<Win>)
    ensures
      var plan := WinsPlan(cfgStart, cfgSize, wins);
      && |plan| == 2 + |wins|
      && plan[0] == InboundRc(0, IbTypeMemNf, 0, 0, Size1T)
      && plan[1] == Outbound(0, TypeCfg, cfgStart, 0, cfgSize)
      && (forall k :: 2 <= k < |plan| ==> plan[k].Outbound? && plan[k].idx == k - 1)
  {
    var plan := WinsPlan(cfgStart, cfgSize, wins);
    WinsPlanShape(cfgStart, cfgSize, wins);
    forall k | 2 <= k < |plan| ensures plan[k].Outbound? && plan[k].idx == k - 1 {
      var j := k - 2;
      assert plan[2 + j] == Outbound(1 + j, wins[j].ty, wins[j].region.physStart,
                                     wins[j].region.busStart, wins[j].region.size);
    }
  }

  /** The window enables lx_pcie_setup_ctrl sets in `PAB_AXI_PIO_CTRL(0)`. */
  function RcPioEnables(): Word
  {
    ApioEn | MemWinEn | IoWinEn | CfgWinEn
  }

  /** The window enables lx_pcie_setup_ep sets in `PAB_AXI_PIO_CTRL(0)`. */
  function EpPioEnables(): Word
  {
    ApioEn | MemWinEn
  }

  /** lx_pcie_setup_ctrl: patch the class code, enable the windows, set the
      windows up. */
  function SetupCtrlPlan(cfgStart: Dword, cfgSize: Dword, wins: seq<Win>): seq<Op>
  {
    [PatchClassCode, SetBits(AxiPioCtrl(0), RcPioEnables())] + WinsPlan(cfgStart, cfgSize, wins)
  }

  /** lx_pcie_ep_setup_bars: BAR0, BAR1, BAR2 and (as BAR number 3) BAR4. */
  function EpSetupBarsPlan(): (p: seq<Op>)
    ensures |p| == 4
    ensures forall i :: 0 <= i < |p| ==> p[i].EpBar? && p[i].bar == i
  {
    [EpBar(0, Bar0Size), EpBar(1, Bar1Size), EpBar(2, Bar2Size), EpBar(3, Bar4Size)]
  }

  /** The local address lx_pcie_ep_setup_wins maps inbound BAR window `bar`
      of function 1 to: BAR0 at the base, BAR1 at the base plus BAR1's size,
      BAR2 BAR2's size above that, BAR4 at the base plus BAR4's size; all
      sums wrap at 64 bits. */
  function EpBarTarget(bar: int): Dword
  {
    if bar == 0 then EpMemoryBase
    else if bar == 1 then Add64(EpMemoryBase, Bar1Size)
    else if bar == 2 then Add64(Add64(EpMemoryBase, Bar1Size), Bar2Size)
    else Add64(EpMemoryBase, Bar4Size)
  }

  /** The four inbound BAR windows of function 1 lx_pcie_ep_setup_wins
      opens. */
  function EpBarWindows(): seq<Op>
  {
    [EpInbound(1, 0, EpBarTarget(0)), EpInbound(1, 1, EpBarTarget(1)),
     EpInbound(1, 2, EpBarTarget(2)), EpInbound(1, 3, EpBarTarget(3))]
  }

  /** lx_pcie_ep_setup_wins: the BAR windows, then outbound window 0 over
      the PCI memory. */
  function EpSetupWinsPlan(cfgStart: Dword): seq<Op>
  {
    EpBarWindows() + [Outbound(0, TypeMem, cfgStart, 0, PciMemorySize)]
  }

  /** lx_pcie_setup_ep: BARs, windows, then the window enables. */
  function SetupEpPlan(cfgStart: Dword): seq<Op>
  {
    EpSetupBarsPlan() + EpSetupWinsPlan(cfgStart) + [SetBits(AxiPioCtrl(0), EpPioEnables())]
  }

  /** lx_pcie_probe's choice of mode: a type 0 header (the multi-function
      bit aside) means the controller is an endpoint. */
  predicate IsEndpoint(headerType: bv8)
  {
    headerType & 0x7f == HeaderTypeNormal
  }

  /** The PIO enables lx_pcie_probe sets after either setup. */
  function EnablePlan(): seq<Op>
  {
    [SetBits(PexPioCtrl(0), PpioEn), SetBits(PabCtrl, PabCtrlApioEn | PabCtrlPpioEn)]
  }

  /** The register operations of lx_pcie_probe from the mode choice on:
      `ep` is the mode IsEndpoint chose, `wins` the region windows
      PresentWins lists. */
  function ProbePlan(ep: bool, cfgStart: Dword, cfgSize: Dword, wins: seq<Win>): (p: seq<Op>)
    ensures |p| >= 2 && p[|p| - 2..] == EnablePlan()
    ensures p[0] == PatchClassCode <==> !ep
  {
    (if ep then SetupEpPlan(cfgStart) else SetupCtrlPlan(cfgStart, cfgSize, wins))
    + EnablePlan()
  }

  /** The operations of lx_pcie_ep_setup_bars, one by one. */
  lemma EpSetupBarsPlanAt()
    ensures
      var p := EpSetupBarsPlan();
      && |p| == 4 && p[..4] == p && p[..0] == []
      && p[0] == EpBar(0, Bar0Size) && p[1] == EpBar(1, Bar1Size)
      && p[2] == EpBar(2, Bar2Size) && p[3] == EpBar(3, Bar4Size)
  {
  }

  /** The operations of lx_pcie_ep_setup_wins, one by one. */
  lemma EpSetupWinsPlanAt(cfgStart: Dword)
    ensures
      var p := EpSetupWinsPlan(cfgStart);
      && |p| == 5 && p[..5] == p && p[..0] == []
      && p[0] == EpInbound(1, 0, EpMemoryBase)
      && p[1] == EpInbound(1, 1, Add64(EpMemoryBase, Bar1Size))
      && p[2] == EpInbound(1, 2, Add64(Add64(EpMemoryBase, Bar1Size), Bar2Size))
      && p[3] == EpInbound(1, 3, Add64(EpMemoryBase, Bar4Size))
      && p[4] == Outbound(0, TypeMem, cfgStart, 0, PciMemorySize)
  {
  }

  /** The five window operations of lx_pcie_ep_setup_wins, run one after
      the other, run its plan. */
  lemma EpSetupWinsRan(cfgStart: Dword,
                       r0: RegFile, p0: int, l0: seq<Event>, r1: RegFile, p1: int, l1: seq<Event>,
                       r2: RegFile, p2: int, l2: seq<Event>, r3: RegFile, p3: int, l3: seq<Event>,
                       r4: RegFile, p4: int, l4: seq<Event>, r5: RegFile, p5: int, l5: seq<Event>)
    requires Ran(r0, p0, l0, [EpInbound(1, 0, EpMemoryBase)], r1, p1, l1)
    requires Ran(r1, p1, l1, [EpInbound(1, 1, Add64(EpMemoryBase, Bar1Size))], r2, p2, l2)
    requires Ran(r2, p2, l2, [EpInbound(1, 2, Add64(Add64(EpMemoryBase, Bar1Size), Bar2Size))],
                 r3, p3, l3)
    requires Ran(r3, p3, l3, [EpInbound(1, 3, Add64(EpMemoryBase, Bar4Size))], r4, p4, l4)
    requires Ran(r4, p4, l4, [Outbound(0, TypeMem, cfgStart, 0, PciMemorySize)], r5, p5, l5)
    ensures Ran(r0, p0, l0, EpSetupWinsPlan(cfgStart), r5, p5, l5)
  {
    var p := EpSetupWinsPlan(cfgStart);
    EpSetupWinsPlanAt(cfgStart);
    RanNil(r0, p0, l0);
    RanStep(r0, p0, l0, p, 0, r0, p0, l0, r1, p1, l1);
    RanStep(r0, p0, l0, p, 1, r1, p1, l1, r2, p2, l2);
    RanStep(r0, p0, l0, p, 2, r2, p2, l2, r3, p3, l3);
    RanStep(r0, p0, l0, p, 3, r3, p3, l3, r4, p4, l4);
    RanStep(r0, p0, l0, p, 4, r4, p4, l4, r5, p5, l5);
  }

  /** The class-code patch, the window enables and the windows of
      lx_pcie_setup_ctrl, run one after the other, run its plan. */
  lemma SetupCtrlRan(cfgStart: Dword, cfgSize: Dword, wins: seq<Win>,
                     r0: RegFile, p0: int, l0: seq<Event>, r1: RegFile, p1: int, l1: seq<Event>,
                     r2: RegFile, p2: int, l2: seq<Event>)
    requires Ran(r0, p0, l0, [PatchClassCode, SetBits(AxiPioCtrl(0), RcPioEnables())], r1, p1, l1)
    requires Ran(r1, p1, l1, WinsPlan(cfgStart, cfgSize, wins), r2, p2, l2)
    ensures Ran(r0, p0, l0, SetupCtrlPlan(cfgStart, cfgSize, wins), r2, p2, l2)
  {
    RanChain(r0, p0, l0, [PatchClassCode, SetBits(AxiPioCtrl(0), RcPioEnables())], r1, p1, l1,
             WinsPlan(cfgStart, cfgSize, wins), r2, p2, l2);
  }

  /** The BARs, the windows and the window enables of lx_pcie_setup_ep, run
      one after the other, run its plan. */
  lemma SetupEpRan(cfgStart: Dword,
                   r0: RegFile, p0: int, l0: seq<Event>, r1: RegFile, p1: int, l1: seq<Event>,
                   r2: RegFile, p2: int, l2: seq<Event>, r3: RegFile, p3: int, l3: seq<Event>)
    requires Ran(r0, p0, l0, EpSetupBarsPlan(), r1, p1, l1)
    requires Ran(r1, p1, l1, EpSetupWinsPlan(cfgStart), r2, p2, l2)
    requires Ran(r2, p2, l2, [SetBits(AxiPioCtrl(0), EpPioEnables())], r3, p3, l3)
    ensures Ran(r0, p0, l0, SetupEpPlan(cfgStart), r3, p3, l3)
  {
    RanChain(r0, p0, l0, EpSetupBarsPlan(), r1, p1, l1, EpSetupWinsPlan(cfgStart), r2, p2, l2);
    RanChain(r0, p0, l0, EpSetupBarsPlan() + EpSetupWinsPlan(cfgStart), r2, p2, l2,
             [SetBits(AxiPioCtrl(0), EpPioEnables())], r3, p3, l3);
  }

  /** The header-type read, the setup of the chosen mode and the two PIO
      enables of lx_pcie_probe, one after the other, emit the read followed
      by the run of ProbePlan. */
  lemma ProbeRan(ep: bool, cfgStart: Dword, cfgSize: Dword, wins: seq<Win>, e: Event,
                 r0: RegFile, p0: int, l0: seq<Event>, r1: RegFile, p1: int, l1: seq<Event>,
                 r2: RegFile, p2: int, l2: seq<Event>)
    requires !e.RegWrite? && !e.PageSelect?
    requires After(r0, p0, l0, [e], r1, p1, l1)
    requires Ran(r1, p1, l1, (if ep then SetupEpPlan(cfgStart) else SetupCtrlPlan(cfgStart, cfgSize, wins))
                             + EnablePlan(), r2, p2, l2)
    ensures After(r0, p0, l0, [e] + Run(r0, ProbePlan(ep, cfgStart, cfgSize, wins)), r2, p2, l2)
  {
    assert Apply(r0, [e]) == ApplyEvent(Apply(r0, []), e);
    assert r1 == r0;
    AfterChain(r0, p0, l0, [e], r1, p1, l1, Run(r1, ProbePlan(ep, cfgStart, cfgSize, wins)), r2, p2, l2);
  }

  /** RegionWins opens one window per region, at consecutive indices. */
  lemma {:induction false} RegionWinsAt(idx: int, wins: seq<Win>)
    ensures |RegionWins(idx, wins)| == |wins|
    ensures forall k :: 0 <= k < |wins| ==>
              RegionWins(idx, wins)[k]
              == Outbound(idx + k, wins[k].ty, wins[k].region.physStart,
                          wins[k].region.busStart, wins[k].region.size)
    decreases |wins|
  {
    if wins != [] {
      var rest := RegionWins(idx + 1, wins[1..]);
      RegionWinsAt(idx + 1, wins[1..]);
      forall k | 0 <= k < |wins|
        ensures RegionWins(idx, wins)[k]
                == Outbound(idx + k, wins[k].ty, wins[k].region.physStart,
                            wins[k].region.busStart, wins[k].region.size)
      {
        if k > 0 {
          assert RegionWins(idx, wins)[k] == rest[k - 1];
          assert wins[1..][k - 1] == wins[k];
        }
      }
    }
  }

  /** Opening one more region window appends its outbound window at the
      next index. */
  lemma {:induction false} RegionWinsSnoc(idx: int, wins: seq<Win>, w: Win)
    ensures RegionWins(idx, wins + [w])
            == RegionWins(idx, wins)
               + [Outbound(idx + |wins|, w.ty, w.region.physStart, w.region.busStart, w.region.size)]
    decreases |wins|
  {
    if wins == [] {
      assert [] + [w] == [w];
      assert [w][1..] == [];
    } else {
      assert (wins + [w])[1..] == wins[1..] + [w];
      RegionWinsSnoc(idx + 1, wins[1..], w);
    }
  }

  /** Opening one more region window appends its outbound window to the
      plan of lx_pcie_setup_wins, at index one past the windows before it. */
  lemma WinsPlanSnoc(cfgStart: Dword, cfgSize: Dword, wins: seq<Win>, w: Win)
    ensures WinsPlan(cfgStart, cfgSize, wins + [w])
            == WinsPlan(cfgStart, cfgSize, wins)
               + [Outbound(1 + |wins|, w.ty, w.region.physStart, w.region.busStart, w.region.size)]
  {
    RegionWinsSnoc(1, wins, w);
  }

  /** lx_pcie_setup_wins dumps one window more than there are regions
      present: the config window. */
  lemma PresentWinsCount(io: Option<Region>, mem: Option<Region>, pref: Option<Region>)
    ensures |PresentWins(io, mem, pref)| == CountPresent(io, mem, pref)
    ensures forall k :: 0 <= k < |PresentWins(io, mem, pref)| ==>
              Some(PresentWins(io, mem, pref)[k].region) in [io, mem, pref]
  {
  }

  /** The plan of lx_pcie_setup_wins programs inbound window 0 and outbound
      window 0 (config) first, then one outbound window per region, in
      order, at indices 1, 2, .... */
  lemma WinsPlanShape(cfgStart: Dword, cfgSize: Dword, wins: seq<Win>)
    ensures
      var plan := WinsPlan(cfgStart, cfgSize, wins);
      && |plan| == 2 + |wins|
      && plan[0] == InboundRc(0, IbTypeMemNf, 0, 0, Size1T)
      && plan[1] == Outbound(0, TypeCfg, cfgStart, 0, cfgSize)
      && (forall k :: 0 <= k < |wins| ==>
            plan[2 + k] == Outbound(1 + k, wins[k].ty, wins[k].region.physStart,
                                    wins[k].region.busStart, wins[k].region.size))
  {
    RegionWinsAt(1, wins);
  }

  /** A register belongs to outbound window `a` and to outbound window `b`
      only if they are the same window. */
  lemma OutboundRegUnique(r: Reg, a: int, b: int)
    requires OutboundReg(r, a) && OutboundReg(r, b)
    ensures a == b
  {
  }

  /** An inbound window, or an outbound window other than `j`, leaves the
      registers of outbound window `j` alone. */
  lemma OtherWindowAvoids(op: Op, r: Reg, j: int)
    requires OutboundReg(r, j)
    requires op.InboundRc? || (op.Outbound? && op.idx != j)
    ensures Avoids(op, r)
  {
    if op.Outbound? && OutboundReg(r, op.idx) {
      OutboundRegUnique(r, op.idx, j);
    }
  }

  /** In the plan of lx_pcie_setup_wins, the operation at position i is
      inbound window 0 for i == 0 and outbound window i - 1 otherwise. */
  lemma WinsPlanAt(cfgStart: Dword, cfgSize: Dword, wins: seq<Win>, i: int)
    requires 0 <= i < |WinsPlan(cfgStart, cfgSize, wins)|
    ensures i == 0 ==> WinsPlan(cfgStart, cfgSize, wins)[i].InboundRc?
    ensures i > 0 ==> WinsPlan(cfgStart, cfgSize, wins)[i].Outbound?
                      && WinsPlan(cfgStart, cfgSize, wins)[i].idx == i - 1
  {
    var plan := WinsPlan(cfgStart, cfgSize, wins);
    WinsPlanShape(cfgStart, cfgSize, wins);
    if i >= 2 {
      var k := i - 2;
      assert plan[2 + k] == Outbound(1 + k, wins[k].ty, wins[k].region.physStart,
                                     wins[k].region.busStart, wins[k].region.size);
    }
  }

  /** Position 2 + k of the plan of lx_pcie_setup_wins holds the window of
      the k-th region. */
  lemma WinsPlanRegion(cfgStart: Dword, cfgSize: Dword, wins: seq<Win>, k: int)
    requires 0 <= k < |wins|
    ensures
      var plan := WinsPlan(cfgStart, cfgSize, wins);
      && 2 + k < |plan|
      && plan[2 + k] == Outbound(1 + k, wins[k].ty, wins[k].region.physStart,
                                 wins[k].region.busStart, wins[k].region.size)
  {
    WinsPlanShape(cfgStart, cfgSize, wins);
  }

  /** In the plan of lx_pcie_setup_wins, the only operation that touches
      the registers of outbound window `j` is the one at position j + 1. */
  lemma WinsPlanAvoids(cfgStart: Dword, cfgSize: Dword, wins: seq<Win>, r: Reg, j: int, i: int)
    requires OutboundReg(r, j)
    requires 0 <= i < |WinsPlan(cfgStart, cfgSize, wins)| && i != j + 1
    ensures Avoids(WinsPlan(cfgStart, cfgSize, wins)[i], r)
  {
    WinsPlanAt(cfgStart, cfgSize, wins, i);
    OtherWindowAvoids(WinsPlan(cfgStart, cfgSize, wins)[i], r, j);
  }

  /** A window programmed by a plan in which no other operation touches its
      registers reads back as lx_pcie_outbound_win_set left it. */
  lemma WindowInPlan(regs: RegFile, pre: seq<Op>, post: seq<Op>, idx: int, ty: Word,
                     phys: Dword, busAddr: Dword, size: Dword)
    requires idx <= WinsNum
    requires forall r :: OutboundReg(r, idx) ==> AllAvoid(pre, r) && AllAvoid(post, r)
    ensures
      var plan := pre + [Outbound(idx, ty, phys, busAddr, size)] + post;
      ReadBack(Apply(regs, Run(regs, plan)), idx)
      == OutboundDump(regs[AxiAmapCtrl(idx)], ty, phys, busAddr, size)
  {
    var op := Outbound(idx, ty, phys, busAddr, size);
    var mid := Apply(regs, Run(regs, pre));
    assert OutboundReg(AxiAmapAxiWin(idx), idx) && OutboundReg(ExtAxiAmapAxiWin(idx), idx);
    assert OutboundReg(AxiAmapPexWinL(idx), idx) && OutboundReg(AxiAmapPexWinH(idx), idx);
    assert OutboundReg(ExtAxiAmapSize(idx), idx) && OutboundReg(AxiAmapCtrl(idx), idx);
    Isolate(regs, pre, op, post, AxiAmapAxiWin(idx));
    Isolate(regs, pre, op, post, ExtAxiAmapAxiWin(idx));
    Isolate(regs, pre, op, post, AxiAmapPexWinL(idx));
    Isolate(regs, pre, op, post, AxiAmapPexWinH(idx));
    Isolate(regs, pre, op, post, ExtAxiAmapSize(idx));
    Isolate(regs, pre, op, post, AxiAmapCtrl(idx));
    RunKeeps(regs, pre, AxiAmapCtrl(idx));
    OutboundReadBack(mid, idx, ty, phys, busAddr, size);
  }

  /** Two plans that leave `r` alone leave it alone one after the other. */
  lemma AllAvoidAppend(p: seq<Op>, q: seq<Op>, r: Reg)
    requires AllAvoid(p, r) && AllAvoid(q, r)
    ensures AllAvoid(p + q, r)
  {
    forall n | 0 <= n < |p + q| ensures Avoids((p + q)[n], r) {
      if n >= |p| {
        assert (p + q)[n] == q[n - |p|];
      }
    }
  }

  /** Before and after position i of the plan of lx_pcie_setup_wins, no
      operation touches outbound window i - 1. */
  lemma WinsPlanAvoidsOutside(cfgStart: Dword, cfgSize: Dword, wins: seq<Win>, r: Reg, i: int)
    requires 1 <= i < |WinsPlan(cfgStart, cfgSize, wins)|
    requires OutboundReg(r, i - 1)
    ensures AllAvoid(WinsPlan(cfgStart, cfgSize, wins)[..i], r)
    ensures AllAvoid(WinsPlan(cfgStart, cfgSize, wins)[i + 1..], r)
  {
    var plan := WinsPlan(cfgStart, cfgSize, wins);
    var pre, post := plan[..i], plan[i + 1..];
    forall n | 0 <= n < |pre| ensures Avoids(pre[n], r) {
      WinsPlanAvoids(cfgStart, cfgSize, wins, r, i - 1, n);
    }
    forall n | 0 <= n < |post| ensures Avoids(post[n], r) {
      WinsPlanAvoids(cfgStart, cfgSize, wins, r, i - 1, i + 1 + n);
    }
  }

  /** In a plan made of `lead`, the plan of lx_pcie_setup_wins and `tail`,
      where neither `lead` nor `tail` touches outbound window i - 1, the
      window at position i of the setup_wins plan (i >= 1), that is outbound
      window i - 1, reads back at the end as lx_pcie_outbound_win_set left
      it over its old control word. */
  lemma WinsPlanWindow(regs: RegFile, lead: seq<Op>, cfgStart: Dword, cfgSize: Dword,
                       wins: seq<Win>, tail: seq<Op>, i: int)
    requires 1 <= i < |WinsPlan(cfgStart, cfgSize, wins)|
    requires i - 1 <= WinsNum
    requires forall r :: OutboundReg(r, i - 1) ==> AllAvoid(lead, r) && AllAvoid(tail, r)
    ensures
      var plan := WinsPlan(cfgStart, cfgSize, wins);
      && plan[i].Outbound?
      && plan[i].idx == i - 1
      && ReadBack(Apply(regs, Run(regs, lead + plan + tail)), i - 1)
         == OutboundDump(regs[AxiAmapCtrl(i - 1)], plan[i].ty, plan[i].phys,
                         plan[i].busAddr, plan[i].size)
  {
    var plan := WinsPlan(cfgStart, cfgSize, wins);
    WinsPlanAt(cfgStart, cfgSize, wins, i);
    var op := plan[i];
    var pre, post := lead + plan[..i], plan[i + 1..] + tail;
    assert plan == plan[..i] + [op] + plan[i + 1..];
    assert lead + plan + tail == pre + [op] + post;
    forall r | OutboundReg(r, i - 1)
      ensures AllAvoid(pre, r) && AllAvoid(post, r)
    {
      WinsPlanAvoidsOutside(cfgStart, cfgSize, wins, r, i);
      AllAvoidAppend(lead, plan[..i], r);
      AllAvoidAppend(plan[i + 1..], tail, r);
    }
    WindowInPlan(regs, pre, post, i - 1, op.ty, op.phys, op.busAddr, op.size);
  }

  /** After lx_pcie_setup_wins, outbound window 0 reads back as the config
      window (when `PAB_WINS_NUM` admits index 0). */
  lemma SetupWinsConfigWindow(regs: RegFile, cfgStart: Dword, cfgSize: Dword,
                              io: Option<Region>, mem: Option<Region>, pref: Option<Region>)
    requires 0 <= WinsNum
    ensures
      ReadBack(Apply(regs, Run(regs, SetupWinsPlan(cfgStart, cfgSize, io, mem, pref))), 0)
      == OutboundDump(regs[AxiAmapCtrl(0)], TypeCfg, cfgStart, 0, cfgSize)
  {
    var wins := PresentWins(io, mem, pref);
    WinsPlanShape(cfgStart, cfgSize, wins);
    assert [] + WinsPlan(cfgStart, cfgSize, wins) + [] == WinsPlan(cfgStart, cfgSize, wins);
    WinsPlanWindow(regs, [], cfgStart, cfgSize, wins, [], 1);
  }

  /** After lx_pcie_setup_wins, the window of the `k`-th region present
      (counting from 0, in the order io, mem, pref) reads back at index
      k + 1 as lx_pcie_outbound_win_set left it over that window's old
      control word, when `PAB_WINS_NUM` admits index k + 1. */
  lemma SetupWinsRegionWindow(regs: RegFile, cfgStart: Dword, cfgSize: Dword,
                              io: Option<Region>, mem: Option<Region>, pref: Option<Region>,
                              k: int)
    requires 0 <= k < |PresentWins(io, mem, pref)|
    requires 1 + k <= WinsNum
    ensures
      var w := PresentWins(io, mem, pref)[k];
      ReadBack(Apply(regs, Run(regs, SetupWinsPlan(cfgStart, cfgSize, io, mem, pref))), 1 + k)
      == OutboundDump(regs[AxiAmapCtrl(1 + k)], w.ty, w.region.physStart, w.region.busStart,
                      w.region.size)
  {
    var wins := PresentWins(io, mem, pref);
    WinsPlanRegion(cfgStart, cfgSize, wins, k);
    assert [] + WinsPlan(cfgStart, cfgSize, wins) + [] == WinsPlan(cfgStart, cfgSize, wins);
    WinsPlanWindow(regs, [], cfgStart, cfgSize, wins, [], 2 + k);
  }

  /* ---- lx_pcie_ep_setup_bar ---- */

  /** The enable write sets the low nibble of `PCI_BAR_ENABLE`, and is made
      exactly when that nibble was not already all set. */
  lemma EnableWritesSet(regs: RegFile)
    ensures Apply(regs, EnableWrites(regs[BarEnable]))[BarEnable] & 0x0f == 0x0f
    ensures EnableWrites(regs[BarEnable]) != [] <==> regs[BarEnable] & 0x0f != 0x0f
  {
    if regs[BarEnable] & 0x0f != 0x0f {
      ApplyOne(regs, RegWrite(BarEnable, 0x0f));
    }
  }

  /** The size writes of BARs 0 to 3 select the BAR and leave the mask's
      low word in `PCI_BAR_BAR_SIZE_LDW`; those of BARs 2 and 3 leave its
      high word in `PCI_BAR_BAR_SIZE_UDW`; those of BARs 0 and 1 leave that
      register alone. None touches `PCI_BAR_ENABLE`. */
  lemma BarSizeWritesSet(regs: RegFile, bar: int, mask: Dword)
    requires 0 <= bar <= 3
    ensures
      var after := Apply(regs, BarSizeWrites(bar, mask));
      && after[BarSelect] == bar as Word
      && after[BarSizeLdw] == Lower32(mask)
      && (bar <= 1 ==> after[BarSizeUdw] == regs[BarSizeUdw])
      && (bar >= 2 ==> after[BarSizeUdw] == Upper32(mask))
      && after[BarEnable] == regs[BarEnable]
  {
    var sel, ldw := RegWrite(BarSelect, bar as Word), RegWrite(BarSizeLdw, Lower32(mask));
    if bar <= 1 {
      ApplyTwo(regs, sel, ldw);
    } else {
      ApplyThree(regs, sel, ldw, RegWrite(BarSizeUdw, Upper32(mask)));
    }
  }

  /** A BAR smaller than 4 KiB is left alone. Otherwise the BAR enables end
      up with the low nibble set, `PCI_BAR_ENABLE` being written (with
      0x0f) only when that nibble was not already all set; BARs 0 to 3 are
      selected and the low word of their size mask is left in
      `PCI_BAR_BAR_SIZE_LDW`; for the 64-bit BARs 2 and 3 the high word is
      left in `PCI_BAR_BAR_SIZE_UDW`, so that the two words give back the
      size; the 32-bit BARs 0 and 1 leave `PCI_BAR_BAR_SIZE_UDW` alone. */
  lemma EpBarEffect(regs: RegFile, bar: int, size: Dword)
    ensures size < 4 * 1024 ==> EpBarWrites(regs, bar, size) == []
    ensures size >= 4 * 1024 ==>
              var after := Apply(regs, EpBarWrites(regs, bar, size));
              && after[BarEnable] & 0x0f == 0x0f
              && (after[BarEnable] != regs[BarEnable] ==> after[BarEnable] == 0x0f)
              && (0 <= bar <= 3 ==>
                    && after[BarSelect] == bar as Word
                    && after[BarSizeLdw] == Lower32(SizeMask(size)))
              && (0 <= bar <= 1 ==> after[BarSizeUdw] == regs[BarSizeUdw])
              && (2 <= bar <= 3 ==>
                    && after[BarSizeUdw] == Upper32(SizeMask(size))
                    && SizeOfMask(Join(after[BarSizeUdw], after[BarSizeLdw])) == size)
  {
    if size >= 4 * 1024 {
      var en := EnableWrites(regs[BarEnable]);
      var mid := Apply(regs, en);
      ApplyAppend(regs, en, BarSizeWrites(bar, SizeMask(size)));
      EnableWritesSet(regs);
      if en != [] {
        ApplyOne(regs, RegWrite(BarEnable, 0x0f));
      }
      if 0 <= bar <= 3 {
        BarSizeWritesSet(mid, bar, SizeMask(size));
        if bar >= 2 {
          MaskWordsRoundTrip(size);
        }
      } else {
        assert BarSizeWrites(bar, SizeMask(size)) == [];
      }
    }
  }

  /** The four BAR enables of `PCI_BAR_ENABLE`, its low nibble, are set. */
  predicate BarsEnabled(w: Word)
  {
    w & 0x0f == 0x0f
  }

  /** One lx_pcie_ep_setup_bar call of a BAR of `size` bytes, seen from
      `PCI_BAR_ENABLE`, taking register file `a` to `b`: a BAR below 4 KiB
      changes nothing; any other sets the low nibble; a nibble already set
      keeps the register as it was; the register either keeps its value or
      becomes 0x0f. */
  predicate EnableStep(a: RegFile, b: RegFile, size: Dword)
  {
    && (size < 4 * 1024 ==> b == a)
    && (size >= 4 * 1024 ==> BarsEnabled(b[BarEnable]))
    && (BarsEnabled(a[BarEnable]) ==> b[BarEnable] == a[BarEnable])
    && (b[BarEnable] == a[BarEnable] || b[BarEnable] == 0x0f)
  }

  /** Each lx_pcie_ep_setup_bar call is an `EnableStep`. */
  lemma EpBarEnableStep(regs: RegFile, bar: int, size: Dword)
    requires 0 <= bar <= 3
    ensures EnableStep(regs, Apply(regs, Step(regs, EpBar(bar, size))), size)
  {
    EpBarEffect(regs, bar, size);
    if size < 4 * 1024 {
      assert Step(regs, EpBar(bar, size)) == [];
    } else if regs[BarEnable] & 0x0f == 0x0f {
      assert EnableWrites(regs[BarEnable]) == [];
      assert Step(regs, EpBar(bar, size)) == BarSizeWrites(bar, SizeMask(size));
      BarSizeWritesSet(regs, bar, SizeMask(size));
    }
  }

  /** Four `EnableStep`s in a row: the nibble ends set once any of the
      sizes is at least 4 KiB, nothing changes when none is, and the
      register ends as it began or as 0x0f. */
  lemma EnableChain(s0: RegFile, s1: RegFile, s2: RegFile, s3: RegFile, s4: RegFile,
                    z0: Dword, z1: Dword, z2: Dword, z3: Dword)
    requires EnableStep(s0, s1, z0) && EnableStep(s1, s2, z1)
    requires EnableStep(s2, s3, z2) && EnableStep(s3, s4, z3)
    ensures (z0 >= 4 * 1024 || z1 >= 4 * 1024 || z2 >= 4 * 1024 || z3 >= 4 * 1024)
            ==> BarsEnabled(s4[BarEnable])
    ensures z0 < 4 * 1024 && z1 < 4 * 1024 && z2 < 4 * 1024 && z3 < 4 * 1024 ==> s4 == s0
    ensures s4[BarEnable] == s0[BarEnable] || s4[BarEnable] == 0x0f
    ensures BarsEnabled(s0[BarEnable]) ==> s4[BarEnable] == s0[BarEnable]
  {
    assert BarsEnabled(0x0f);
  }

  /** Applying a plan one operation longer applies that operation's step to
      the registers the plan left. */
  lemma ApplyRunSnoc(regs: RegFile, p: seq<Op>, op: Op)
    ensures Apply(regs, Run(regs, p + [op]))
            == Apply(Apply(regs, Run(regs, p)), Step(Apply(regs, Run(regs, p)), op))
  {
    RunSnoc(regs, p, op);
    ApplyAppend(regs, Run(regs, p), Step(Apply(regs, Run(regs, p)), op));
  }

  /** The register files lx_pcie_ep_setup_bars passes through: after no
      BAR, after BAR0, after BAR1, after BAR2 and after BAR4. */
  lemma EpSetupBarsStates(regs: RegFile)
    ensures
      var p := EpSetupBarsPlan();
      var s1 := Apply(regs, Step(regs, p[0]));
      var s2 := Apply(s1, Step(s1, p[1]));
      var s3 := Apply(s2, Step(s2, p[2]));
      Apply(regs, Run(regs, p)) == Apply(s3, Step(s3, p[3]))
  {
    var p := EpSetupBarsPlan();
    RunNil(regs);
    assert p[..0] + [p[0]] == [p[0]];
    ApplyRunSnoc(regs, [], p[0]);
    assert [p[0]] + [p[1]] == p[..2];
    ApplyRunSnoc(regs, [p[0]], p[1]);
    assert p[..2] + [p[2]] == p[..3];
    ApplyRunSnoc(regs, p[..2], p[2]);
    assert p[..3] + [p[3]] == p;
    ApplyRunSnoc(regs, p[..3], p[3]);
  }

  /** lx_pcie_ep_setup_bars and the BAR enables: the low nibble of
      `PCI_BAR_ENABLE` ends all set as soon as one of the four BARs is at
      least 4 KiB, and when none is, no register changes at all. Either way
      the register ends as it was or as 0x0f, and one whose nibble was
      already set is left as it was. */
  lemma EpSetupBarsEnables(regs: RegFile)
    ensures
      var after := Apply(regs, Run(regs, EpSetupBarsPlan()));
      && ((Bar0Size >= 4 * 1024 || Bar1Size >= 4 * 1024 || Bar2Size >= 4 * 1024
           || Bar4Size >= 4 * 1024) ==> BarsEnabled(after[BarEnable]))
      && ((Bar0Size < 4 * 1024 && Bar1Size < 4 * 1024 && Bar2Size < 4 * 1024
           && Bar4Size < 4 * 1024) ==> after == regs)
      && (after[BarEnable] == regs[BarEnable] || after[BarEnable] == 0x0f)
      && (BarsEnabled(regs[BarEnable]) ==> after[BarEnable] == regs[BarEnable])
  {
    var p := EpSetupBarsPlan();
    var s1 := Apply(regs, Step(regs, p[0]));
    var s2 := Apply(s1, Step(s1, p[1]));
    var s3 := Apply(s2, Step(s2, p[2]));
    var s4 := Apply(s3, Step(s3, p[3]));
    EpSetupBarsStates(regs);
    EpBarEnableStep(regs, 0, Bar0Size);
    EpBarEnableStep(s1, 1, Bar1Size);
    EpBarEnableStep(s2, 2, Bar2Size);
    EpBarEnableStep(s3, 3, Bar4Size);
    EnableChain(regs, s1, s2, s3, s4, Bar0Size, Bar1Size, Bar2Size, Bar4Size);
  }

  /** When BAR4 is at least 4 KiB, lx_pcie_ep_setup_bars ends with BAR
      number 3 selected and BAR4's 64-bit size mask in the two size words,
      which give the size back. */
  lemma EpSetupBarsLast(regs: RegFile)
    requires Bar4Size >= 4 * 1024
    ensures
      var after := Apply(regs, Run(regs, EpSetupBarsPlan()));
      && after[BarSelect] == 3
      && after[BarSizeLdw] == Lower32(SizeMask(Bar4Size))
      && after[BarSizeUdw] == Upper32(SizeMask(Bar4Size))
      && SizeOfMask(Join(after[BarSizeUdw], after[BarSizeLdw])) == Bar4Size
  {
    var p := EpSetupBarsPlan();
    var s1 := Apply(regs, Step(regs, p[0]));
    var s2 := Apply(s1, Step(s1, p[1]));
    var s3 := Apply(s2, Step(s2, p[2]));
    EpSetupBarsStates(regs);
    EpBarEffect(s3, 3, Bar4Size);
  }

  /** lx_pcie_ep_setup_bars writes nothing but the four BAR setup
      registers. */
  lemma EpSetupBarsKeeps(regs: RegFile, r: Reg)
    requires !BarReg(r)
    ensures Apply(regs, Run(regs, EpSetupBarsPlan()))[r] == regs[r]
  {
    EpBarsSpare(r);
    RunKeeps(regs, EpSetupBarsPlan(), r);
  }

  /* ---- lx_pcie_setup_ctrl, lx_pcie_setup_ep and the enables of lx_pcie_probe ---- */

  /** The control registers the setup paths set bits in. */
  predicate ControlReg(r: Reg)
  {
    r == GpexClassCode || r == AxiPioCtrl(0) || r == PexPioCtrl(0) || r == PabCtrl
  }

  /** lx_pcie_setup_wins touches no control register. */
  lemma WinsPlanSpares(cfgStart: Dword, cfgSize: Dword, wins: seq<Win>, r: Reg)
    requires ControlReg(r)
    ensures AllAvoid(WinsPlan(cfgStart, cfgSize, wins), r)
  {
    var plan := WinsPlan(cfgStart, cfgSize, wins);
    forall i | 0 <= i < |plan| ensures Avoids(plan[i], r) {
      WinsPlanAt(cfgStart, cfgSize, wins, i);
    }
  }

  /** The BARs of lx_pcie_setup_ep touch only the BAR registers. */
  lemma EpBarsSpare(r: Reg)
    requires !BarReg(r)
    ensures AllAvoid(EpSetupBarsPlan(), r)
  {
  }

  /** The windows of lx_pcie_setup_ep touch only the BAR windows and
      outbound window 0. */
  lemma EpWinsSpare(cfgStart: Dword, r: Reg)
    requires !OutboundReg(r, 0) && !r.PexBarAmap? && !r.ExtPexBarAmap?
    ensures AllAvoid(EpSetupWinsPlan(cfgStart), r)
  {
    var w := EpSetupWinsPlan(cfgStart);
    forall i | 0 <= i < |w| ensures Avoids(w[i], r) {
      assert w[i].EpInbound? || w[i] == Outbound(0, TypeMem, cfgStart, 0, PciMemorySize);
    }
  }

  /** The BARs and windows of lx_pcie_setup_ep leave every register other
      than theirs alone. */
  lemma EpBarsWinsSpare(cfgStart: Dword, r: Reg)
    requires !BarReg(r) && !OutboundReg(r, 0) && !r.PexBarAmap? && !r.ExtPexBarAmap?
    ensures AllAvoid(EpSetupBarsPlan() + EpSetupWinsPlan(cfgStart), r)
  {
    EpBarsSpare(r);
    EpWinsSpare(cfgStart, r);
    AllAvoidAppend(EpSetupBarsPlan(), EpSetupWinsPlan(cfgStart), r);
  }

  /** lx_pcie_setup_ep leaves the class code and the PIO enables of the
      probe alone. */
  lemma EpPlanSpares(cfgStart: Dword, r: Reg)
    requires r == GpexClassCode || r == PexPioCtrl(0) || r == PabCtrl
    ensures AllAvoid(SetupEpPlan(cfgStart), r)
  {
    EpBarsWinsSpare(cfgStart, r);
    AllAvoidAppend(EpSetupBarsPlan() + EpSetupWinsPlan(cfgStart),
                   [SetBits(AxiPioCtrl(0), EpPioEnables())], r);
  }

  /** Any setup that leaves `PAB_PEX_PIO_CTRL(0)` alone, followed by the
      enables of lx_pcie_probe, sets PPIO there and keeps every other bit. */
  lemma PexEnableAfter(regs: RegFile, setup: seq<Op>)
    requires AllAvoid(setup, PexPioCtrl(0))
    ensures Apply(regs, Run(regs, setup + EnablePlan()))[PexPioCtrl(0)]
            == regs[PexPioCtrl(0)] | PpioEn
  {
    var pex, pab := SetBits(PexPioCtrl(0), PpioEn), SetBits(PabCtrl, PabCtrlApioEn | PabCtrlPpioEn);
    assert setup + EnablePlan() == setup + [pex] + [pab];
    SetBitsInPlan(regs, setup, PexPioCtrl(0), PpioEn, [pab]);
  }

  /** Any setup that leaves `PAB_CTRL` alone, followed by the enables of
      lx_pcie_probe, sets APIO and PPIO there and keeps every other bit. */
  lemma PabEnableAfter(regs: RegFile, setup: seq<Op>)
    requires AllAvoid(setup, PabCtrl)
    ensures Apply(regs, Run(regs, setup + EnablePlan()))[PabCtrl]
            == regs[PabCtrl] | (PabCtrlApioEn | PabCtrlPpioEn)
  {
    var pex, pab := SetBits(PexPioCtrl(0), PpioEn), SetBits(PabCtrl, PabCtrlApioEn | PabCtrlPpioEn);
    assert setup + EnablePlan() == (setup + [pex]) + [pab] + [];
    AllAvoidAppend(setup, [pex], PabCtrl);
    SetBitsInPlan(regs, setup + [pex], PabCtrl, PabCtrlApioEn | PabCtrlPpioEn, []);
  }

  /** The plan of lx_pcie_setup_ctrl leaves the PIO enables of the probe
      alone. */
  lemma CtrlPlanSpares(cfgStart: Dword, cfgSize: Dword, wins: seq<Win>, r: Reg)
    requires r == PexPioCtrl(0) || r == PabCtrl
    ensures AllAvoid(SetupCtrlPlan(cfgStart, cfgSize, wins), r)
  {
    WinsPlanSpares(cfgStart, cfgSize, wins, r);
    AllAvoidAppend([PatchClassCode, SetBits(AxiPioCtrl(0), RcPioEnables())],
                   WinsPlan(cfgStart, cfgSize, wins), r);
  }

  /** Whichever mode it sets up, lx_pcie_probe ends by enabling PPIO in
      `PAB_PEX_PIO_CTRL(0)` and APIO and PPIO in `PAB_CTRL`, keeping every
      other bit of both. */
  lemma ProbeEnables(regs: RegFile, ep: bool, cfgStart: Dword, cfgSize: Dword, wins: seq<Win>)
    ensures
      var after := Apply(regs, Run(regs, ProbePlan(ep, cfgStart, cfgSize, wins)));
      && after[PexPioCtrl(0)] == regs[PexPioCtrl(0)] | PpioEn
      && after[PabCtrl] == regs[PabCtrl] | (PabCtrlApioEn | PabCtrlPpioEn)
  {
    var setup := if ep then SetupEpPlan(cfgStart)
                 else SetupCtrlPlan(cfgStart, cfgSize, wins);
    if ep {
      EpPlanSpares(cfgStart, PexPioCtrl(0));
      EpPlanSpares(cfgStart, PabCtrl);
    } else {
      CtrlPlanSpares(cfgStart, cfgSize, wins, PexPioCtrl(0));
      CtrlPlanSpares(cfgStart, cfgSize, wins, PabCtrl);
    }
    PexEnableAfter(regs, setup);
    PabEnableAfter(regs, setup);
  }

  /** Patching the class code first, followed by anything that leaves it
      alone, leaves the patched class code. */
  lemma PatchFirst(regs: RegFile, post: seq<Op>)
    requires AllAvoid(post, GpexClassCode)
    ensures Apply(regs, Run(regs, [PatchClassCode] + post))[GpexClassCode]
            == PatchedClassCode(regs[GpexClassCode])
  {
    assert [PatchClassCode] + post == [] + [PatchClassCode] + post;
    Isolate(regs, [], PatchClassCode, post, GpexClassCode);
    assert Run(regs, []) == [] && Apply(regs, []) == regs;
    ApplyOne(regs, RegWrite(GpexClassCode, PatchedClassCode(regs[GpexClassCode])));
  }

  /** The rest of lx_pcie_setup_ctrl, and the probe after it, leave the
      class code and `PAB_AXI_PIO_CTRL(0)` alone. */
  lemma CtrlRestSpares(cfgStart: Dword, cfgSize: Dword, wins: seq<Win>, r: Reg)
    requires r == GpexClassCode || r == AxiPioCtrl(0)
    ensures AllAvoid(WinsPlan(cfgStart, cfgSize, wins) + EnablePlan(), r)
  {
    WinsPlanSpares(cfgStart, cfgSize, wins, r);
    AllAvoidAppend(WinsPlan(cfgStart, cfgSize, wins), EnablePlan(), r);
  }

  /** A plan that patches the class code, enables the Root Complex windows
      in `PAB_AXI_PIO_CTRL(0)`, and then runs `wins` and `tail`, neither of
      which touches that register, leaves exactly those bits added there. */
  lemma RcPioSecond(regs: RegFile, wins: seq<Op>, tail: seq<Op>)
    requires AllAvoid(wins + tail, AxiPioCtrl(0))
    ensures Apply(regs, Run(regs, [PatchClassCode, SetBits(AxiPioCtrl(0), RcPioEnables())] + wins + tail))[AxiPioCtrl(0)]
            == regs[AxiPioCtrl(0)] | RcPioEnables()
  {
    assert [PatchClassCode, SetBits(AxiPioCtrl(0), RcPioEnables())] + wins + tail
           == [PatchClassCode] + [SetBits(AxiPioCtrl(0), RcPioEnables())] + (wins + tail);
    SetBitsInPlan(regs, [PatchClassCode], AxiPioCtrl(0), RcPioEnables(), wins + tail);
  }

  /** A plan that patches the class code and then runs operations that
      leave it alone leaves the patched class code. */
  lemma RcPatchFirst(regs: RegFile, wins: seq<Op>, tail: seq<Op>)
    requires AllAvoid([SetBits(AxiPioCtrl(0), RcPioEnables())] + (wins + tail), GpexClassCode)
    ensures Apply(regs, Run(regs, [PatchClassCode, SetBits(AxiPioCtrl(0), RcPioEnables())] + wins + tail))[GpexClassCode]
            == PatchedClassCode(regs[GpexClassCode])
  {
    assert [PatchClassCode, SetBits(AxiPioCtrl(0), RcPioEnables())] + wins + tail
           == [PatchClassCode] + ([SetBits(AxiPioCtrl(0), RcPioEnables())] + (wins + tail));
    PatchFirst(regs, [SetBits(AxiPioCtrl(0), RcPioEnables())] + (wins + tail));
  }

  /** As a Root Complex (a header type other than 0), lx_pcie_probe enables
      APIO and the memory, I/O and config windows in `PAB_AXI_PIO_CTRL(0)`,
      keeping every other bit of it. */
  lemma ProbeRcPio(regs: RegFile, cfgStart: Dword, cfgSize: Dword, wins: seq<Win>)
    ensures
      var after := Apply(regs, Run(regs, ProbePlan(false, cfgStart, cfgSize, wins)));
      after[AxiPioCtrl(0)] == regs[AxiPioCtrl(0)] | RcPioEnables()
  {
    CtrlRestSpares(cfgStart, cfgSize, wins, AxiPioCtrl(0));
    RcPioSecond(regs, WinsPlan(cfgStart, cfgSize, wins), EnablePlan());
  }

  /** As a Root Complex, lx_pcie_probe leaves the bridge class code patched
      into `GPEX_CLASSCODE`. */
  lemma ProbeRcClassCode(regs: RegFile, cfgStart: Dword, cfgSize: Dword, wins: seq<Win>)
    ensures
      var after := Apply(regs, Run(regs, ProbePlan(false, cfgStart, cfgSize, wins)));
      after[GpexClassCode] == PatchedClassCode(regs[GpexClassCode])
  {
    var rest := WinsPlan(cfgStart, cfgSize, wins) + EnablePlan();
    CtrlRestSpares(cfgStart, cfgSize, wins, GpexClassCode);
    AllAvoidAppend([SetBits(AxiPioCtrl(0), RcPioEnables())], rest, GpexClassCode);
    RcPatchFirst(regs, WinsPlan(cfgStart, cfgSize, wins), EnablePlan());
  }

  /** As a Root Complex, with the class code fitting its field,
      lx_pcie_probe leaves the bridge class code in the class-code field of
      `GPEX_CLASSCODE` and every other bit of it as it was. */
  lemma ProbeRcClassField(regs: RegFile, cfgStart: Dword, cfgSize: Dword, wins: seq<Win>)
    requires ClassCodeFits()
    ensures
      var after := Apply(regs, Run(regs, ProbePlan(false, cfgStart, cfgSize, wins)));
      && FieldHolds(after[GpexClassCode], Shl(ClassCodeMask, ClassCodeShift),
                    Shl(ClassBridgePci, ClassCodeShift))
      && SameOutside(after[GpexClassCode], regs[GpexClassCode], Shl(ClassCodeMask, ClassCodeShift))
  {
    ProbeRcClassCode(regs, cfgStart, cfgSize, wins);
    ClassCodeSet(regs[GpexClassCode]);
    ClassCodeKeepsOthers(regs[GpexClassCode]);
  }

  /** A plan that runs `pre`, enables the Endpoint windows in
      `PAB_AXI_PIO_CTRL(0)` and then runs `tail`, where neither `pre` nor
      `tail` touches that register, leaves exactly those bits added there. */
  lemma EpPioInPlan(regs: RegFile, pre: seq<Op>, tail: seq<Op>)
    requires AllAvoid(pre, AxiPioCtrl(0)) && AllAvoid(tail, AxiPioCtrl(0))
    ensures Apply(regs, Run(regs, pre + [SetBits(AxiPioCtrl(0), EpPioEnables())] + tail))[AxiPioCtrl(0)]
            == regs[AxiPioCtrl(0)] | EpPioEnables()
  {
    SetBitsInPlan(regs, pre, AxiPioCtrl(0), EpPioEnables(), tail);
  }

  /** As an Endpoint (header type 0), lx_pcie_probe enables APIO and the
      memory window in `PAB_AXI_PIO_CTRL(0)`, keeping every other bit of
      it. */
  lemma ProbeEpPio(regs: RegFile, cfgStart: Dword, cfgSize: Dword, wins: seq<Win>)
    ensures
      var after := Apply(regs, Run(regs, ProbePlan(true, cfgStart, cfgSize, wins)));
      after[AxiPioCtrl(0)] == regs[AxiPioCtrl(0)] | EpPioEnables()
  {
    EpProbePlanShape(cfgStart, cfgSize, wins);
    EpBarsWinsSpare(cfgStart, AxiPioCtrl(0));
    EpPioInPlan(regs, EpSetupBarsPlan() + EpSetupWinsPlan(cfgStart), EnablePlan());
  }

  /** An endpoint's probe plan: the BARs and windows, the window enables,
      then the PIO enables. */
  lemma EpProbePlanShape(cfgStart: Dword, cfgSize: Dword, wins: seq<Win>)
    ensures ProbePlan(true, cfgStart, cfgSize, wins)
            == EpSetupBarsPlan() + EpSetupWinsPlan(cfgStart) + [SetBits(AxiPioCtrl(0), EpPioEnables())]
               + EnablePlan()
  {
  }

  /** As an Endpoint, lx_pcie_probe leaves the class code as it was. */
  lemma ProbeEpClassCode(regs: RegFile, cfgStart: Dword, cfgSize: Dword, wins: seq<Win>)
    ensures
      var after := Apply(regs, Run(regs, ProbePlan(true, cfgStart, cfgSize, wins)));
      after[GpexClassCode] == regs[GpexClassCode]
  {
    EpPlanSpares(cfgStart, GpexClassCode);
    AllAvoidAppend(SetupEpPlan(cfgStart), EnablePlan(), GpexClassCode);
    RunKeeps(regs, ProbePlan(true, cfgStart, cfgSize, wins), GpexClassCode);
  }

  /* ---- The windows lx_pcie_probe leaves ---- */

  /** Neither the class-code patch and PIO enable that open
      lx_pcie_setup_ctrl nor the enables that close lx_pcie_probe touch an
      outbound window. */
  lemma CtrlEndsSpareWindows(r: Reg, j: int)
    requires OutboundReg(r, j)
    ensures AllAvoid([PatchClassCode, SetBits(AxiPioCtrl(0), RcPioEnables())], r)
    ensures AllAvoid(EnablePlan(), r)
  {
  }

  /** Window i - 1 of lx_pcie_setup_wins, run between the class-code patch
      and PIO enables of lx_pcie_setup_ctrl and the enables of
      lx_pcie_probe, reads back as that window's operation wrote it. */
  lemma RcWinsWindow(regs: RegFile, cfgStart: Dword, cfgSize: Dword, wins: seq<Win>, i: int)
    requires 1 <= i < |WinsPlan(cfgStart, cfgSize, wins)|
    requires i - 1 <= WinsNum
    ensures
      var plan := WinsPlan(cfgStart, cfgSize, wins);
      && plan[i].Outbound?
      && ReadBack(Apply(regs, Run(regs, [PatchClassCode, SetBits(AxiPioCtrl(0), RcPioEnables())]
                                         + plan + EnablePlan())), i - 1)
         == OutboundDump(regs[AxiAmapCtrl(i - 1)], plan[i].ty, plan[i].phys,
                         plan[i].busAddr, plan[i].size)
  {
    forall r | OutboundReg(r, i - 1)
      ensures AllAvoid([PatchClassCode, SetBits(AxiPioCtrl(0), RcPioEnables())], r)
              && AllAvoid(EnablePlan(), r)
    {
      CtrlEndsSpareWindows(r, i - 1);
    }
    WinsPlanWindow(regs, [PatchClassCode, SetBits(AxiPioCtrl(0), RcPioEnables())],
                   cfgStart, cfgSize, wins, EnablePlan(), i);
  }

  /** As a Root Complex, lx_pcie_probe leaves outbound window 0 reading
      back as the config window over the config space (when
      `PAB_WINS_NUM` admits index 0). */
  lemma ProbeRcConfigWindow(regs: RegFile, cfgStart: Dword, cfgSize: Dword,
                            wins: seq<Win>)
    requires 0 <= WinsNum
    ensures ReadBack(Apply(regs, Run(regs, ProbePlan(false, cfgStart, cfgSize, wins))), 0)
            == OutboundDump(regs[AxiAmapCtrl(0)], TypeCfg, cfgStart, 0, cfgSize)
  {
    WinsPlanShape(cfgStart, cfgSize, wins);
    RcWinsWindow(regs, cfgStart, cfgSize, wins, 1);
  }

  /** As a Root Complex, lx_pcie_probe leaves outbound window k + 1
      reading back as the window of the k-th region, over that window's
      old control word (when `PAB_WINS_NUM` admits index k + 1). */
  lemma ProbeRcRegionWindow(regs: RegFile, cfgStart: Dword, cfgSize: Dword,
                            wins: seq<Win>, k: int)
    requires 0 <= k < |wins|
    requires 1 + k <= WinsNum
    ensures ReadBack(Apply(regs, Run(regs, ProbePlan(false, cfgStart, cfgSize, wins))), 1 + k)
            == OutboundDump(regs[AxiAmapCtrl(1 + k)], wins[k].ty, wins[k].region.physStart,
                            wins[k].region.busStart, wins[k].region.size)
  {
    WinsPlanRegion(cfgStart, cfgSize, wins, k);
    RcWinsWindow(regs, cfgStart, cfgSize, wins, 2 + k);
  }

  /** The BAR windows of lx_pcie_setup_ep touch only their own registers. */
  lemma EpBarWindowsSpare(r: Reg)
    requires !r.PexBarAmap? && !r.ExtPexBarAmap?
    ensures AllAvoid(EpBarWindows(), r)
  {
  }

  /** The enables at the end of lx_pcie_setup_ep and lx_pcie_probe touch
      only the PIO control registers. */
  lemma EpTailSpare(r: Reg)
    requires !r.AxiPioCtrl? && !r.PexPioCtrl? && !r.PabCtrl?
    ensures AllAvoid([SetBits(AxiPioCtrl(0), EpPioEnables())] + EnablePlan(), r)
  {
  }

  /** The operations of lx_pcie_setup_ep around its outbound window leave
      that window's registers alone. */
  lemma EpAroundWindow(r: Reg)
    requires OutboundReg(r, 0)
    ensures AllAvoid(EpSetupBarsPlan() + EpBarWindows(), r)
    ensures AllAvoid([SetBits(AxiPioCtrl(0), EpPioEnables())] + EnablePlan(), r)
  {
    EpBarsSpare(r);
    EpBarWindowsSpare(r);
    AllAvoidAppend(EpSetupBarsPlan(), EpBarWindows(), r);
    EpTailSpare(r);
  }

  /** As an Endpoint, lx_pcie_probe leaves outbound window 0 reading back
      as a memory window of `CONFIG_SYS_PCI_MEMORY_SIZE` bytes from the
      start of the config space to bus address 0 (when `PAB_WINS_NUM`
      admits index 0). */
  lemma ProbeEpWindow(regs: RegFile, cfgStart: Dword, cfgSize: Dword, wins: seq<Win>)
    requires 0 <= WinsNum
    ensures ReadBack(Apply(regs, Run(regs, ProbePlan(true, cfgStart, cfgSize, wins))), 0)
            == OutboundDump(regs[AxiAmapCtrl(0)], TypeMem, cfgStart, 0, PciMemorySize)
  {
    var pre := EpSetupBarsPlan() + EpBarWindows();
    var post := [SetBits(AxiPioCtrl(0), EpPioEnables())] + EnablePlan();
    var op := Outbound(0, TypeMem, cfgStart, 0, PciMemorySize);
    forall r | OutboundReg(r, 0) ensures AllAvoid(pre, r) && AllAvoid(post, r) {
      EpAroundWindow(r);
    }
    assert ProbePlan(true, cfgStart, cfgSize, wins) == pre + [op] + post;
    WindowInPlan(regs, pre, post, 0, TypeMem, cfgStart, 0, PciMemorySize);
  }

  /** The BAR windows of lx_pcie_setup_ep, one per BAR number 0 to 3. */
  lemma EpBarWindowsAt(b: int)
    requires 0 <= b < 4
    ensures |EpBarWindows()| == 4
    ensures EpBarWindows()[b] == EpInbound(1, b, EpBarTarget(b))
  {
  }

  /** lx_pcie_ep_inbound_win_set leaves the upper half of the address in
      the extended BAR map register and the lower half, with the enable bit
      0 set, in the BAR map register. */
  lemma EpInboundApplied(regs: RegFile, func: int, bar: int, phys: Dword)
    ensures
      var after := Apply(regs, Step(regs, EpInbound(func, bar, phys)));
      && after[ExtPexBarAmap(func, bar)] == Upper32(phys)
      && after[PexBarAmap(func, bar)] == BarMapLow(phys)
  {
    ApplyTwo(regs, RegWrite(ExtPexBarAmap(func, bar), Upper32(phys)),
             RegWrite(PexBarAmap(func, bar), BarMapLow(phys)));
  }

  /** A BAR window set in a plan in which nothing after it touches its
      registers keeps what lx_pcie_ep_inbound_win_set left there. */
  lemma EpInboundInPlan(regs: RegFile, pre: seq<Op>, func: int, bar: int, phys: Dword,
                        post: seq<Op>)
    requires AllAvoid(post, PexBarAmap(func, bar)) && AllAvoid(post, ExtPexBarAmap(func, bar))
    ensures
      var after := Apply(regs, Run(regs, pre + [EpInbound(func, bar, phys)] + post));
      && after[ExtPexBarAmap(func, bar)] == Upper32(phys)
      && after[PexBarAmap(func, bar)] == BarMapLow(phys)
  {
    var op := EpInbound(func, bar, phys);
    Isolate(regs, pre, op, post, PexBarAmap(func, bar));
    Isolate(regs, pre, op, post, ExtPexBarAmap(func, bar));
    EpInboundApplied(Apply(regs, Run(regs, pre)), func, bar, phys);
  }

  /** After BAR window b of lx_pcie_setup_ep, nothing in lx_pcie_probe
      touches that window again. */
  lemma EpAfterBarWindow(cfgStart: Dword, b: int, r: Reg)
    requires 0 <= b < 4
    requires r == PexBarAmap(1, b) || r == ExtPexBarAmap(1, b)
    ensures AllAvoid(EpBarWindows()[b + 1..] + [Outbound(0, TypeMem, cfgStart, 0, PciMemorySize)]
                     + ([SetBits(AxiPioCtrl(0), EpPioEnables())] + EnablePlan()), r)
  {
    var w := EpBarWindows();
    var rest := w[b + 1..];
    forall n | 0 <= n < |rest| ensures Avoids(rest[n], r) {
      EpBarWindowsAt(b + 1 + n);
    }
    var mid := rest + [Outbound(0, TypeMem, cfgStart, 0, PciMemorySize)];
    AllAvoidAppend(rest, [Outbound(0, TypeMem, cfgStart, 0, PciMemorySize)], r);
    EpTailSpare(r);
    AllAvoidAppend(mid, [SetBits(AxiPioCtrl(0), EpPioEnables())] + EnablePlan(), r);
  }

  /** As an Endpoint, lx_pcie_probe leaves in the BAR map registers of
      inbound BAR window b of function 1 (b from 0 to 3, the last standing
      for BAR4) the halves of the address EpBarTarget gives, the lower one
      with the enable bit 0 set; by BarMapJoin they join to that address
      with bit 0 set. */
  lemma ProbeEpBarRegs(regs: RegFile, cfgStart: Dword, cfgSize: Dword,
                       wins: seq<Win>, b: int)
    requires 0 <= b < 4
    ensures
      var after := Apply(regs, Run(regs, ProbePlan(true, cfgStart, cfgSize, wins)));
      && after[ExtPexBarAmap(1, b)] == Upper32(EpBarTarget(b))
      && after[PexBarAmap(1, b)] == BarMapLow(EpBarTarget(b))
  {
    var w := EpBarWindows();
    var pre := EpSetupBarsPlan() + w[..b];
    var post := w[b + 1..] + [Outbound(0, TypeMem, cfgStart, 0, PciMemorySize)]
                + ([SetBits(AxiPioCtrl(0), EpPioEnables())] + EnablePlan());
    EpBarWindowsAt(b);
    SplitAt(w, b);
    assert ProbePlan(true, cfgStart, cfgSize, wins) == pre + [w[b]] + post;
    EpAfterBarWindow(cfgStart, b, PexBarAmap(1, b));
    EpAfterBarWindow(cfgStart, b, ExtPexBarAmap(1, b));
    EpInboundInPlan(regs, pre, 1, b, EpBarTarget(b), post);
  }
}
