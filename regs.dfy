/** The controller's register file as the driver in drivers/pci/pcie_lx.c
    sees it: symbolic register identities, the control words it builds
    from the header's field layout, the events
    a run of the driver produces, and the register operations it is made of. */
module Regs {
  import opened Bits
  import opened Header

  /** The registers the driver touches. Their offsets and the bank each one
      lives in belong to the driver's header, which is not part of this model;
      distinct identities are taken to be distinct registers. */
  datatype Reg =
    | AxiAmapAxiWin(idx: int)       // PAB_AXI_AMAP_AXI_WIN
    | ExtAxiAmapAxiWin(idx: int)    // PAB_EXT_AXI_AMAP_AXI_WIN
    | AxiAmapPexWinL(idx: int)      // PAB_AXI_AMAP_PEX_WIN_L
    | AxiAmapPexWinH(idx: int)      // PAB_AXI_AMAP_PEX_WIN_H
    | ExtAxiAmapSize(idx: int)      // PAB_EXT_AXI_AMAP_SIZE
    | AxiAmapCtrl(idx: int)         // PAB_AXI_AMAP_CTRL
    | PexAmapCtrl(idx: int)         // PAB_PEX_AMAP_CTRL
    | ExtPexAmapSize(idx: int)      // PAB_EXT_PEX_AMAP_SIZE
    | PexAmapAxiWin(idx: int)       // PAB_PEX_AMAP_AXI_WIN
    | ExtPexAmapAxiWin(idx: int)    // PAB_EXT_PEX_AMAP_AXI_WIN
    | PexAmapPexWinL(idx: int)      // PAB_PEX_AMAP_PEX_WIN_L
    | PexAmapPexWinH(idx: int)      // PAB_PEX_AMAP_PEX_WIN_H
    | PexBarAmap(func: int, bar: int)      // PAB_PEX_BAR_AMAP
    | ExtPexBarAmap(func: int, bar: int)   // PAB_EXT_PEX_BAR_AMAP
    | GpexClassCode                 // GPEX_CLASSCODE
    | AxiPioCtrl(n: int)            // PAB_AXI_PIO_CTRL
    | PexPioCtrl(n: int)            // PAB_PEX_PIO_CTRL
    | PabCtrl                       // PAB_CTRL
    | BarEnable                     // PCI_BAR_ENABLE
    | BarSelect                     // PCI_BAR_SELECT
    | BarSizeLdw                    // PCI_BAR_BAR_SIZE_LDW
    | BarSizeUdw                    // PCI_BAR_BAR_SIZE_UDW
    | LutGcr                        // PCIE_LUT_GCR (LUT bank)

  /** A register file: every register holds a 32-bit value. */
  type RegFile = m: imap<Reg, Word> | forall r :: r in m ghost witness imap r: Reg :: 0

  /** Access widths of `enum pci_size_t`; any other value is unsupported. */
  datatype Width = Size8 | Size16 | Size32 | Unsupported(code: int)

  /** A config-space data address: `pcie->ccsr + off` or `pcie->cfg + off`. */
  datatype Addr = Ccsr(off: int) | Cfg(off: int)

  /** What the controller observes, in order. */
  datatype Event =
    | RegWrite(reg: Reg, val: Word)                // ccsr_writel / lut_writel
    | PageSelect(page: int)                        // ccsr_set_page
    | CfgRead(addr: Addr, width: Width)            // readb / readw / readl
    | CfgWrite(addr: Addr, width: Width, val: Word)  // writeb / writew / writel

  /** The register operations the driver is built from. */
  datatype Op =
    | SetBits(reg: Reg, bits: Word)                // val = read; val |= bits; write
    | PatchClassCode                               // lx_pcie_setup_ctrl, class code
    | Outbound(idx: int, ty: Word, phys: Dword, busAddr: Dword, size: Dword)
    | InboundRc(idx: int, ty: Word, phys: Dword, busAddr: Dword, size: Dword)
    | EpInbound(func: int, bar: int, phys: Dword)
    | EpBar(bar: int, size: Dword)

  /** The new `PAB_AXI_AMAP_CTRL` value of lx_pcie_outbound_win_set: the
      type, size and enable fields cleared, then the type code (masked and
      shifted into the type field), the low mask word (its bits below the
      size shift cleared) and the enable bits ORed in. */
  function OutboundCtrl(prev: Word, ty: Word, sizeLo: Word): Word
  {
    Merge(prev, Shl(AxiTypeMask, AxiTypeShift), Shl(AxiSizeMask, AxiSizeShift), AxiEn,
          Place(ty, AxiTypeMask, AxiTypeShift), AlignDown(sizeLo, AxiSizeShift))
  }

  /** The new `PAB_PEX_AMAP_CTRL` value of lx_pcie_inbound_win_set_rc: the
      type and enable fields cleared, then the type code (shifted, not
      masked), the enable bit `1 << PEX_AMAP_CTRL_EN_SHIFT` and the low mask
      word ORed in. */
  function InboundCtrl(prev: Word, ty: Word, sizeLo: Word): Word
  {
    ClearThenSet(prev, Shl(PexTypeMask, PexTypeShift), Shl(PexEnMask, PexEnShift),
                 Shl(ty, PexTypeShift), Shl(1, PexEnShift), sizeLo)
  }

  /** The new `GPEX_CLASSCODE` value of lx_pcie_setup_ctrl: the class-code
      field replaced by PCI_CLASS_BRIDGE_PCI. */
  function PatchedClassCode(prev: Word): Word
  {
    Replace(prev, Shl(ClassCodeMask, ClassCodeShift), Shl(ClassBridgePci, ClassCodeShift))
  }

  /** The writes of lx_pcie_outbound_win_set for a valid index. */
  function OutboundWrites(regs: RegFile, idx: int, ty: Word,
                          phys: Dword, busAddr: Dword, size: Dword): (evs: seq<Event>)
    ensures |evs| == 6
    ensures forall r :: !OutboundReg(r, idx) ==> NoWriteTo(evs, r)
  {
    var mask := SizeMask(size);
    [ RegWrite(AxiAmapAxiWin(idx), Lower32(phys)),
      RegWrite(ExtAxiAmapAxiWin(idx), Upper32(phys)),
      RegWrite(AxiAmapPexWinL(idx), Lower32(busAddr)),
      RegWrite(AxiAmapPexWinH(idx), Upper32(busAddr)),
      RegWrite(ExtAxiAmapSize(idx), Upper32(mask)),
      RegWrite(AxiAmapCtrl(idx), OutboundCtrl(regs[AxiAmapCtrl(idx)], ty, Lower32(mask))) ]
  }

  /** The writes of lx_pcie_inbound_win_set_rc. */
  function InboundWrites(regs: RegFile, idx: int, ty: Word,
                         phys: Dword, busAddr: Dword, size: Dword): seq<Event>
  {
    var mask := SizeMask(size);
    [ RegWrite(PexAmapCtrl(idx), InboundCtrl(regs[PexAmapCtrl(idx)], ty, Lower32(mask))),
      RegWrite(ExtPexAmapSize(idx), Upper32(mask)),
      RegWrite(PexAmapAxiWin(idx), Lower32(phys)),
      RegWrite(ExtPexAmapAxiWin(idx), Upper32(phys)),
      RegWrite(PexAmapPexWinL(idx), Lower32(busAddr)),
      RegWrite(PexAmapPexWinH(idx), Upper32(busAddr)) ]
  }

  /** The word lx_pcie_ep_inbound_win_set writes to `PAB_PEX_BAR_AMAP`:
      the lower half of the address with the enable bit 0 set. */
  function BarMapLow(phys: Dword): Word
  {
    Lower32(phys) | 1
  }

  /** The two halves lx_pcie_ep_inbound_win_set writes join to the address
      with bit 0 set. */
  lemma BarMapJoin(phys: Dword)
    ensures Join(Upper32(phys), BarMapLow(phys)) == phys | 1
  {
    JoinLowBit(phys);
  }

  /** The writes of lx_pcie_ep_setup_bar. */
  function EpBarWrites(regs: RegFile, bar: int, size: Dword): seq<Event>
  {
    if size < 4 * 1024 then []
    else EnableWrites(regs[BarEnable]) + BarSizeWrites(bar, SizeMask(size))
  }

  /** lx_pcie_ep_setup_bar's write of the BAR enables, given what
      `PCI_BAR_ENABLE` holds: all four set unless they already are. */
  function EnableWrites(enabled: Word): seq<Event>
  {
    if enabled & 0x0f != 0x0f then [RegWrite(BarEnable, 0x0f)] else []
  }

  /** lx_pcie_ep_setup_bar's writes of a BAR's size mask: the select and
      the low word for the 32-bit BARs 0 and 1, the high word too for the
      64-bit BARs 2 and 3, nothing for any other number. */
  function BarSizeWrites(bar: int, mask: Dword): seq<Event>
  {
    if bar == 0 || bar == 1 then
      [RegWrite(BarSelect, bar as Word), RegWrite(BarSizeLdw, Lower32(mask))]
    else if bar == 2 || bar == 3 then
      [RegWrite(BarSelect, bar as Word), RegWrite(BarSizeLdw, Lower32(mask)),
       RegWrite(BarSizeUdw, Upper32(mask))]
    else []
  }

  /** The truncation a width-sized store applies to the value. */
  function Truncate(v: Word, w: Width): Word
  {
    match w
    case Size8 => v & 0xFF
    case Size16 => v & 0xFFFF
    case _ => v
  }

  /** What one operation emits, given the register file it starts from. */
  function Step(regs: RegFile, op: Op): (evs: seq<Event>)
    ensures |evs| <= 6
    ensures op.Outbound? && op.idx > WinsNum ==> evs == []
    ensures op.EpBar? && op.size < 4 * 1024 ==> evs == []
  {
    match op
    case SetBits(r, bits) => [RegWrite(r, regs[r] | bits)]
    case PatchClassCode => [RegWrite(GpexClassCode, PatchedClassCode(regs[GpexClassCode]))]
    case Outbound(idx, ty, phys, busAddr, size) =>
      if idx > WinsNum then [] else OutboundWrites(regs, idx, ty, phys, busAddr, size)
    case InboundRc(idx, ty, phys, busAddr, size) =>
      InboundWrites(regs, idx, ty, phys, busAddr, size)
    case EpInbound(func, bar, phys) =>
      [RegWrite(ExtPexBarAmap(func, bar), Upper32(phys)),
       RegWrite(PexBarAmap(func, bar), BarMapLow(phys))]
    case EpBar(bar, size) => EpBarWrites(regs, bar, size)
  }

  /** The register file after one event. */
  function ApplyEvent(regs: RegFile, e: Event): RegFile
  {
    if e.RegWrite? then regs[e.reg := e.val] else regs
  }

  /** The register file after a sequence of events. */
  function Apply(regs: RegFile, evs: seq<Event>): RegFile
    decreases |evs|
  {
    if evs == [] then regs
    else ApplyEvent(Apply(regs, evs[..|evs| - 1]), evs[|evs| - 1])
  }

  /** The page the indirection window selects after a sequence of events:
      the last one selected, or `page` if none was. */
  function PageAfter(page: int, evs: seq<Event>): int
    decreases |evs|
  {
    if evs == [] then page
    else if evs[|evs| - 1].PageSelect? then evs[|evs| - 1].page
    else PageAfter(page, evs[..|evs| - 1])
  }

  /** Every event is a register write. */
  predicate AllRegWrites(evs: seq<Event>)
  {
    forall i :: 0 <= i < |evs| ==> evs[i].RegWrite?
  }

  /** No event is a register write. */
  predicate NoRegWrites(evs: seq<Event>)
  {
    forall i :: 0 <= i < |evs| ==> !evs[i].RegWrite?
  }

  /** The events a sequence of operations emits, each operation reading the
      register file its predecessors left; `step` says what one operation
      emits from a given register file. */
  function RunWith<O>(step: (RegFile, O) -> seq<Event>, regs: RegFile, ops: seq<O>): seq<Event>
    decreases |ops|, 1
  {
    RunWithBody(step, regs, ops)
  }

  /** RunWith's recursion, one operation at a time from the end. */
  function RunWithBody<O>(step: (RegFile, O) -> seq<Event>, regs: RegFile, ops: seq<O>): seq<Event>
    decreases |ops|, 0
  {
    if ops == [] then []
    else
      var before := RunWith(step, regs, ops[..|ops| - 1]);
      before + step(Apply(regs, before), ops[|ops| - 1])
  }

  /** Step as a function value. */
  function StepOf(): (RegFile, Op) -> seq<Event>
  {
    (regs: RegFile, op: Op) => Step(regs, op)
  }

  /** The events a plan of driver operations emits. */
  function Run(regs: RegFile, ops: seq<Op>): seq<Event>
  {
    RunWith(StepOf(), regs, ops)
  }

  /** Applying two runs of events one after the other is applying their
      concatenation. */
  lemma {:induction false} ApplyAppend(regs: RegFile, a: seq<Event>, b: seq<Event>)
    ensures Apply(regs, a + b) == Apply(Apply(regs, a), b)
    decreases |b|
  {
    if b == [] {
      assert a + b == a;
    } else {
      var b' := b[..|b| - 1];
      assert (a + b)[..|a + b| - 1] == a + b';
      ApplyAppend(regs, a, b');
    }
  }

  /** Running a plan one operation longer. */
  lemma RunWithSnoc<O>(step: (RegFile, O) -> seq<Event>, regs: RegFile, p: seq<O>, op: O)
    ensures RunWith(step, regs, p + [op])
         == RunWith(step, regs, p) + step(Apply(regs, RunWith(step, regs, p)), op)
  {
    assert (p + [op])[..|p + [op]| - 1] == p;
  }

  /** Running two plans one after the other emits the concatenation of what
      each emits, the second starting from the registers the first left. */
  lemma {:induction false} RunWithAppend<O>(step: (RegFile, O) -> seq<Event>, regs: RegFile,
                                            p: seq<O>, q: seq<O>)
    ensures RunWith(step, regs, p + q)
         == RunWith(step, regs, p) + RunWith(step, Apply(regs, RunWith(step, regs, p)), q)
    decreases |q|
  {
    if q == [] {
      assert p + q == p;
    } else {
      var q', op := q[..|q| - 1], q[|q| - 1];
      var first := RunWith(step, regs, p);
      var mid := RunWith(step, Apply(regs, first), q');
      calc {
        RunWith(step, regs, p + q);
        { assert p + q == (p + q') + [op]; RunWithSnoc(step, regs, p + q', op); }
        RunWith(step, regs, p + q') + step(Apply(regs, RunWith(step, regs, p + q')), op);
        { RunWithAppend(step, regs, p, q'); }
        (first + mid) + step(Apply(regs, first + mid), op);
        { ApplyAppend(regs, first, mid); }
        first + (mid + step(Apply(Apply(regs, first), mid), op));
        { assert q == q' + [op]; RunWithSnoc(step, Apply(regs, first), q', op); }
        first + RunWith(step, Apply(regs, first), q);
      }
    }
  }

  /** The empty plan emits nothing. */
  lemma RunNil(regs: RegFile)
    ensures Run(regs, []) == []
  {
    assert RunWith(StepOf(), regs, []) == RunWithBody(StepOf(), regs, []);
  }

  /** RunWithAppend for driver plans. */
  lemma RunAppend(regs: RegFile, p: seq<Op>, q: seq<Op>)
    ensures Run(regs, p + q)
         == Run(regs, p) + Run(Apply(regs, Run(regs, p)), q)
  {
    RunWithAppend(StepOf(), regs, p, q);
  }

  /** RunWithSnoc for driver plans. */
  lemma RunSnoc(regs: RegFile, p: seq<Op>, op: Op)
    ensures Run(regs, p + [op])
         == Run(regs, p) + Step(Apply(regs, Run(regs, p)), op)
  {
    RunWithSnoc(StepOf(), regs, p, op);
  }

  /** Applying one more event. */
  lemma ApplySnoc(regs: RegFile, evs: seq<Event>, e: Event)
    ensures Apply(regs, evs + [e]) == ApplyEvent(Apply(regs, evs), e)
  {
    assert (evs + [e])[..|evs + [e]| - 1] == evs;
  }

  /** No event of `evs` writes register `r`. */
  predicate NoWriteTo(evs: seq<Event>, r: Reg)
  {
    forall i :: 0 <= i < |evs| ==> !(evs[i].RegWrite? && evs[i].reg == r)
  }

  /** A register no event writes keeps its value. */
  lemma {:induction false} ApplyKeeps(regs: RegFile, evs: seq<Event>, r: Reg)
    requires NoWriteTo(evs, r)
    ensures Apply(regs, evs)[r] == regs[r]
    decreases |evs|
  {
    if evs != [] {
      ApplyKeeps(regs, evs[..|evs| - 1], r);
    }
  }

  /** A register holds the value of the last write to it. */
  lemma ApplyLastWrite(regs: RegFile, pre: seq<Event>, r: Reg, v: Word, post: seq<Event>)
    requires NoWriteTo(post, r)
    ensures Apply(regs, pre + [RegWrite(r, v)] + post)[r] == v
  {
    ApplyAppend(regs, pre + [RegWrite(r, v)], post);
    ApplySnoc(regs, pre, RegWrite(r, v));
    ApplyKeeps(Apply(regs, pre + [RegWrite(r, v)]), post, r);
  }

  /** Every event is a register write, each to a different register. */
  predicate DistinctWrites(evs: seq<Event>)
  {
    && (forall i :: 0 <= i < |evs| ==> evs[i].RegWrite?)
    && (forall i, j :: 0 <= i < j < |evs| ==> evs[i].reg != evs[j].reg)
  }

  /** After writes to distinct registers, each register holds what was
      written to it. */
  lemma ApplyDistinctWrites(regs: RegFile, evs: seq<Event>, i: int)
    requires DistinctWrites(evs)
    requires 0 <= i < |evs|
    ensures Apply(regs, evs)[evs[i].reg] == evs[i].val
  {
    var post := evs[i + 1..];
    assert evs == evs[..i] + [RegWrite(evs[i].reg, evs[i].val)] + post;
    assert NoWriteTo(post, evs[i].reg) by {
      forall k | 0 <= k < |post|
        ensures !(post[k].RegWrite? && post[k].reg == evs[i].reg)
      {
        assert post[k] == evs[i + 1 + k];
      }
    }
    ApplyLastWrite(regs, evs[..i], evs[i].reg, evs[i].val, post);
  }

  /** The page after two runs of events is the page after the second,
      started from the page the first left. */
  lemma {:induction false} PageAfterAppend(page: int, a: seq<Event>, b: seq<Event>)
    ensures PageAfter(page, a + b) == PageAfter(PageAfter(page, a), b)
    decreases |b|
  {
    if b == [] {
      assert a + b == a;
    } else {
      assert (a + b)[..|a + b| - 1] == a + b[..|b| - 1];
      PageAfterAppend(page, a, b[..|b| - 1]);
    }
  }

  /** Register file `r`, page `p` and log `l` are what the events `evs`
      leave when they happen from `r0`, `p0` and `l0`. */
  predicate After(r0: RegFile, p0: int, l0: seq<Event>, evs: seq<Event>,
                  r: RegFile, p: int, l: seq<Event>)
  {
    l == l0 + evs && r == Apply(r0, evs) && p == PageAfter(p0, evs)
  }

  /** Register file `r`, page `p` and log `l` are what the operations `ops`
      leave when they run from `r0`, `p0` and `l0`. */
  predicate Ran(r0: RegFile, p0: int, l0: seq<Event>, ops: seq<Op>,
                r: RegFile, p: int, l: seq<Event>)
  {
    After(r0, p0, l0, Run(r0, ops), r, p, l)
  }

  /** One more event. */
  lemma AfterSnoc(r0: RegFile, p0: int, l0: seq<Event>, evs: seq<Event>,
                  r: RegFile, p: int, l: seq<Event>, e: Event)
    requires After(r0, p0, l0, evs, r, p, l)
    ensures After(r0, p0, l0, evs + [e], ApplyEvent(r, e),
                  if e.PageSelect? then e.page else p, l + [e])
  {
    ApplySnoc(r0, evs, e);
    assert (evs + [e])[..|evs + [e]| - 1] == evs;
  }

  /** Doing nothing runs the empty plan. */
  lemma RanNil(r: RegFile, p: int, l: seq<Event>)
    ensures Ran(r, p, l, [], r, p, l)
  {
  }

  /** A plan of one operation emits what that operation's step emits. */
  lemma RanSingle(r0: RegFile, p0: int, l0: seq<Event>, op: Op,
                  r: RegFile, p: int, l: seq<Event>)
    requires After(r0, p0, l0, Step(r0, op), r, p, l)
    ensures Ran(r0, p0, l0, [op], r, p, l)
  {
    RunSnoc(r0, [], op);
    assert [] + [op] == [op];
    assert Run(r0, []) == [];
    assert Apply(r0, []) == r0;
    assert Run(r0, [op]) == Step(r0, op);
  }

  /** A plan of one operation that emits `evs`. */
  lemma RanOne(r0: RegFile, p0: int, l0: seq<Event>, op: Op, evs: seq<Event>,
               r: RegFile, p: int, l: seq<Event>)
    requires Step(r0, op) == evs
    requires After(r0, p0, l0, evs, r, p, l)
    ensures Ran(r0, p0, l0, [op], r, p, l)
  {
    RanSingle(r0, p0, l0, op, r, p, l);
  }

  /** Running one operation and then another runs the two of them. */
  lemma RanPair(r0: RegFile, p0: int, l0: seq<Event>, a: Op, r1: RegFile, p1: int, l1: seq<Event>,
                b: Op, r2: RegFile, p2: int, l2: seq<Event>)
    requires Ran(r0, p0, l0, [a], r1, p1, l1)
    requires Ran(r1, p1, l1, [b], r2, p2, l2)
    ensures Ran(r0, p0, l0, [a, b], r2, p2, l2)
  {
    assert [a] + [b] == [a, b];
    RanChain(r0, p0, l0, [a], r1, p1, l1, [b], r2, p2, l2);
  }

  /** Running the first `k` operations of a plan and then its next one runs
      its first `k + 1`. */
  lemma RanStep(r0: RegFile, p0: int, l0: seq<Event>, plan: seq<Op>, k: nat,
                r1: RegFile, p1: int, l1: seq<Event>, r2: RegFile, p2: int, l2: seq<Event>)
    requires k < |plan|
    requires Ran(r0, p0, l0, plan[..k], r1, p1, l1)
    requires Ran(r1, p1, l1, [plan[k]], r2, p2, l2)
    ensures Ran(r0, p0, l0, plan[..k + 1], r2, p2, l2)
  {
    TakeSnoc(plan, k);
    RanChain(r0, p0, l0, plan[..k], r1, p1, l1, [plan[k]], r2, p2, l2);
  }

  /** The first `k + 1` operations of a plan are its first `k` and then
      its operation `k`. */
  lemma TakeSnoc(ops: seq<Op>, k: int)
    requires 0 <= k < |ops|
    ensures ops[..k] + [ops[k]] == ops[..k + 1]
  {
  }

  /** A sequence is all of its first `n` elements when `n` is its length. */
  lemma TakeAll<T>(s: seq<T>, n: int)
    requires n == |s|
    ensures s[..n] == s
  {
  }

  /** No element of a sequence comes before its first. */
  lemma TakeNone<T>(s: seq<T>)
    ensures s[..0] == []
  {
  }

  /** A plan is what comes before its operation `i`, that operation, and
      what comes after. */
  lemma SplitAt(ops: seq<Op>, i: int)
    requires 0 <= i < |ops|
    ensures ops == ops[..i] + [ops[i]] + ops[i + 1..]
  {
  }

  /** Running one plan and then another runs their concatenation. */
  lemma RanChain(r0: RegFile, p0: int, l0: seq<Event>, ops1: seq<Op>,
                 r1: RegFile, p1: int, l1: seq<Event>, ops2: seq<Op>,
                 r2: RegFile, p2: int, l2: seq<Event>)
    requires Ran(r0, p0, l0, ops1, r1, p1, l1)
    requires Ran(r1, p1, l1, ops2, r2, p2, l2)
    ensures Ran(r0, p0, l0, ops1 + ops2, r2, p2, l2)
  {
    var e1 := Run(r0, ops1);
    var e2 := Run(r1, ops2);
    assert r1 == Apply(r0, e1) && p1 == PageAfter(p0, e1) && l1 == l0 + e1;
    assert r2 == Apply(r1, e2) && p2 == PageAfter(p1, e2) && l2 == l1 + e2;
    RunAppend(r0, ops1, ops2);
    assert Run(r0, ops1 + ops2) == e1 + e2;
    ApplyAppend(r0, e1, e2);
    PageAfterAppend(p0, e1, e2);
    AppendAssoc(l0, e1, e2);
  }

  lemma AppendAssoc(a: seq<Event>, b: seq<Event>, c: seq<Event>)
    ensures (a + b) + c == a + (b + c)
  {
  }

  /** Two runs of events one after the other. */
  lemma AfterChain(r0: RegFile, p0: int, l0: seq<Event>, e1: seq<Event>,
                   r1: RegFile, p1: int, l1: seq<Event>, e2: seq<Event>,
                   r2: RegFile, p2: int, l2: seq<Event>)
    requires After(r0, p0, l0, e1, r1, p1, l1)
    requires After(r1, p1, l1, e2, r2, p2, l2)
    ensures After(r0, p0, l0, e1 + e2, r2, p2, l2)
  {
    ApplyAppend(r0, e1, e2);
    PageAfterAppend(p0, e1, e2);
    AppendAssoc(l0, e1, e2);
  }

  /** The writes of lx_pcie_outbound_win_set, one by one, for an index it
      accepts. */
  lemma OutboundWritesAt(regs: RegFile, idx: int, ty: Word, phys: Dword, busAddr: Dword, size: Dword)
    ensures
      var w := OutboundWrites(regs, idx, ty, phys, busAddr, size);
      && (idx <= WinsNum ==> Step(regs, Outbound(idx, ty, phys, busAddr, size)) == w)
      && |w| == 6 && w[..6] == w && w[..0] == []
      && w[0] == RegWrite(AxiAmapAxiWin(idx), Lower32(phys))
      && w[1] == RegWrite(ExtAxiAmapAxiWin(idx), Upper32(phys))
      && w[2] == RegWrite(AxiAmapPexWinL(idx), Lower32(busAddr))
      && w[3] == RegWrite(AxiAmapPexWinH(idx), Upper32(busAddr))
      && w[4] == RegWrite(ExtAxiAmapSize(idx), Upper32(SizeMask(size)))
      && w[5] == RegWrite(AxiAmapCtrl(idx),
                          OutboundCtrl(regs[AxiAmapCtrl(idx)], ty, Lower32(SizeMask(size))))
  {
  }

  /** The first five writes of lx_pcie_outbound_win_set leave the control
      register it then reads as it was. */
  lemma OutboundKeepsCtrl(regs: RegFile, idx: int, ty: Word, phys: Dword, busAddr: Dword, size: Dword)
    ensures Apply(regs, OutboundWrites(regs, idx, ty, phys, busAddr, size)[..5])[AxiAmapCtrl(idx)]
            == regs[AxiAmapCtrl(idx)]
  {
    var w := OutboundWrites(regs, idx, ty, phys, busAddr, size);
    assert NoWriteTo(w[..5], AxiAmapCtrl(idx));
    ApplyKeeps(regs, w[..5], AxiAmapCtrl(idx));
  }

  /** The writes of lx_pcie_ep_setup_bar, one by one: the enable write
      `en`, then the size writes `sz`. */
  lemma EpBarWritesAt(regs: RegFile, bar: int, size: Dword)
    ensures
      var en := EnableWrites(regs[BarEnable]);
      var sz := BarSizeWrites(bar, SizeMask(size));
      && Step(regs, EpBar(bar, size)) == (if size < 4 * 1024 then [] else en + sz)
      && en[..0] == [] && sz[..0] == []
      && (regs[BarEnable] & 0x0f != 0x0f ==>
            |en| == 1 && en[..1] == en && en[0] == RegWrite(BarEnable, 0x0f))
      && (regs[BarEnable] & 0x0f == 0x0f ==> en == [])
      && ((bar == 0 || bar == 1) ==>
            |sz| == 2 && sz[..2] == sz
            && sz[0] == RegWrite(BarSelect, bar as Word)
            && sz[1] == RegWrite(BarSizeLdw, Lower32(SizeMask(size))))
      && ((bar == 2 || bar == 3) ==>
            |sz| == 3 && sz[..3] == sz
            && sz[0] == RegWrite(BarSelect, bar as Word)
            && sz[1] == RegWrite(BarSizeLdw, Lower32(SizeMask(size)))
            && sz[2] == RegWrite(BarSizeUdw, Upper32(SizeMask(size))))
      && (!(0 <= bar <= 3) ==> sz == [])
  {
  }

  /** The writes of lx_pcie_inbound_win_set_rc, one by one. */
  lemma InboundWritesAt(regs: RegFile, idx: int, ty: Word, phys: Dword, busAddr: Dword, size: Dword)
    ensures
      var w := InboundWrites(regs, idx, ty, phys, busAddr, size);
      && Step(regs, InboundRc(idx, ty, phys, busAddr, size)) == w
      && |w| == 6 && w[..6] == w && w[..0] == []
      && w[0] == RegWrite(PexAmapCtrl(idx),
                          InboundCtrl(regs[PexAmapCtrl(idx)], ty, Lower32(SizeMask(size))))
      && w[1] == RegWrite(ExtPexAmapSize(idx), Upper32(SizeMask(size)))
      && w[2] == RegWrite(PexAmapAxiWin(idx), Lower32(phys))
      && w[3] == RegWrite(ExtPexAmapAxiWin(idx), Upper32(phys))
      && w[4] == RegWrite(PexAmapPexWinL(idx), Lower32(busAddr))
      && w[5] == RegWrite(PexAmapPexWinH(idx), Upper32(busAddr))
  {
  }

  /** The registers of outbound window `idx`. */
  predicate OutboundReg(r: Reg, idx: int)
  {
    || r == AxiAmapAxiWin(idx) || r == ExtAxiAmapAxiWin(idx)
    || r == AxiAmapPexWinL(idx) || r == AxiAmapPexWinH(idx)
    || r == ExtAxiAmapSize(idx) || r == AxiAmapCtrl(idx)
  }

  /** The registers of inbound window `idx`. */
  predicate InboundReg(r: Reg, idx: int)
  {
    || r == PexAmapCtrl(idx) || r == ExtPexAmapSize(idx)
    || r == PexAmapAxiWin(idx) || r == ExtPexAmapAxiWin(idx)
    || r == PexAmapPexWinL(idx) || r == PexAmapPexWinH(idx)
  }

  /** The endpoint BAR setup registers. */
  predicate BarReg(r: Reg)
  {
    r == BarEnable || r == BarSelect || r == BarSizeLdw || r == BarSizeUdw
  }

  /** Operation `op` writes no register `r`, whatever the register file. */
  predicate Avoids(op: Op, r: Reg)
  {
    match op
    case SetBits(r', _) => r != r'
    case PatchClassCode => r != GpexClassCode
    case Outbound(idx, _, _, _, _) => !OutboundReg(r, idx)
    case InboundRc(idx, _, _, _, _) => !InboundReg(r, idx)
    case EpInbound(func, bar, _) => r != PexBarAmap(func, bar) && r != ExtPexBarAmap(func, bar)
    case EpBar(_, _) => !BarReg(r)
  }

  /** Avoids is what Step does. */
  lemma StepAvoids(regs: RegFile, op: Op, r: Reg)
    requires Avoids(op, r)
    ensures NoWriteTo(Step(regs, op), r)
  {
    match op
    case SetBits(_, _) =>
    case PatchClassCode =>
    case Outbound(idx, ty, phys, busAddr, size) =>
      if idx <= WinsNum {
        OutboundAvoids(regs, idx, ty, phys, busAddr, size, r);
      }
    case InboundRc(idx, ty, phys, busAddr, size) =>
      InboundAvoids(regs, idx, ty, phys, busAddr, size, r);
    case EpInbound(_, _, _) =>
    case EpBar(bar, size) =>
      EpBarAvoids(regs, bar, size, r);
  }

  lemma OutboundAvoids(regs: RegFile, idx: int, ty: Word, phys: Dword, busAddr: Dword,
                       size: Dword, r: Reg)
    requires !OutboundReg(r, idx)
    ensures NoWriteTo(OutboundWrites(regs, idx, ty, phys, busAddr, size), r)
  {
    var evs := OutboundWrites(regs, idx, ty, phys, busAddr, size);
    assert forall i :: 0 <= i < |evs| ==> OutboundReg(evs[i].reg, idx);
  }

  lemma InboundAvoids(regs: RegFile, idx: int, ty: Word, phys: Dword, busAddr: Dword,
                      size: Dword, r: Reg)
    requires !InboundReg(r, idx)
    ensures NoWriteTo(InboundWrites(regs, idx, ty, phys, busAddr, size), r)
  {
    var evs := InboundWrites(regs, idx, ty, phys, busAddr, size);
    assert forall i :: 0 <= i < |evs| ==> InboundReg(evs[i].reg, idx);
  }

  lemma EpBarAvoids(regs: RegFile, bar: int, size: Dword, r: Reg)
    requires !BarReg(r)
    ensures NoWriteTo(EpBarWrites(regs, bar, size), r)
  {
    var evs := EpBarWrites(regs, bar, size);
    assert forall i :: 0 <= i < |evs| ==> evs[i].RegWrite? && BarReg(evs[i].reg);
  }

  /** Every operation of `ops` avoids `r`. */
  predicate AllAvoid(ops: seq<Op>, r: Reg)
  {
    forall i :: 0 <= i < |ops| ==> Avoids(ops[i], r)
  }

  /** A plan whose operations all avoid a register writes it nowhere. */
  lemma {:induction false} RunAvoids(regs: RegFile, ops: seq<Op>, r: Reg)
    requires AllAvoid(ops, r)
    ensures NoWriteTo(Run(regs, ops), r)
    decreases |ops|
  {
    if ops == [] {
      RunNil(regs);
    } else {
      var p, op := ops[..|ops| - 1], ops[|ops| - 1];
      assert ops == p + [op];
      RunAvoids(regs, p, r);
      RunSnoc(regs, p, op);
      StepAvoids(Apply(regs, Run(regs, p)), op, r);
    }
  }

  /** ... so the register keeps its value. */
  lemma RunKeeps(regs: RegFile, ops: seq<Op>, r: Reg)
    requires AllAvoid(ops, r)
    ensures Apply(regs, Run(regs, ops))[r] == regs[r]
  {
    RunAvoids(regs, ops, r);
    ApplyKeeps(regs, Run(regs, ops), r);
  }

  /** Applying a single event. */
  lemma ApplyOne(regs: RegFile, e: Event)
    ensures Apply(regs, [e]) == ApplyEvent(regs, e)
  {
    assert [e][..0] == [];
  }

  /** Applying two events is applying one after the other. */
  lemma ApplyTwo(regs: RegFile, e1: Event, e2: Event)
    ensures Apply(regs, [e1, e2]) == ApplyEvent(ApplyEvent(regs, e1), e2)
  {
    assert [e1, e2][..1] == [e1];
    ApplyOne(regs, e1);
  }

  /** Applying three events is applying them one after another. */
  lemma ApplyThree(regs: RegFile, e1: Event, e2: Event, e3: Event)
    ensures Apply(regs, [e1, e2, e3]) == ApplyEvent(ApplyEvent(ApplyEvent(regs, e1), e2), e3)
  {
    assert [e1, e2, e3][..2] == [e1, e2];
    ApplyTwo(regs, e1, e2);
  }

  /** When nothing after `op` in a plan writes `r`, the plan leaves in `r`
      what `op` left there. */
  lemma Isolate(regs: RegFile, pre: seq<Op>, op: Op, post: seq<Op>, r: Reg)
    requires AllAvoid(post, r)
    ensures
      var mid := Apply(regs, Run(regs, pre));
      Apply(regs, Run(regs, pre + [op] + post))[r] == Apply(mid, Step(mid, op))[r]
  {
    var mid := Apply(regs, Run(regs, pre));
    var e1 := Run(regs, pre + [op]);
    RunSnoc(regs, pre, op);
    ApplyAppend(regs, Run(regs, pre), Step(mid, op));
    RunAppend(regs, pre + [op], post);
    ApplyAppend(regs, e1, Run(Apply(regs, e1), post));
    RunKeeps(Apply(regs, e1), post, r);
  }

  /** A read-modify-write that sets `bits` in `r`, when no other operation
      of the plan writes `r`, leaves the old value with `bits` set. */
  lemma SetBitsInPlan(regs: RegFile, pre: seq<Op>, r: Reg, bits: Word, post: seq<Op>)
    requires AllAvoid(pre, r)
    requires AllAvoid(post, r)
    ensures Apply(regs, Run(regs, pre + [SetBits(r, bits)] + post))[r] == regs[r] | bits
  {
    var mid := Apply(regs, Run(regs, pre));
    Isolate(regs, pre, SetBits(r, bits), post, r);
    RunKeeps(regs, pre, r);
    ApplyOne(mid, RegWrite(r, mid[r] | bits));
  }
}
