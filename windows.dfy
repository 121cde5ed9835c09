/** The address-translation window encoders of drivers/pci/pcie_lx.c
    (lx_pcie_outbound_win_set, lx_pcie_inbound_win_set_rc), what a window
    reads back as (lx_pcie_dump_wins), and the class-code patch of
    lx_pcie_setup_ctrl. */
module Windows {
  import opened Bits
  import opened Header
  import opened Regs

  /** The registers of one outbound window as lx_pcie_dump_wins reads them. */
  datatype WinDump = WinDump(
    physLo: Word, physHi: Word, busLo: Word, busHi: Word, extSize: Word, ctrl: Word)
  {
    /** The "SIZE" word lx_pcie_dump_wins shows: the size field of the
        control word. */
    function SizeField(): Word
    {
      ctrl & Shl(AxiSizeMask, AxiSizeShift)
    }
  }

  /** The registers of outbound window `i`, read back. */
  function ReadBack(regs: RegFile, i: int): WinDump
  {
    WinDump(
      regs[AxiAmapAxiWin(i)], regs[ExtAxiAmapAxiWin(i)],
      regs[AxiAmapPexWinL(i)], regs[AxiAmapPexWinH(i)],
      regs[ExtAxiAmapSize(i)], regs[AxiAmapCtrl(i)])
  }

  /** Named assumption on the header's layout of `PAB_AXI_AMAP_CTRL`: the
      type field, the size field and the enable bits do not overlap, and the
      size field covers every bit from its shift up to bit 31. */
  predicate AxiCtrlLayout()
  {
    && Disjoint(Shl(AxiTypeMask, AxiTypeShift), Shl(AxiSizeMask, AxiSizeShift))
    && Disjoint(Shl(AxiTypeMask, AxiTypeShift), AxiEn)
    && Disjoint(Shl(AxiSizeMask, AxiSizeShift), AxiEn)
    && Inside(Shl(0xFFFF_FFFF, AxiSizeShift), Shl(AxiSizeMask, AxiSizeShift))
  }

  /** The low mask word with its bits below the size shift cleared lies in
      the size field. */
  lemma SizeBitsInField(sizeLo: Word)
    requires AxiCtrlLayout()
    ensures Inside(AlignDown(sizeLo, AxiSizeShift), Shl(AxiSizeMask, AxiSizeShift))
  {
    AlignDownInside(sizeLo, AxiSizeShift);
    InsideTrans(AlignDown(sizeLo, AxiSizeShift), Shl(0xFFFF_FFFF, AxiSizeShift),
                Shl(AxiSizeMask, AxiSizeShift));
  }

  /** The outbound control word's type field holds the type code, masked
      with the type mask. */
  lemma OutboundTypeField(prev: Word, ty: Word, sizeLo: Word)
    requires AxiCtrlLayout()
    ensures FieldHolds(OutboundCtrl(prev, ty, sizeLo), Shl(AxiTypeMask, AxiTypeShift),
                       Place(ty, AxiTypeMask, AxiTypeShift))
  {
    PlaceInside(ty, AxiTypeMask, AxiTypeShift);
    SizeBitsInField(sizeLo);
    MergeFirstField(prev, Shl(AxiTypeMask, AxiTypeShift), Shl(AxiSizeMask, AxiSizeShift), AxiEn,
                    Place(ty, AxiTypeMask, AxiTypeShift), AlignDown(sizeLo, AxiSizeShift));
  }

  /** The outbound control word's size field holds the low mask word with
      its bits below the field cleared. */
  lemma OutboundSizeField(prev: Word, ty: Word, sizeLo: Word)
    requires AxiCtrlLayout()
    ensures FieldHolds(OutboundCtrl(prev, ty, sizeLo), Shl(AxiSizeMask, AxiSizeShift),
                       AlignDown(sizeLo, AxiSizeShift))
  {
    PlaceInside(ty, AxiTypeMask, AxiTypeShift);
    SizeBitsInField(sizeLo);
    MergeSecondField(prev, Shl(AxiTypeMask, AxiTypeShift), Shl(AxiSizeMask, AxiSizeShift), AxiEn,
                     Place(ty, AxiTypeMask, AxiTypeShift), AlignDown(sizeLo, AxiSizeShift));
  }

  /** The outbound control word has its enable bits set. */
  lemma OutboundEnabled(prev: Word, ty: Word, sizeLo: Word)
    ensures HasBits(OutboundCtrl(prev, ty, sizeLo), AxiEn)
  {
    MergeHasEn(prev, Shl(AxiTypeMask, AxiTypeShift), Shl(AxiSizeMask, AxiSizeShift), AxiEn,
               Place(ty, AxiTypeMask, AxiTypeShift), AlignDown(sizeLo, AxiSizeShift));
  }

  /** Every bit of the outbound control word outside the type, size and
      enable fields keeps its old value. */
  lemma OutboundKeepsOthers(prev: Word, ty: Word, sizeLo: Word)
    requires AxiCtrlLayout()
    ensures SameOutside3(OutboundCtrl(prev, ty, sizeLo), prev,
                        Shl(AxiTypeMask, AxiTypeShift), Shl(AxiSizeMask, AxiSizeShift), AxiEn)
  {
    PlaceInside(ty, AxiTypeMask, AxiTypeShift);
    SizeBitsInField(sizeLo);
    MergeKeepsOthers(prev, Shl(AxiTypeMask, AxiTypeShift), Shl(AxiSizeMask, AxiSizeShift), AxiEn,
                     Place(ty, AxiTypeMask, AxiTypeShift), AlignDown(sizeLo, AxiSizeShift));
  }

  /** An outbound window is programmed exactly when its index is at most
      `PAB_WINS_NUM`; otherwise nothing at all is written. */
  lemma OutboundIndexCheck(regs: RegFile, idx: int, ty: Word, phys: Dword, busAddr: Dword, size: Dword)
    ensures Step(regs, Outbound(idx, ty, phys, busAddr, size)) == [] <==> idx > WinsNum
    ensures idx <= WinsNum ==>
              Step(regs, Outbound(idx, ty, phys, busAddr, size))
              == OutboundWrites(regs, idx, ty, phys, busAddr, size)
  {
  }

  /** The registers of outbound window `idx` after lx_pcie_outbound_win_set
      hold the two address halves, the high mask word and the new control
      word. */
  lemma OutboundApplied(regs: RegFile, idx: int, ty: Word, phys: Dword, busAddr: Dword, size: Dword)
    ensures
      var after := Apply(regs, OutboundWrites(regs, idx, ty, phys, busAddr, size));
      && after[AxiAmapAxiWin(idx)] == Lower32(phys)
      && after[ExtAxiAmapAxiWin(idx)] == Upper32(phys)
      && after[AxiAmapPexWinL(idx)] == Lower32(busAddr)
      && after[AxiAmapPexWinH(idx)] == Upper32(busAddr)
      && after[ExtAxiAmapSize(idx)] == Upper32(SizeMask(size))
      && after[AxiAmapCtrl(idx)]
         == OutboundCtrl(regs[AxiAmapCtrl(idx)], ty, Lower32(SizeMask(size)))
  {
    var evs := OutboundWrites(regs, idx, ty, phys, busAddr, size);
    assert DistinctWrites(evs);
    ApplyDistinctWrites(regs, evs, 0);
    ApplyDistinctWrites(regs, evs, 1);
    ApplyDistinctWrites(regs, evs, 2);
    ApplyDistinctWrites(regs, evs, 3);
    ApplyDistinctWrites(regs, evs, 4);
    ApplyDistinctWrites(regs, evs, 5);
  }

  /** What lx_pcie_dump_wins reads back from an outbound window that
      lx_pcie_outbound_win_set programmed over the control word `prevCtrl`. */
  function OutboundDump(prevCtrl: Word, ty: Word, phys: Dword, busAddr: Dword, size: Dword): WinDump
  {
    WinDump(Lower32(phys), Upper32(phys), Lower32(busAddr), Upper32(busAddr),
            Upper32(SizeMask(size)), OutboundCtrl(prevCtrl, ty, Lower32(SizeMask(size))))
  }

  /** After lx_pcie_outbound_win_set with a valid index, the window reads
      back as OutboundDump. */
  lemma OutboundReadBack(regs: RegFile, idx: int, ty: Word, phys: Dword, busAddr: Dword, size: Dword)
    requires idx <= WinsNum
    ensures ReadBack(Apply(regs, Step(regs, Outbound(idx, ty, phys, busAddr, size))), idx)
            == OutboundDump(regs[AxiAmapCtrl(idx)], ty, phys, busAddr, size)
  {
    OutboundApplied(regs, idx, ty, phys, busAddr, size);
  }

  /** The dumped address words join into the CPU and bus base addresses. */
  lemma DumpAddrs(prevCtrl: Word, ty: Word, phys: Dword, busAddr: Dword, size: Dword)
    ensures
      var d := OutboundDump(prevCtrl, ty, phys, busAddr, size);
      Join(d.physHi, d.physLo) == phys && Join(d.busHi, d.busLo) == busAddr
  {
    SplitJoin(phys);
    SplitJoin(busAddr);
  }

  /** The size is a multiple of the size field's granule `1 << SIZE_SHIFT`:
      the low mask word has no bit below the field. */
  predicate SizeFitsField(size: Dword)
  {
    Inside(Lower32(SizeMask(size)), Shl(0xFFFF_FFFF, AxiSizeShift))
  }

  /** A control word whose size field holds the aligned low mask word of a
      size the field can hold has exactly that low mask word in the field. */
  lemma SizeFieldIsMaskWord(ctrl: Word, size: Dword)
    requires SizeFitsField(size)
    requires FieldHolds(ctrl, Shl(AxiSizeMask, AxiSizeShift), AlignDown(Lower32(SizeMask(size)), AxiSizeShift))
    ensures FieldHolds(ctrl, Shl(AxiSizeMask, AxiSizeShift), Lower32(SizeMask(size)))
  {
    AlignDownKeeps(Lower32(SizeMask(size)), AxiSizeShift);
  }

  /** Two words holding the halves of a size mask give the size back. */
  lemma MaskHalvesGiveSize(hi: Word, lo: Word, size: Dword)
    requires hi == Upper32(SizeMask(size))
    requires lo == Lower32(SizeMask(size))
    ensures SizeOfMask(Join(hi, lo)) == size
  {
    MaskWordsRoundTrip(size);
  }

  /** OutboundSizeField for the low word of a size mask. */
  lemma OutboundSizeFieldOf(prevCtrl: Word, ty: Word, size: Dword)
    requires AxiCtrlLayout()
    ensures FieldHolds(OutboundCtrl(prevCtrl, ty, Lower32(SizeMask(size))),
                       Shl(AxiSizeMask, AxiSizeShift), AlignDown(Lower32(SizeMask(size)), AxiSizeShift))
  {
    OutboundSizeField(prevCtrl, ty, Lower32(SizeMask(size)));
  }

  /** For a size the size field can hold, the dumped EXT_SIZE and SIZE
      words join into the mask `~(size - 1)` and give the size back. */
  lemma DumpSize(prevCtrl: Word, ty: Word, phys: Dword, busAddr: Dword, size: Dword)
    requires AxiCtrlLayout()
    requires SizeFitsField(size)
    ensures
      var d := OutboundDump(prevCtrl, ty, phys, busAddr, size);
      SizeOfMask(Join(d.extSize, d.SizeField())) == size
  {
    var ctrl := OutboundCtrl(prevCtrl, ty, Lower32(SizeMask(size)));
    OutboundSizeFieldOf(prevCtrl, ty, size);
    SizeFieldIsMaskWord(ctrl, size);
    MaskHalvesGiveSize(Upper32(SizeMask(size)), ctrl & Shl(AxiSizeMask, AxiSizeShift), size);
  }

  /** The window lx_pcie_dump_wins shows after lx_pcie_outbound_win_set
      gives back the CPU and bus base addresses the call was given. */
  lemma OutboundReadBackAddrs(regs: RegFile, idx: int, ty: Word, phys: Dword, busAddr: Dword, size: Dword)
    requires idx <= WinsNum
    ensures
      var d := ReadBack(Apply(regs, Step(regs, Outbound(idx, ty, phys, busAddr, size))), idx);
      Join(d.physHi, d.physLo) == phys && Join(d.busHi, d.busLo) == busAddr
  {
    OutboundReadBack(regs, idx, ty, phys, busAddr, size);
    DumpAddrs(regs[AxiAmapCtrl(idx)], ty, phys, busAddr, size);
  }

  /** For a size the size field can hold, the window lx_pcie_dump_wins shows
      after lx_pcie_outbound_win_set gives back the size. */
  lemma OutboundReadBackSize(regs: RegFile, idx: int, ty: Word, phys: Dword, busAddr: Dword, size: Dword)
    requires AxiCtrlLayout()
    requires idx <= WinsNum
    requires SizeFitsField(size)
    ensures
      var d := ReadBack(Apply(regs, Step(regs, Outbound(idx, ty, phys, busAddr, size))), idx);
      SizeOfMask(Join(d.extSize, d.SizeField())) == size
  {
    OutboundReadBack(regs, idx, ty, phys, busAddr, size);
    DumpSize(regs[AxiAmapCtrl(idx)], ty, phys, busAddr, size);
  }

  /** The type bits of the inbound control word are set. */
  lemma InboundTypeSet(prev: Word, ty: Word, sizeLo: Word)
    ensures HasBits(InboundCtrl(prev, ty, sizeLo), Shl(ty, PexTypeShift))
  {
    ClearThenSetHasA(prev, Shl(PexTypeMask, PexTypeShift), Shl(PexEnMask, PexEnShift),
                     Shl(ty, PexTypeShift), Shl(1, PexEnShift), sizeLo);
  }

  /** The enable bit of the inbound control word is set. */
  lemma InboundEnabled(prev: Word, ty: Word, sizeLo: Word)
    ensures HasBits(InboundCtrl(prev, ty, sizeLo), Shl(1, PexEnShift))
  {
    ClearThenSetHasB(prev, Shl(PexTypeMask, PexTypeShift), Shl(PexEnMask, PexEnShift),
                     Shl(ty, PexTypeShift), Shl(1, PexEnShift), sizeLo);
  }

  /** The low mask word is ORed into the inbound control word. */
  lemma InboundSizeOred(prev: Word, ty: Word, sizeLo: Word)
    ensures HasBits(InboundCtrl(prev, ty, sizeLo), sizeLo)
  {
    ClearThenSetHasC(prev, Shl(PexTypeMask, PexTypeShift), Shl(PexEnMask, PexEnShift),
                     Shl(ty, PexTypeShift), Shl(1, PexEnShift), sizeLo);
  }

  /** Every bit outside the type and enable fields and outside the bits ORed
      in keeps its old value. */
  lemma InboundKeepsOthers(prev: Word, ty: Word, sizeLo: Word)
    ensures SameOutside(InboundCtrl(prev, ty, sizeLo), prev,
                        Shl(PexTypeMask, PexTypeShift) | Shl(PexEnMask, PexEnShift)
                        | Shl(ty, PexTypeShift) | Shl(1, PexEnShift) | sizeLo)
  {
    ClearThenSetKeepsOthers(prev, Shl(PexTypeMask, PexTypeShift), Shl(PexEnMask, PexEnShift),
                            Shl(ty, PexTypeShift), Shl(1, PexEnShift), sizeLo);
  }

  /** When the shifted type code fits the type field and neither the enable
      bit nor the low mask word reaches into it, the type field holds exactly
      the type code. */
  lemma InboundTypeField(prev: Word, ty: Word, sizeLo: Word)
    requires Inside(Shl(ty, PexTypeShift), Shl(PexTypeMask, PexTypeShift))
    requires Disjoint(Shl(1, PexEnShift), Shl(PexTypeMask, PexTypeShift))
    requires Disjoint(sizeLo, Shl(PexTypeMask, PexTypeShift))
    ensures FieldHolds(InboundCtrl(prev, ty, sizeLo), Shl(PexTypeMask, PexTypeShift),
                       Shl(ty, PexTypeShift))
  {
    ClearThenSetFirstField(prev, Shl(PexTypeMask, PexTypeShift), Shl(PexEnMask, PexEnShift),
                           Shl(ty, PexTypeShift), Shl(1, PexEnShift), sizeLo);
  }

  /** The registers of inbound window `idx` after lx_pcie_inbound_win_set_rc
      hold the new control word, the high mask word and the two address
      halves. */
  lemma InboundApplied(regs: RegFile, idx: int, ty: Word, phys: Dword, busAddr: Dword, size: Dword)
    ensures
      var after := Apply(regs, InboundWrites(regs, idx, ty, phys, busAddr, size));
      && after[PexAmapCtrl(idx)]
         == InboundCtrl(regs[PexAmapCtrl(idx)], ty, Lower32(SizeMask(size)))
      && after[ExtPexAmapSize(idx)] == Upper32(SizeMask(size))
      && after[PexAmapAxiWin(idx)] == Lower32(phys)
      && after[ExtPexAmapAxiWin(idx)] == Upper32(phys)
      && after[PexAmapPexWinL(idx)] == Lower32(busAddr)
      && after[PexAmapPexWinH(idx)] == Upper32(busAddr)
  {
    var evs := InboundWrites(regs, idx, ty, phys, busAddr, size);
    assert DistinctWrites(evs);
    ApplyDistinctWrites(regs, evs, 0);
    ApplyDistinctWrites(regs, evs, 1);
    ApplyDistinctWrites(regs, evs, 2);
    ApplyDistinctWrites(regs, evs, 3);
    ApplyDistinctWrites(regs, evs, 4);
    ApplyDistinctWrites(regs, evs, 5);
  }

  /** The inbound window's address registers give back the CPU and bus base
      addresses lx_pcie_inbound_win_set_rc was given. */
  lemma InboundReadBackAddrs(regs: RegFile, idx: int, ty: Word, phys: Dword, busAddr: Dword, size: Dword)
    ensures
      var after := Apply(regs, Step(regs, InboundRc(idx, ty, phys, busAddr, size)));
      && Join(after[ExtPexAmapAxiWin(idx)], after[PexAmapAxiWin(idx)]) == phys
      && Join(after[PexAmapPexWinH(idx)], after[PexAmapPexWinL(idx)]) == busAddr
  {
    InboundApplied(regs, idx, ty, phys, busAddr, size);
    SplitJoin(phys);
    SplitJoin(busAddr);
  }

  /** Named assumption on the header's `GPEX_CLASSCODE_MASK`: the bridge
      class code fits in the class-code field. */
  predicate ClassCodeFits()
  {
    Inside(ClassBridgePci, ClassCodeMask)
  }

  /** lx_pcie_setup_ctrl leaves the bridge class code in the class-code
      field. */
  lemma ClassCodeSet(prev: Word)
    requires ClassCodeFits()
    ensures FieldHolds(PatchedClassCode(prev), Shl(ClassCodeMask, ClassCodeShift),
                       Shl(ClassBridgePci, ClassCodeShift))
  {
    ShlInside(ClassBridgePci, ClassCodeMask, ClassCodeShift);
    ReplaceSetsField(prev, Shl(ClassCodeMask, ClassCodeShift), Shl(ClassBridgePci, ClassCodeShift));
  }

  /** lx_pcie_setup_ctrl changes no bit of `GPEX_CLASSCODE` outside the
      class-code field. */
  lemma ClassCodeKeepsOthers(prev: Word)
    requires ClassCodeFits()
    ensures SameOutside(PatchedClassCode(prev), prev, Shl(ClassCodeMask, ClassCodeShift))
  {
    ShlInside(ClassBridgePci, ClassCodeMask, ClassCodeShift);
    ReplaceKeepsOthers(prev, Shl(ClassCodeMask, ClassCodeShift), Shl(ClassBridgePci, ClassCodeShift));
  }
}
