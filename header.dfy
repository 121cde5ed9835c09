/** The constants drivers/pci/pcie_lx.c takes from its header pcie_lx.h and
    from the board configuration. That header is not part of this model:
    each constant is declared here without a value, so every proof holds
    whatever the header defines. Where a proof needs a relation between
    them, it asks for it through a named predicate. */
module Header {
  import opened Bits

  const WinsNum: int                  // PAB_WINS_NUM
  const IndirectAddrBoundary: int     // INDIRECT_ADDR_BNDRY
  const LtssmL0: int                  // LTSSM_PCIE_L0
  const LtssmStateMask: Word          // LTSSM_STATE_MASK

  const AxiTypeMask: Word             // AXI_AMAP_CTRL_TYPE_MASK
  const AxiTypeShift: ShiftAmount     // AXI_AMAP_CTRL_TYPE_SHIFT
  const AxiSizeMask: Word             // AXI_AMAP_CTRL_SIZE_MASK
  const AxiSizeShift: ShiftAmount     // AXI_AMAP_CTRL_SIZE_SHIFT
  const AxiEn: Word                   // AXI_AMAP_CTRL_EN

  const PexTypeMask: Word             // PEX_AMAP_CTRL_TYPE_MASK
  const PexTypeShift: ShiftAmount     // PEX_AMAP_CTRL_TYPE_SHIFT
  const PexEnMask: Word               // PEX_AMAP_CTRL_EN_MASK
  const PexEnShift: ShiftAmount       // PEX_AMAP_CTRL_EN_SHIFT

  const ClassCodeMask: Word           // GPEX_CLASSCODE_MASK
  const ClassCodeShift: ShiftAmount   // GPEX_CLASSCODE_SHIFT
  const LutGcrRre: ShiftAmount        // PCIE_LUT_GCR_RRE

  const ApioEn: Word                  // APIO_EN
  const MemWinEn: Word                // MEM_WIN_EN
  const IoWinEn: Word                 // IO_WIN_EN
  const CfgWinEn: Word                // CFG_WIN_EN
  const PpioEn: Word                  // PPIO_EN
  const PabCtrlApioEn: Word           // PAB_CTRL_APIO_EN
  const PabCtrlPpioEn: Word           // PAB_CTRL_PPIO_EN

  const TypeCfg: Word                 // PAB_AXI_TYPE_CFG
  const TypeIo: Word                  // PAB_AXI_TYPE_IO
  const TypeMem: Word                 // PAB_AXI_TYPE_MEM
  const IbTypeMemNf: Word             // IB_TYPE_MEM_NF
  const Size1T: Dword                 // SIZE_1T

  const PageIdx: int -> int           // OFFSET_TO_PAGE_IDX
  const PageAddr: int -> int          // OFFSET_TO_PAGE_ADDR
  const TargetBus: int -> Word        // PAB_TARGET_BUS
  const TargetDev: int -> Word        // PAB_TARGET_DEV
  const TargetFunc: int -> Word       // PAB_TARGET_FUNC

  const EpMemoryBase: Dword           // CONFIG_SYS_PCI_EP_MEMORY_BASE
  const Bar0Size: Dword               // PCIE_BAR0_SIZE
  const Bar1Size: Dword               // PCIE_BAR1_SIZE
  const Bar2Size: Dword               // PCIE_BAR2_SIZE
  const Bar4Size: Dword               // PCIE_BAR4_SIZE
  const PciMemorySize: Dword          // CONFIG_SYS_PCI_MEMORY_SIZE

  /** Configuration-space register offsets of section 6.2.1 of the PCI Local
      Bus Specification 3.0. */
  const VendorIdOffset: int := 0x00   // PCI_VENDOR_ID
  const HeaderTypeOffset: int := 0x0e // PCI_HEADER_TYPE

  /** Header layout 00h, a type 0 (endpoint) function. */
  const HeaderTypeNormal: bv8 := 0    // PCI_HEADER_TYPE_NORMAL

  /** Class 06h, subclass 04h: PCI-to-PCI bridge. */
  const ClassBridgePci: Word := 0x0604  // PCI_CLASS_BRIDGE_PCI

  /** Error numbers of errno.h, returned negated. */
  const ENXIO: int := 6
  const EINVAL: int := 22
}
