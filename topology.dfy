/** Link state and the reachability rules for configuration requests:
    lx_pcie_ltssm, lx_pcie_link_up and lx_pcie_addr_valid of
    drivers/pci/pcie_lx.c. */
module Topology {
  import opened Bits
  import opened Header

  /** A PCI address `pci_dev_t`, already split by PCI_BUS, PCI_DEV and
      PCI_FUNC into its bus, device and function numbers. */
  datatype Bdf = Bdf(bus: nat, dev: nat, func: nat)

  /** lx_pcie_ltssm: the LTSSM field of `PCIE_LTSSM_STA`, a `u32` returned
      as an `int`. */
  function Ltssm(sta: Word): (r: int)
    ensures -0x8000_0000 <= r < 0x8000_0000
    ensures (sta & LtssmStateMask) < 0x8000_0000 ==> r == (sta & LtssmStateMask) as int
    ensures (sta & LtssmStateMask) >= 0x8000_0000 ==> r < 0
  {
    ToInt32(sta & LtssmStateMask)
  }

  /** lx_pcie_link_up: the link is up unless the LTSSM state lies below L0. */
  function LinkUp(sta: Word): (up: bool)
    ensures up <==> Ltssm(sta) >= LtssmL0
  {
    if Ltssm(sta) < LtssmL0 then false else true
  }

  /** The link is up exactly when the LTSSM field, read as a `u32`, is at
      least L0, as long as that field fits in an `int`; a field with bit 31
      set turns negative on its way through lx_pcie_ltssm, and so reads as
      a link that is down whenever L0 is not negative. */
  lemma LinkUpMeans(sta: Word)
    ensures (sta & LtssmStateMask) < 0x8000_0000
            ==> (LinkUp(sta) <==> (sta & LtssmStateMask) as int >= LtssmL0)
    ensures (sta & LtssmStateMask) >= 0x8000_0000 && LtssmL0 >= 0 ==> !LinkUp(sta)
  {
  }

  /** The addresses a configuration request may go to, one case per kind of
      target: device 0 of the controller's own bus; device 0 of the bus just
      below it, once the link is up; and any device further down, once the
      link is up. */
  predicate Reachable(enabled: bool, busSeq: int, linkUp: bool, bdf: Bdf)
  {
    && enabled
    && (|| (bdf.bus == busSeq && bdf.dev == 0)
        || (bdf.bus == busSeq + 1 && linkUp && bdf.dev == 0)
        || (bdf.bus > busSeq + 1 && linkUp))
  }

  /** lx_pcie_addr_valid: 0 for an address a request may go to, otherwise
      the negated error of the first rule that rejects it. */
  function AddrValid(enabled: bool, busSeq: int, linkUp: bool, bdf: Bdf): (r: int)
    ensures r == 0 <==> Reachable(enabled, busSeq, linkUp, bdf)
    ensures r == -ENXIO <==> !enabled
    ensures r == 0 || r == -ENXIO || r == -EINVAL
    // The rules, each applying once the ones before it have passed.
    ensures enabled && bdf.bus < busSeq ==> r == -EINVAL
    ensures enabled && bdf.bus > busSeq && !linkUp ==> r == -EINVAL
    ensures enabled && bdf.bus <= busSeq + 1 && bdf.dev > 0 ==> r == -EINVAL
  {
    if !enabled then -ENXIO
    else if bdf.bus < busSeq then -EINVAL
    else if bdf.bus > busSeq && !linkUp then -EINVAL
    else if bdf.bus <= busSeq + 1 && bdf.dev > 0 then -EINVAL
    else 0
  }

  /** On the controller's own bus the link state does not matter, and only
      device 0 is reachable. */
  lemma OwnBusIgnoresLink(busSeq: int, bdf: Bdf, up1: bool, up2: bool)
    requires bdf.bus == busSeq
    ensures AddrValid(true, busSeq, up1, bdf) == AddrValid(true, busSeq, up2, bdf)
    ensures AddrValid(true, busSeq, up1, bdf) == 0 <==> bdf.dev == 0
  {
  }

  /** With the link down, nothing beyond the controller's own bus is
      reachable. */
  lemma LinkDownStaysLocal(enabled: bool, busSeq: int, bdf: Bdf)
    ensures AddrValid(enabled, busSeq, false, bdf) == 0 ==> bdf.bus == busSeq
  {
  }

  /** Bringing the link up never makes an address unreachable. */
  lemma LinkUpWidens(enabled: bool, busSeq: int, bdf: Bdf)
    ensures AddrValid(enabled, busSeq, false, bdf) == 0 ==> AddrValid(enabled, busSeq, true, bdf) == 0
  {
  }
}
