# NXP LX PCIe controller driver, modelled in Dafny

This project models the U-Boot driver for the PCIe controllers of NXP LX
SoCs, `drivers/pci/pcie_lx.c`. It covers:

- the link-state test;
- the rules that decide which bus, device and function a configuration
  request may reach;
- how a configuration access is steered to its address, through a CCSR
  page or the outbound config window;
- configuration reads and writes, including the LUT retry-enable toggle
  around Vendor ID and Header Type reads;
- the outbound and inbound address-translation windows, and what a dump of
  them reads back;
- the Root Complex setup and the Endpoint setup (BARs, BAR windows, the
  outbound memory window);
- the probe that picks one of the two setups from the controller's own
  header type.

## Structure

- `bits.dfy`, module `Bits`: 32- and 64-bit words.
  - `lower_32_bits`/`upper_32_bits`, u64 wrap-around and the window-size
    mask `~(size - 1)`.
  - Shifts, written out one bit at a time.
  - Predicates that state bit facts about fields: inside, holds, same
    outside, has bits, disjoint.
- `header.dfy`, module `Header`: the constants of the driver's header and
  of the board configuration.
  - They are declared without values, so every proof holds for any values
    the header gives them.
  - The PCI configuration-space offsets and errno values are fixed.
- `regs.dfy`, module `Regs`: the register file, as a total map from
  symbolic register identities to 32-bit words.
  - What the controller observes is a sequence of `Event`s: register
    writes, page selects, data loads and stores.
  - Each register operation the driver is built from is an `Op`.
  - `Step` gives the events one `Op` emits, reading the register file it
    starts from, as the driver's read-modify-writes do.
  - `Run` gives the events of a whole plan of `Op`s.
  - `Apply` folds events into the register file.
  - `After` and `Ran` relate a controller state to an old one through such
    a run.
- `topology.dfy`, module `Topology`: `lx_pcie_ltssm`, `lx_pcie_link_up`
  and `lx_pcie_addr_valid`.
  - `Reachable` is an independent statement of the reachability rules.
  - `AddrValid` is proved equal to 0 exactly on the reachable addresses.
- `config.dfy`, module `Config`: `lx_pcie_cfg_set_target`,
  `lx_pcie_conf_address`, `lx_pcie_read_config` and
  `lx_pcie_write_config`, as functions from the inputs to the return code,
  the stored value and the events.
- `windows.dfy`, module `Windows`: the control words the window setters
  build and the class-code patch, field by field. Also the read-back of a
  window as `lx_pcie_dump_wins` reads it.
- `setup.dfy`, module `Setup`: the plans of `lx_pcie_setup_wins`,
  `lx_pcie_setup_ctrl`, `lx_pcie_ep_setup_*`, `lx_pcie_setup_ep` and
  `lx_pcie_probe`. Also lemmas on what each plan leaves in the registers
  at the end of the probe, in either mode.
- `controller.dfy`, module `Driver`: class `Controller`, the driver state
  `struct lx_pcie`.
  - `enabled` and `stream_id_cur` are mutable fields.
  - So are the register file, the CCSR page and the event log.
  - The bus sequence number and the LTSSM status word are `const` fields,
    because the driver never changes them.
  - The config resource is a `const` field too. This is an abstraction:
    the probe fills `cfg_res` from the device tree
    (drivers/pci/pcie_lx.c:419-420), while the model fixes it when the
    controller is constructed.
  - Each driver function that accesses registers is a method that changes
    this state one access at a time. Its `ensures` ties the new state to
    the function or plan that specifies it in the modules above.
  - `lx_pcie_ltssm`, `lx_pcie_link_up` and `lx_pcie_addr_valid` read no
    state the model changes, so they are the functions `Topology.Ltssm`,
    `Topology.LinkUp` and `Topology.AddrValid`, which the methods call.

## Model

| member | source | states |
|---|---|---|
| `Bits.UintToInt` | drivers/pci/pcie_lx.c:218-231 | The `uint` offset handed on as an `int` keeps its value exactly when it is below 2^31, and from 2^31 on becomes the value minus 2^32. It always lies in the `int` range. |
| `Bits.MaskWordsRoundTrip` | drivers/pci/pcie_lx.c:58-65 | The two mask words the window setters write give the size back. |
| `Bits.HighRunIffPow2` | drivers/pci/pcie_lx.c:58-59 | The mask `~(size - 1)` is a run of high ones exactly when the size is a power of two (or 0). The driver does not check this. |
| `Bits.MaskSelectsWindow` | drivers/pci/pcie_lx.c:58-75 | For a power-of-two size and an aligned base, an address matches the mask exactly when it lies inside the window. |
| `Regs.Step` | drivers/pci/pcie_lx.c:49-103 | One register operation writes at most six registers. An outbound window with `idx > PAB_WINS_NUM` and a BAR below 4 KiB emit nothing. |
| `Regs.OutboundWrites` | drivers/pci/pcie_lx.c:58-75 | Six writes, none to a register outside outbound window `idx`. |
| `Regs.BarMapJoin` | drivers/pci/pcie_lx.c:304-309 | The two words written to the BAR map registers join to the address with bit 0 set. |
| `Regs.SetBitsInPlan` | drivers/pci/pcie_lx.c:294-297 | A read-modify-write that ORs in `bits` into a register no other operation of the plan touches leaves its old value with exactly `bits` added. |
| `Topology.Ltssm` | drivers/pci/pcie_lx.c:23-30 | The LTSSM field of the status word, returned through an `int`: always in the `int` range, equal to the field when the field is below 2^31, and negative otherwise. |
| `Topology.LinkUp` | drivers/pci/pcie_lx.c:32-41 | Up exactly when the LTSSM state is at least L0. |
| `Topology.LinkUpMeans` | drivers/pci/pcie_lx.c:23-41 | The link is up exactly when the LTSSM field is at least L0. A field with bit 31 set becomes negative on its way through the `int` return, so it reads as link down. |
| `Topology.AddrValid` | drivers/pci/pcie_lx.c:173-191 | 0 exactly on the addresses `Reachable` lists. -ENXIO exactly when the controller is disabled. Otherwise -EINVAL, one rule at a time. |
| `Topology.OwnBusIgnoresLink` | drivers/pci/pcie_lx.c:181-188 | On the own bus the link state does not matter, and only device 0 is valid: the device-0 rule applies to the own bus too. |
| `Topology.LinkDownStaysLocal` | drivers/pci/pcie_lx.c:184-185 | With the link down, only the own bus is valid. |
| `Topology.LinkUpWidens` | drivers/pci/pcie_lx.c:184-185 | Bringing the link up never invalidates an address. |
| `Config.ConfAddress` | drivers/pci/pcie_lx.c:193-216 | The access goes through the CCSR exactly when the bus is the controller's own bus, after a single page select. Any other bus goes through the config window at the offset, after the target writes of `lx_pcie_cfg_set_target`. |
| `Config.ConfAddressOwnBus` | drivers/pci/pcie_lx.c:199-207 | On the own bus there is no `RegWrite` event, only the page select. Offsets below the boundary go through page 0 at the offset, higher ones through their own page at the page address. |
| `Config.ConfAddressOtherBus` | drivers/pci/pcie_lx.c:43-47 | On another bus, outbound window 0's PCIe address becomes the packed target with a zero upper half. No other register and no page changes, and the access goes through the config window. |
| `Config.ConfAddressQuiet` | drivers/pci/pcie_lx.c:193-216 | Steering an access never writes the LUT and never touches configuration space. |
| `Config.AllOnes` | drivers/pci/pcie_lx.c:226-227 | The value `pci_get_ff` gives is the all-ones word cut to the access width, and is never 0. |
| `Config.ReadConfig` | drivers/pci/pcie_lx.c:218-255 | Returns 0 or -EINVAL, -EINVAL exactly for a valid address with an unsupported width. A value is stored exactly when 0 is returned. An invalid address stores the width's all-ones value with no event. |
| `Config.WriteConfig` | drivers/pci/pcie_lx.c:257-282 | Hands no value back. Returns 0 or -EINVAL, -EINVAL exactly for a valid address with an unsupported width. An invalid address emits no event. |
| `Config.ReadInvalid` | drivers/pci/pcie_lx.c:226-229 | An invalid address reads as the width's all-ones value, with return 0 and no event. |
| `Config.ReadTogglesLut` | drivers/pci/pcie_lx.c:233-252 | For Vendor ID and Header Type, the LUT GCR is written 0 just before the load and `1 << RRE` just after it, and holds the latter at the end. |
| `Config.ReadLeavesLut` | drivers/pci/pcie_lx.c:233-252 | Any other offset never writes the LUT. |
| `Config.ReadUnsupported` | drivers/pci/pcie_lx.c:231-254 | An unsupported width still steers the access and toggles the LUT, but loads nothing, stores nothing and returns -EINVAL. |
| `Config.TruncateFits` | drivers/pci/pcie_lx.c:236-245 | A value cut to an access width fits that width. |
| `Config.ReadValue` | drivers/pci/pcie_lx.c:218-255 | Return 0 exactly when the address is invalid or the width supported. A successful read stores the loaded value cut to the width, and every stored value fits the width. |
| `Config.WriteOutcome` | drivers/pci/pcie_lx.c:257-282 | Never writes the LUT. An invalid address gives 0 and no event. A supported width stores the value cut to the width and returns 0. Any other width stores nothing and returns -EINVAL. |
| `Windows.SizeBitsInField` | drivers/pci/pcie_lx.c:72-73 | `(size_l >> SHIFT) << SHIFT` lies in the size field, given the header's control-word layout. |
| `Windows.OutboundTypeField` | drivers/pci/pcie_lx.c:67-75 | The outbound control word's type field holds the masked type code. |
| `Windows.OutboundSizeField` | drivers/pci/pcie_lx.c:67-75 | Its size field holds the low mask word with the bits below the field cleared. |
| `Windows.OutboundEnabled` | drivers/pci/pcie_lx.c:70-73 | Its enable bits are set. |
| `Windows.OutboundKeepsOthers` | drivers/pci/pcie_lx.c:67-75 | Every bit outside the type, size and enable fields keeps its old value. |
| `Windows.OutboundIndexCheck` | drivers/pci/pcie_lx.c:55-56 | Nothing is written exactly when `idx > PAB_WINS_NUM`, so index `PAB_WINS_NUM` itself is accepted. Otherwise all six writes are made. |
| `Windows.OutboundApplied` | drivers/pci/pcie_lx.c:61-75 | Afterwards, the window's registers hold the address halves, the high mask word and the new control word. |
| `Windows.OutboundReadBack` | drivers/pci/pcie_lx.c:105-127 | After a setter call with a valid index, the dump of that window reads back `OutboundDump` of the call's arguments. |
| `Windows.DumpAddrs` | drivers/pci/pcie_lx.c:111-118 | The dumped address words join into the CPU and bus base addresses. |
| `Windows.DumpSize` | drivers/pci/pcie_lx.c:119-123 | For a size the size field can hold, the dumped EXT_SIZE and SIZE words give the size back. |
| `Windows.OutboundReadBackAddrs` | drivers/pci/pcie_lx.c:49-78 | A programmed window reads back the base addresses it was given. |
| `Windows.OutboundReadBackSize` | drivers/pci/pcie_lx.c:49-78 | A programmed window reads back the size it was given, when the size field can hold it. |
| `Windows.InboundTypeSet` | drivers/pci/pcie_lx.c:88-94 | The shifted type bits are set in the inbound control word. |
| `Windows.InboundEnabled` | drivers/pci/pcie_lx.c:91-94 | The enable bit `1 << EN_SHIFT` is set. |
| `Windows.InboundSizeOred` | drivers/pci/pcie_lx.c:93-94 | The low mask word is ORed in. |
| `Windows.InboundKeepsOthers` | drivers/pci/pcie_lx.c:86-94 | Every bit outside the cleared fields and the ORed values keeps its old value. |
| `Windows.InboundTypeField` | drivers/pci/pcie_lx.c:88-90 | When nothing else ORed in reaches the type field, that field holds exactly the type code. |
| `Windows.InboundApplied` | drivers/pci/pcie_lx.c:86-100 | Afterwards, the window's six registers hold the control word, the high mask word and the address halves. |
| `Windows.InboundReadBackAddrs` | drivers/pci/pcie_lx.c:80-103 | The inbound window's address registers give back the base addresses it was given, for any index. |
| `Windows.ClassCodeSet` | drivers/pci/pcie_lx.c:288-292 | The class-code field holds PCI_CLASS_BRIDGE_PCI, given that it fits the field. |
| `Windows.ClassCodeKeepsOthers` | drivers/pci/pcie_lx.c:288-292 | No bit outside the class-code field changes. |
| `Setup.PresentWinsCount` | drivers/pci/pcie_lx.c:144-170 | One window per region present, each for a region reported. |
| `Setup.RegionWinsAt` | drivers/pci/pcie_lx.c:146-168 | The region windows go to consecutive indices, in order. |
| `Setup.RegionWinsSnoc` | drivers/pci/pcie_lx.c:146-168 | One more region appends its window at the next index. |
| `Setup.WinsPlanSnoc` | drivers/pci/pcie_lx.c:146-168 | The same one level up: one more region appends its window at index one past the windows before it. |
| `Setup.SetupWinsPlan` | drivers/pci/pcie_lx.c:129-171 | Two operations more than the regions present: inbound window 0 over 1 TiB, outbound window 0 over the config resource, then outbound windows numbered from 1 in plan order. |
| `Setup.WinsPlanIndices` | drivers/pci/pcie_lx.c:146-168 | After the inbound and config windows, the operation at position `k` is outbound window `k - 1`. |
| `Setup.WinsPlanShape` | drivers/pci/pcie_lx.c:129-171 | Inbound window 0 over 1 TiB, then outbound window 0 over the config resource, then region `k` at index `k + 1`. |
| `Setup.WinsPlanAvoids` | drivers/pci/pcie_lx.c:129-171 | Only the operation at position `j + 1` touches outbound window `j`. |
| `Setup.SetupWinsConfigWindow` | drivers/pci/pcie_lx.c:137-142 | After setup_wins, window 0 reads back as the config window. |
| `Setup.SetupWinsRegionWindow` | drivers/pci/pcie_lx.c:146-170 | After setup_wins, window `k + 1` reads back as the `k`-th region present. |
| `Setup.EnableWritesSet` | drivers/pci/pcie_lx.c:340-342 | The BAR-enable nibble ends all set, and it is written exactly when it was not already all set. |
| `Setup.BarSizeWritesSet` | drivers/pci/pcie_lx.c:344-356 | BARs 0 to 3 are selected and get the low mask word. 2 and 3 also get the high word, while 0 and 1 leave it alone. |
| `Setup.EpBarEffect` | drivers/pci/pcie_lx.c:331-357 | Below 4 KiB nothing happens. Otherwise the enables end set, BAR select and the size words are as above, and for 64-bit BARs the two words give back the size. |
| `Setup.EpSetupBarsPlan` | drivers/pci/pcie_lx.c:359-369 | Four BAR operations, for BAR numbers 0, 1, 2 and 3 in that order. |
| `Setup.EpBarEnableStep` | drivers/pci/pcie_lx.c:331-342 | One BAR setup, seen from `PCI_BAR_ENABLE`: below 4 KiB no register changes. Otherwise the low nibble ends set. A nibble already set leaves the register as it was, and in every case the register keeps its value or becomes 0x0f. |
| `Setup.EpSetupBarsEnables` | drivers/pci/pcie_lx.c:359-369 | After the four BARs, the low nibble of `PCI_BAR_ENABLE` is set as soon as one BAR is at least 4 KiB. When none is, no register changes at all. The register ends as it was or as 0x0f, and as it was when its nibble was already set. |
| `Setup.EpSetupBarsLast` | drivers/pci/pcie_lx.c:359-369 | When BAR4 is at least 4 KiB, the BAR setup ends with BAR number 3 selected and BAR4's 64-bit size mask in the two size words, which give BAR4's size back. |
| `Setup.EpSetupBarsKeeps` | drivers/pci/pcie_lx.c:359-369 | The BAR setup changes no register other than the BAR enable, select and size registers. |
| `Setup.EpInboundApplied` | drivers/pci/pcie_lx.c:304-309 | The high address half goes to the extended BAR map and the low half with bit 0 to the BAR map. |
| `Setup.EpInboundInPlan` | drivers/pci/pcie_lx.c:304-309 | The same holds in a plan when nothing later touches those registers. |
| `Setup.PexEnableAfter` | drivers/pci/pcie_lx.c:468-470 | After a setup that leaves it alone, `PAB_PEX_PIO_CTRL(0)` gets PPIO_EN added. |
| `Setup.PabEnableAfter` | drivers/pci/pcie_lx.c:472-475 | After a setup that leaves it alone, `PAB_CTRL` gets APIO and PPIO added. |
| `Setup.ProbeEnables` | drivers/pci/pcie_lx.c:463-475 | In either mode, the probe ends with PPIO added in `PAB_PEX_PIO_CTRL(0)` and APIO and PPIO added in `PAB_CTRL`, every other bit kept. |
| `Setup.ProbeRcPio` | drivers/pci/pcie_lx.c:294-297 | As a Root Complex, `PAB_AXI_PIO_CTRL(0)` ends with APIO and the memory, I/O and config window enables added, every other bit kept. |
| `Setup.ProbeRcClassCode` | drivers/pci/pcie_lx.c:288-292 | As a Root Complex, `GPEX_CLASSCODE` ends patched. |
| `Setup.ProbeRcClassField` | drivers/pci/pcie_lx.c:288-292 | As a Root Complex, the class-code field ends holding the bridge class and the rest of the register unchanged. |
| `Setup.ProbeEpPio` | drivers/pci/pcie_lx.c:378-381 | As an Endpoint, `PAB_AXI_PIO_CTRL(0)` ends with APIO and the memory window enable added (`EpPioEnables`), every other bit kept. |
| `Setup.ProbeEpClassCode` | drivers/pci/pcie_lx.c:463-466 | As an Endpoint, the class code is left as it was. |
| `Setup.ProbeRcConfigWindow` | drivers/pci/pcie_lx.c:137-142 | As a Root Complex, outbound window 0 ends reading back as the config window over the config resource. |
| `Setup.ProbeRcRegionWindow` | drivers/pci/pcie_lx.c:146-168 | As a Root Complex, outbound window `k + 1` ends reading back as the `k`-th region's window. |
| `Setup.ProbeEpWindow` | drivers/pci/pcie_lx.c:327-329 | As an Endpoint, outbound window 0 ends reading back as a memory window of CONFIG_SYS_PCI_MEMORY_SIZE from the config start to bus address 0. |
| `Setup.ProbeEpBarRegs` | drivers/pci/pcie_lx.c:311-325 | As an Endpoint, BAR window `b` of function 1 ends holding the halves of `EpBarTarget(b)`, bit 0 set in the low one. |
| `Setup.ProbePlan` | drivers/pci/pcie_lx.c:458-475 | Ends with the two PIO enables in either mode, and starts with the class-code patch exactly in Root Complex mode. |
| `Setup.ProbeRan` | drivers/pci/pcie_lx.c:458-475 | The header-type read, the chosen setup and the PIO enables, run one after the other, emit the read followed by the probe plan. |
| `Driver.Controller.constructor` | drivers/pci/pcie_lx.c:384-395 | A zeroed, disabled controller over the given hardware state. |
| `Driver.Controller.CfgSetTarget` | drivers/pci/pcie_lx.c:43-47 | Emits the two target writes. |
| `Driver.Controller.ConfAddress` | drivers/pci/pcie_lx.c:193-216 | Returns the address `Config.ConfAddress` resolves, having emitted its events. |
| `Driver.Controller.LutToggle` | drivers/pci/pcie_lx.c:233-234 | Emits the LUT write for a Vendor ID or Header Type offset, nothing otherwise. |
| `Driver.Controller.Load` | drivers/pci/pcie_lx.c:236-249 | A sized load for a supported width, returning 0 and the value cut to the width. Otherwise nothing, -EINVAL and no stored value. |
| `Driver.Controller.ReadConfig` | drivers/pci/pcie_lx.c:218-255 | Return code, stored value and emitted events are those of `Config.ReadConfig`, for the controller's enabled flag, bus number and link state. |
| `Driver.Controller.WriteConfig` | drivers/pci/pcie_lx.c:257-282 | Return code and events are those of `Config.WriteConfig`. |
| `Driver.Controller.OutboundWinSet` | drivers/pci/pcie_lx.c:49-78 | -EINVAL exactly when `idx > PAB_WINS_NUM`, else 0. The state is that after the window operation, so nothing is written on the error path. |
| `Driver.Controller.InboundWinSetRc` | drivers/pci/pcie_lx.c:80-103 | Always 0, with the six writes made for any index. |
| `Driver.Controller.DumpWins` | drivers/pci/pcie_lx.c:105-127 | What is read back for windows 0 to `n - 1`, and nothing for `n <= 0`. |
| `Driver.Controller.RegionWin` | drivers/pci/pcie_lx.c:146-168 | A present region gets the next window and advances `idx`. An absent one changes nothing. |
| `Driver.Controller.SetupWins` | drivers/pci/pcie_lx.c:129-171 | Runs `SetupWinsPlan` over the config resource and the regions, then dumps one window per region present plus the config window. |
| `Driver.Controller.SetRegBits` | drivers/pci/pcie_lx.c:294-297 | One read-modify-write that sets bits. |
| `Driver.Controller.FixClassCode` | drivers/pci/pcie_lx.c:288-292 | The class-code patch. |
| `Driver.Controller.CtrlPrologue` | drivers/pci/pcie_lx.c:288-297 | The class-code patch, then the Root Complex window enables. |
| `Driver.Controller.SetupCtrlRegs` | drivers/pci/pcie_lx.c:284-299 | Runs `SetupCtrlPlan`, with the dump of setup_wins. |
| `Driver.Controller.SetupCtrl` | drivers/pci/pcie_lx.c:284-302 | Runs `SetupCtrlPlan` and resets `stream_id_cur` to 0. |
| `Driver.Controller.EpInboundWinSet` | drivers/pci/pcie_lx.c:304-309 | The BAR window operation. |
| `Driver.Controller.EpSetupWins` | drivers/pci/pcie_lx.c:311-330 | Runs `EpSetupWinsPlan` over the config start. |
| `Driver.Controller.EnableBars` | drivers/pci/pcie_lx.c:340-342 | Writes 0x0f to `PCI_BAR_ENABLE` exactly when its low nibble was not all set. |
| `Driver.Controller.WriteBarSize` | drivers/pci/pcie_lx.c:344-356 | The select and size writes of the BAR number's case. |
| `Driver.Controller.EpSetupBar` | drivers/pci/pcie_lx.c:331-357 | The BAR operation, which does nothing below 4 KiB. |
| `Driver.Controller.EpSetupBars` | drivers/pci/pcie_lx.c:359-369 | Runs `EpSetupBarsPlan`. |
| `Driver.Controller.SetupEp` | drivers/pci/pcie_lx.c:371-382 | Runs `SetupEpPlan`: BARs, windows, then the Endpoint window enables. |
| `Driver.Controller.EnablePio` | drivers/pci/pcie_lx.c:468-475 | The two PIO enables. |
| `Driver.Controller.ProbeEpRegs` | drivers/pci/pcie_lx.c:463-475 | The Endpoint setup, then the PIO enables. |
| `Driver.Controller.ProbeRcRegs` | drivers/pci/pcie_lx.c:465-475 | The Root Complex setup, then the PIO enables. `stream_id_cur` is reset. |
| `Driver.Controller.ProbeSetup` | drivers/pci/pcie_lx.c:458-481 | Reads the header type, then runs `ProbePlan` for the mode the header type selects. `stream_id_cur` is reset only as a Root Complex, and `link` is `lx_pcie_link_up`. |
| `Driver.Controller.Probe` | drivers/pci/pcie_lx.c:384-482 | A failed ccsr lookup returns its error before `enabled` is touched. `enabled` becomes the SerDes state, and a disabled controller returns 0. A failed config, lut or pf_ctrl lookup returns its error, leaving `enabled` set. None of these paths makes any access. Otherwise it returns 0 after the header-type read and the mode's `ProbePlan`. |

## Notes on the model

- `lx_pcie_read_config` with an unsupported width still resolves the
  address (selecting the page or aiming the config window). For Vendor ID
  and Header Type it still toggles the LUT. Only then does it return
  -EINVAL. `lx_pcie_write_config` likewise steers before returning -EINVAL.
- The device-0 rule of `lx_pcie_addr_valid` (`PCI_BUS(bdf) <= seq + 1`)
  covers the controller's own bus as well as the bus just below it.
- `lx_pcie_outbound_win_set` rejects `idx > PAB_WINS_NUM`, so it accepts
  index `PAB_WINS_NUM` itself. The model keeps that bound as written.
  `lx_pcie_inbound_win_set_rc` checks no index. Neither setter checks that
  the size is a power of two; `Bits.HighRunIffPow2` says what the mask is
  otherwise.
- A probe that fails a resource lookup after the SerDes check returns the
  error with `enabled` still set.
- The Endpoint BAR windows are placed as the code computes them:
  - BAR0 at CONFIG_SYS_PCI_EP_MEMORY_BASE;
  - BAR1 at base + PCIE_BAR1_SIZE;
  - BAR2 at base + PCIE_BAR1_SIZE + PCIE_BAR2_SIZE;
  - BAR4, programmed as BAR window 3, at base + PCIE_BAR4_SIZE.

  These sums wrap at 64 bits. The model states this placement and nothing
  about whether the windows overlap.
- The header type selects the Endpoint setup when its low seven bits are
  PCI_HEADER_TYPE_NORMAL.

## Left out

- The driver header `pcie_lx.h` and the board configuration are not part
  of this model. Their constants are declared without values, and the few
  lemmas that need a relation between them ask for it explicitly:
  `Windows.AxiCtrlLayout` and `Windows.ClassCodeFits`.
- Register offsets and banks: registers are distinct symbolic identities,
  assumed not to alias.
- Memory-mapped I/O and endianness: `big_endian`, `ccsr_readl`/`ccsr_writel`
  byte order, `map_physmem`. A register read is the register file's value.
  What a data load returns is an input (`data`).
- Device-tree resource lookup (`fdt_get_named_resource`) and the SerDes
  query (`is_serdes_configured`): their outcomes are inputs to
  `Driver.Controller.Probe`. The "config" resource (`cfg_res`) is fixed
  when the controller is constructed.
- The controller index (`pcie->idx`) computed from the CCSR address is
  used only in messages and the SerDes query, so it is left out.
- `list_add` onto the global controller list, and U-Boot driver-model
  registration (`U_BOOT_DRIVER`, `lx_pcie_ops`, `lx_pcie_ids`).
- `pci_get_regions`: the io, mem and prefetchable regions are inputs.
- `printf` and `debug` output. `Driver.Controller.DumpWins` returns what
  would be printed rather than printing it.
- The negotiated link width and speed printed at the end of the probe.
  They are only printed, so `Driver.Controller.Probe` returns the link
  state instead.
- The LTSSM status is one word fixed for the life of the controller. The
  link does not change during a probe or an access.
- Concurrency: each call runs alone.
- `ccsr_set_page`: its body is in `pcie_lx.h`, which is not part of this
  model. A page select is a `PageSelect` event that sets the model's
  separate CCSR page field. Whatever the helper does to registers (such as
  a read-modify-write of `PAB_CTRL`) is not modelled.
