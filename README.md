# rvdbg core, modelled in Dafny

This project models four parts of rvdbg, a debugger for RISC-V targets that
talks to the target over JTAG. It proves properties of each part.

- **JTAG device** (module `JTag`, `jtag_device.dfy`). This is the view of one
  TAP on a daisy-chained scan path. An IR or DR scan for the device has to
  carry bits for every other device on the chain. The device therefore:
  - pads its IR bits with all-ones for the other devices, which puts them in
    BYPASS;
  - pads its DR bits with one bit per bypassed device;
  - strips the same padding off what it captures.

  On top of these scans it:
  - checks that the IR captures binary `01`;
  - measures the DR length an instruction selects and reads that DR back;
  - surveys every IR value.
- **Bit strings** (module `BitStr`, `bitstr.dfy`). These are the `bitstr`
  operations the device uses: all-ones, all-zeros, conversion from a number,
  and splitting into numeric fields.
- **RISC-V instruction encoders** (module `RiscV`, `rv_ins.dfy`). These encode
  the loads, stores, ADDI, EBREAK and CSR accesses that the debugger injects
  into a halted hart.
- **Register bit fields** (module `Soc`, `soc_field.dfy`). This covers:
  - the sort order of a field set;
  - the vertical display of one field, which marks a value that changed since
    the previous display;
  - the horizontal display of a set of fields;
  - the standard formatting functions.
- **GD32VF103 flash driver** (module `Gd32vf103`, `gd32vf103_flash.dfy`). This
  covers:
  - the split of main flash into 1 KiB pages, followed by the boot loader area
    and the option bytes;
  - the FMC (flash memory controller) register sequences that unlock the flash,
    lock it and mass-erase it.
- `text.dfy` (module `Text`) renders numbers in decimal and hex and joins
  strings. `wrappers.dfy` holds `Option` and `Result`.

## How the model works

- **JTAG driver.** The driver is a `Driver` object. Every scan appends an
  `Event` to its `log`. A scan's answer is an oracle function `reply` of the
  transactions that came before it. So a claim about any driver is a claim for
  every possible `reply`. The chain's DR length probe (`Chain.DrLength`) is
  another oracle, `measure`, which is logged as `DrLengthProbe`.
- **Device methods.** Each device method is proved against the exact scans it
  performs. `CheckDR` and `Survey` are proved equal to pure specification
  functions of the prior log (`CheckDRSpec`, `SurveyLog` and `SurveyLines`).
  The lemmas are stated over those functions.
- **FMC.** The FMC is modelled the same way. `Fmc.Do` appends an `Access` to
  `trace`, and the oracle `respond` gives the value read or an error. `unlock`
  and `EraseAll` are proved equal to `UnlockSpec` and `EraseAllSpec`. Both are
  built on `Run`, which performs a list of register accesses and stops after
  the first one that fails.
- **Bit order.** A bit string is a `seq<bool>` whose element 0 is the first bit
  shifted, which is the least significant bit of the number it stands for.
  `ToUint` and `FromUint` convert between the two, and `Split` cuts fields off
  starting at element 0.

## Model

| member | source | states |
|---|---|---|
| JTag.IrLengthPartition | jtag/device.go:43-44 | The IR bits before a device, its own IR length and the IR bits after it add up to the IR length of the whole chain. |
| JTag.Device.NewDevice | jtag/device.go:35-48 | The device at `idx` holds that entry's name, ID and IR length. It also holds the sums of the IR lengths before and after it, `devsBefore = idx` and `devsAfter = len - idx - 1`. The IR lengths and the device counts each add up to the chain total. |
| JTag.Device.WrIR | jtag/device.go:55-60 | Does one non-capturing IR scan of ones(irlenBefore) + wr + ones(irlenAfter) and nothing else. Returns an error exactly when the driver reports one. |
| JTag.Device.RdWrIR | jtag/device.go:63-72 | Does one capturing IR scan of the padded bits. A driver error is passed through. Otherwise the result is the capture without its first irlenBefore and last irlenAfter bits, as long as `wr`. A loopback driver gives back `wr`. |
| JTag.StripPad | jtag/device.go:64-70 | Removing the padding from a padded bit string gives back the bit string. |
| JTag.Device.WrDR | jtag/device.go:75-80 | Does one non-capturing DR scan with one bypass bit per other device on each side, followed by `idle` idle cycles. Returns an error exactly when the driver reports one. |
| JTag.Device.RdWrDR | jtag/device.go:83-92 | Does one capturing DR scan. A driver error is passed through. Otherwise the result is the capture with the bypass bits removed, as long as `wr`. A loopback driver gives back `wr`. |
| JTag.Device.TestIRCapture | jtag/device.go:95-104 | Shifts all-ones into this device's IR, capturing. A driver error is passed through. Otherwise the answer is whether the device's captured IR, read as a number, has low two bits `01`. |
| JTag.CaptureIs01Bits | jtag/device.go:101-103 | A capture reads as `val & 3 == 1` exactly when its first (least significant) bit is set and its second bit, if there is one, is clear. |
| JTag.Device.GetIRLength | jtag/device.go:107-109 | This is the IR length of the device's entry on the chain. |
| JTag.Device.GetIDCode | jtag/device.go:145-147 | This is the ID code of the device's entry on the chain. |
| JTag.Device.DrLengthOf | jtag/device.go:113-118 | A failed measurement is passed through. A successful one is reduced by one bit for each of the other `len - 1` devices. |
| JTag.Device.GetDRLength | jtag/device.go:112-119 | Does exactly one DR length probe, and its result is `DrLengthOf` of the measurement. A chain measuring one bit per device gives this device a DR length of 1, which is BYPASS. |
| JTag.Device.CheckDR | jtag/device.go:122-142 | The result and the transactions performed are exactly those of `CheckDRSpec`: select `ir`, measure the DR length, then read the DR by shifting in zeros. |
| JTag.Device.CheckDRMismatch | jtag/device.go:129-135 | A measured length other than `drlen` gives an error that carries `ir`, the measured length and the expected one. No DR scan is done. |
| JTag.Device.CheckDRSwallows | jtag/device.go:123-132 | If the IR write or the length measurement fails, the result is 0 with no error, and no DR scan is done. |
| JTag.Device.CheckDRReads | jtag/device.go:136-141 | With a matching length, exactly one DR scan shifts in `drlen` zeros. A driver error from it is returned. Otherwise the result is this device's captured DR read as a number below 2^drlen. A loopback driver gives 0. |
| JTag.ZerosToUint | jtag/device.go:137-141 | A string of zeros reads as 0. |
| JTag.Device.SurveyRound | jtag/device.go:153-164 | One survey round selects `ir`. If that fails the line is "can't write ir". Otherwise it probes the DR length, and the line is "drlen unknown" or the length less the bypass bits. |
| JTag.Device.Survey | jtag/device.go:150-167 | The report is the rendered lines for IR values 0 to 2^irlen - 1, joined by newlines. The transactions are exactly those of the rounds, in order. |
| JTag.Device.SurveyLineOrder | jtag/device.go:152-165 | The survey has exactly one line per IR value, in increasing order of IR value, whatever fails along the way. |
| JTag.Device.SurveyIrWrites | jtag/device.go:152-153 | The survey shifts IR values 0, 1, ... into this device's IR, once each and in order, with every other device's IR held at all-ones. |
| JTag.Device.SurveyReportLines | jtag/device.go:151-166 | The report has 2^irlen - 1 line breaks, so it has one text line per IR value. |
| JTag.RenderOneLine | jtag/device.go:155-164 | No survey line contains a line break. |
| JTag.StrippedPad | jtag/device.go:64-71 | A successful capture of a padded bit string, once stripped, is the bit string again. A failed capture keeps its error. |
| BitStr.FromUint | jtag/device.go:124 | `FromUint(x, n)` has n bits and reads back as x mod 2^n. |
| BitStr.FromToUint | jtag/device.go:153 | Converting n bits to a number and back gives the same bits. |
| BitStr.ToFromUint | jtag/device.go:124 | Converting a number below 2^n to n bits and back gives the same number. |
| BitStr.Split | jtag/device.go:101 | Splitting into fields of the given lengths gives one number per field, each below 2 to the field's length. A single field spanning the whole string is the string's value. |
| BitStr.JoinSplit | jtag/device.go:141 | Joining the fields of a split gives back the bit string. |
| BitStr.SplitJoin | jtag/device.go:141 | Splitting a join of in-range fields gives back the fields. |
| Text.RenderRoundTrip | soc/field.go:113-131 | `%d`, `%x` and `%0Nx` output parses back to the number rendered. |
| Text.DecInjective | vendor/gigadevice/gd32vf103/flashdrv.go:43 | Different numbers have different `%d` renderings. |
| Text.JoinCount | jtag/device.go:166 | Joining n parts that contain no newline with newlines gives exactly n - 1 newlines. |
| RiscV.InsLD | cpu/riscv/rv/ins.go:36-39 | For registers below 32, the word decodes as LOAD with funct3 3, the given rd and rs1, and the low 12 bits of the offset. |
| RiscV.InsLW | cpu/riscv/rv/ins.go:41-44 | As InsLD, with funct3 2. |
| RiscV.InsLH | cpu/riscv/rv/ins.go:46-49 | As InsLD, with funct3 1. |
| RiscV.InsLB | cpu/riscv/rv/ins.go:51-54 | As InsLD, with funct3 0. |
| RiscV.InsSD | cpu/riscv/rv/ins.go:56-59 | For registers below 32, the word decodes as STORE with funct3 3, the given rs2 and rs1, and the low 12 bits of the offset put back together from the two immediate fields. |
| RiscV.InsSW | cpu/riscv/rv/ins.go:61-64 | As InsSD, with funct3 2. |
| RiscV.InsSH | cpu/riscv/rv/ins.go:66-69 | As InsSD, with funct3 1. |
| RiscV.InsSB | cpu/riscv/rv/ins.go:71-74 | As InsSD, with funct3 0. |
| RiscV.InsADDI | cpu/riscv/rv/ins.go:76-79 | For registers below 32, the word decodes as OP-IMM with funct3 0, the given rd and rs1, and the low 12 bits of the immediate. |
| RiscV.InsEBREAK | cpu/riscv/rv/ins.go:81-84 | The word decodes as SYSTEM with funct3 0, x0 in both register fields and immediate 1. |
| RiscV.InsCSRR | cpu/riscv/rv/ins.go:86-90 | For rd below 32 and a 12-bit CSR number, the word decodes as CSRRS rd, csr, x0. |
| RiscV.InsCSRW | cpu/riscv/rv/ins.go:92-96 | For rs1 below 32 and a 12-bit CSR number, the word decodes as CSRRW x0, csr, rs1. |
| RiscV.OffsetLow12Loads | cpu/riscv/rv/ins.go:37-54 | A load's encoding depends only on the offset modulo 4096. |
| RiscV.OffsetLow12Stores | cpu/riscv/rv/ins.go:57-74 | A store's encoding depends only on the offset modulo 4096. |
| RiscV.OffsetLow12Addi | cpu/riscv/rv/ins.go:77-79 | ADDI's encoding depends only on the immediate modulo 4096. |
| RiscV.OpcodeConstants | cpu/riscv/rv/ins.go:15-31 | Each of the sixteen opcode constants carries its major opcode in bits 6:0 and its funct3 in bits 14:12: LOAD/STORE for the loads and stores (funct3 is log2 of the access width), OP-IMM for ADDI, SYSTEM for EBREAK and the CSR accesses, and OP-FP with funct3 0 for the four FMV moves. |
| Soc.FieldBits | soc/field.go:63 | The bits `msb` to `lsb` of a value, moved down to bit 0, fit in `msb - lsb + 1` bits. |
| Soc.Field.constructor | soc/field.go:28-38 | A new field holds the given name, bit range, description, formatter and enumeration. Its cache starts invalid with value 0. |
| Soc.Field.Display | soc/field.go:61-96 | Caches the field's bits and returns four strings: the name column, the value column, an empty column and the description. The value column is the number and the value's name, with " *" appended exactly when the cache was valid and held a different value. |
| Soc.NumberReadsBack | soc/field.go:89-94 | Values below 10 are shown in decimal. From 10 on they are shown as `0x` followed by hex digits. Either way the text reads back as the value. |
| Soc.NameForm | soc/field.go:72-78 | After the field's name, the bracketed bit numbers contain a colon exactly when the field is wider than one bit. |
| Soc.LessIsStrictTotalOrder | soc/field.go:49-56 | `FieldSet.Less` on the entries of a field set is irreflexive, asymmetric and transitive, and orders any two entries whose (Msb, name) pairs differ. |
| Soc.BeforeIsStrictTotalOrder | soc/field.go:49-56 | `Before`, the order `Less` applies to two fields (higher Msb first, ties broken by name), is irreflexive, asymmetric and transitive. It orders any two fields whose (Msb, name) pairs differ. |
| Soc.StrLessTransitive | soc/field.go:53 | Lexicographic string order is transitive. |
| Soc.StrLessTotal | soc/field.go:53 | Of two different strings, one is lexicographically less than the other. |
| Soc.Swap | soc/field.go:47 | Exchanges elements i and j and leaves every other element alone. |
| Soc.DisplayH | soc/field.go:101-108 | The result is, for each field in order, its name, a space and its formatted bits, joined by single spaces. |
| Soc.FmtDec | soc/field.go:114-116 | Decimal digits that read back as the value. |
| Soc.FmtHex | soc/field.go:119-121 | Hex digits that read back as the value. |
| Soc.FmtHex8 | soc/field.go:124-126 | At least two hex digits that read back as the value. |
| Soc.FmtHex16 | soc/field.go:129-131 | At least four hex digits that read back as the value. |
| Gd32vf103.FlashSectors | vendor/gigadevice/gd32vf103/flashdrv.go:36-53 | Gives ceil(size/1024) pages, where page i starts at addr + 1024*i, is 1 KiB long, is named "page i" and starts inside the flash. Exactly two regions follow, boot loader area then option bytes. |
| Gd32vf103.PageCountIsCeiling | vendor/gigadevice/gd32vf103/flashdrv.go:40-45 | The page count is the least number of whole pages that covers the flash. |
| Gd32vf103.PagesCoverFlash | vendor/gigadevice/gd32vf103/flashdrv.go:40-45 | Every byte of main flash lies in exactly one page. |
| Gd32vf103.PageNamesDistinct | vendor/gigadevice/gd32vf103/flashdrv.go:43-44 | Different pages carry different names. |
| Gd32vf103.CtlMasksAreDistinctBits | vendor/gigadevice/gd32vf103/flashdrv.go:152-163 | Each `ctl` constant is a single bit, and no two of them overlap. |
| Gd32vf103.FirstFail | vendor/gigadevice/gd32vf103/flashdrv.go:118-146 | The index it gives is that of a failing access, or the number of accesses when none fails. |
| Gd32vf103.FirstFailIsFirst | vendor/gigadevice/gd32vf103/flashdrv.go:118-146 | Every access before that index succeeds. |
| Gd32vf103.RunStopsAtFirstError | vendor/gigadevice/gd32vf103/flashdrv.go:175-189 | A sequence of accesses runs up to and including the first failing one and returns its error. When none fails, it runs them all and returns no error. |
| Gd32vf103.FlashDriver.Unlock | vendor/gigadevice/gd32vf103/flashdrv.go:166-190 | The accesses performed and the error returned are exactly those of `UnlockSpec`. |
| Gd32vf103.UnlockWhenUnlocked | vendor/gigadevice/gd32vf103/flashdrv.go:171-174 | When CTL0's LK bit is clear, unlock only reads CTL0 and writes nothing. |
| Gd32vf103.UnlockWhenLocked | vendor/gigadevice/gd32vf103/flashdrv.go:175-189 | When LK is set, unlock writes KEY0 = 0x45670123, then KEY0 = 0xCDEF89AB, then CTL0 = 0. It stops at the first write that fails and returns that write's error. |
| Gd32vf103.FlashDriver.Lock | vendor/gigadevice/gd32vf103/flashdrv.go:192-194 | Does exactly one access, setting LK in CTL0, and returns its error. |
| Gd32vf103.FlashDriver.EraseAll | vendor/gigadevice/gd32vf103/flashdrv.go:110-147 | The accesses performed and the error returned are exactly those of `EraseAllSpec`. |
| Gd32vf103.EraseAllOrder | vendor/gigadevice/gd32vf103/flashdrv.go:110-147 | A failed unlock ends the erase with the unlock's error. Otherwise the erase sets MER, sets START, clears MER and sets LK, in that order, and stops at the first failing access with its error. |
| Gd32vf103.FlashDriver.NewFlashDriver | vendor/gigadevice/gd32vf103/flashdrv.go:66-77 | The driver keeps the FMC, and its sectors are the flash pages of `flashSectors`, followed by the boot loader area and then the option bytes. |
| Gd32vf103.FlashDriver.Erase | vendor/gigadevice/gd32vf103/flashdrv.go:104-107 | Sector erase always fails, with the message "TODO". |
| Gd32vf103.FlashDriver.GetAddressSize | vendor/gigadevice/gd32vf103/flashdrv.go:80-82 | Addresses are 32 bits. |
| Gd32vf103.FlashDriver.GetDefaultRegion | vendor/gigadevice/gd32vf103/flashdrv.go:85-87 | The default region is 1 KiB at address 0, with an empty name and no metadata. |

## Left out

- Bit order: a bit string is LSB-first, meaning element 0 is the first bit shifted and is bit 0 of its value. The `bitstr` package is not part of this model. LSB-first is chosen because `testIRCapture` (jtag/device.go:101-103) reads the first captured bits of an IR as the low bits `01`, which is where IEEE 1149.1 puts the fixed `01` capture pattern. Under the other order, `FromUint` and `Split` would be reversed.
- The `bitstr` operations are modelled from how `device.go` uses them. `DropHead` and `DropTail` modify the capture in place; the model computes a new sequence instead.
- The JTAG driver and the chain's DR length probe are oracles (`Driver.reply` and `Chain.measure`). The physical driver, the chain enumeration and the `irLengthBefore`/`irLengthAfter` helpers (given here as sums over the chain's TAP list) are not part of this model.
- JTag.Device.RdWrIR: requires `FullCapture()`, meaning a capture is as long as the bits shifted in. The behaviour of `DropHead`/`DropTail` on a short capture is not modelled.
- JTag.Device.RdWrDR: requires `FullCapture()`, for the same reason as RdWrIR.
- JTag.Device.TestIRCapture: requires `FullCapture()`, because it reads through RdWrIR.
- JTag.Device.CheckDR: requires `FullCapture()`, because it reads through RdWrDR. `drlen` is a `nat`. A negative expected length is not modelled. The result is an unbounded number, so Go's truncation of a DR wider than 64 bits to `uint` is not modelled.
- JTag.Device.Survey: `1 << irlen` is taken as 2^irlen. Go's `int` overflow for an IR of 63 bits or more is not modelled.
- `Device.String` is not modelled, because the `IDCode` formatting it uses is not part of this model.
- Gd32vf103.FlashSectors: addresses are unbounded. Go's `uint` wrap-around of `Addr + Size` is not modelled. The peripherals are parameters; the device's `GetPeripheral` lookup, and the nil peripheral it would give for a missing name, are not modelled.
- Gd32vf103.FlashDriver.NewFlashDriver: the error when the device has no "FMC" peripheral is not modelled, for the same reason.
- `LookupSymbol` and `GetSectors` are not modelled. The first is a `GetPeripheral` lookup and the second returns the `sectors` field.
- FMC accesses: each `Rd`, `Wr`, `Set` and `Clr` on the FMC is one entry in the access trace. The read-modify-write inside `Set` and `Clr` is not modelled.
- Gd32vf103.FlashDriver.Erase: the 100 ms sleep before it returns is not modelled. The commented-out halt and wait steps of `EraseAll` are not modelled either.
- Soc.Field.constructor: requires `lsb <= msb`. `util.Bits` is not part of this model, and the model defines a field's bits only for a non-empty range.
- Soc.DisplayH: requires every field to have a formatting function. Go would call a nil function, which panics.
- Soc.FieldBits: works on unbounded numbers. A Go `uint` register value is below 2^64, and there the two agree.
- `util.Bits` is not part of this model and appears twice, in two representations. `RiscV.Bits` works on `bv64`, because the instruction encoders combine its result with shifts and ors. `Soc.FieldBits` works on `nat`, because a field value is shown and compared as a number. The model does not prove that the two agree.
- Number rendering (`%d`, `%x`, `%0Nx`) is modelled concretely in module `Text`, with lower-case hex digits. `%s` (soc/field.go:75, 77, 91, 93 and 105) is modelled as plain string concatenation in `NameText`, `ValueText` and `Entry`.
- String order: Go's `strings.Compare` compares UTF-8 bytes. The model compares characters, which gives the same order for valid UTF-8.
- The JLink driver wraps a C library over USB and is not modelled. The SoC command-line handlers are user interface. The interrupt description is a plain record with no behaviour.
