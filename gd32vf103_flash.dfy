/** Flash driver of the GigaDevice GD32VF103: the page layout of the flash
    and the register sequences that unlock, lock and mass-erase it through
    the flash memory controller (FMC). */
module Gd32vf103 {
  import opened Wrappers
  import Text

  const KiB: nat := 1024

  /** A peripheral of the device description: a named address range. */
  datatype Peripheral = Peripheral(name: string, addr: nat, size: nat)

  /** A memory region; `meta` is the text of its flash metadata, if any. */
  datatype Region = Region(name: string, addr: nat, size: nat, meta: Option<string>)

  // ---------------------------------------------------------------------------
  // Sectors

  /** The number of 1 KiB pages needed to cover `size` bytes. */
  function PageCount(size: nat): nat
  {
    (size + KiB - 1) / KiB
  }

  /** Page `i` of the main flash. */
  function Page(flash: Peripheral, i: nat): Region
  {
    Region(flash.name, flash.addr + KiB * i, KiB, Some("page " + Text.Dec(i)))
  }

  /** The page count is the least number of whole pages covering the flash. */
  lemma PageCountIsCeiling(size: nat)
    ensures PageCount(size) * KiB >= size
    ensures PageCount(size) == 0 || (PageCount(size) - 1) * KiB < size
  {
  }

  /** Every byte of the main flash lies in exactly one page: the page of its
      offset divided by 1 KiB. */
  lemma PagesCoverFlash(flash: Peripheral, off: nat)
    requires off < flash.size
    ensures off / KiB < PageCount(flash.size)
    ensures Page(flash, off / KiB).addr <= flash.addr + off < Page(flash, off / KiB).addr + KiB
    ensures forall i :: 0 <= i < PageCount(flash.size) && i != off / KiB ==>
              !(Page(flash, i).addr <= flash.addr + off < Page(flash, i).addr + KiB)
  {
    var q := off / KiB;
    forall i | 0 <= i < PageCount(flash.size) && i != q
      ensures !(Page(flash, i).addr <= flash.addr + off < Page(flash, i).addr + KiB)
    {
      if i < q {
        assert KiB * i + KiB <= KiB * q;
      } else {
        assert KiB * q + KiB <= KiB * i;
      }
    }
  }

  /** Distinct pages carry distinct names. */
  lemma PageNamesDistinct(flash: Peripheral, i: nat, j: nat)
    requires i != j
    ensures Page(flash, i).meta != Page(flash, j).meta
  {
    var a := "page " + Text.Dec(i);
    var b := "page " + Text.Dec(j);
    if a == b {
      assert a[5..] == Text.Dec(i) && b[5..] == Text.Dec(j);
      Text.DecInjective(i, j);
    }
  }

  lemma PageBound(size: nat, i: nat)
    requires KiB * i >= size
    requires i == 0 || KiB * (i - 1) < size
    ensures i == PageCount(size)
  {
  }

  /** `flashSectors`: the main flash as consecutive 1 KiB pages named
      "page 0", "page 1", ..., followed by the boot loader area and the
      option bytes. */
  method FlashSectors(flash: Peripheral, boot: Peripheral, option: Peripheral) returns (r: seq<Region>)
    ensures |r| == PageCount(flash.size) + 2
    ensures forall i :: 0 <= i < PageCount(flash.size) ==> r[i] == Page(flash, i)
    ensures forall i :: 0 <= i < PageCount(flash.size) ==> r[i].addr < flash.addr + flash.size
    ensures r[|r| - 2] == Region(boot.name, boot.addr, boot.size, Some("boot loader area"))
    ensures r[|r| - 1] == Region(option.name, option.addr, option.size, Some("option bytes"))
  {
    r := [];
    // main flash
    var sectorSize := KiB;
    var i: nat := 0;
    var addr := flash.addr;
    while addr < flash.addr + flash.size
      invariant addr == flash.addr + KiB * i
      invariant i == 0 || KiB * (i - 1) < flash.size
      invariant |r| == i
      invariant forall k :: 0 <= k < i ==> r[k] == Page(flash, k) && r[k].addr < flash.addr + flash.size
      decreases flash.addr + flash.size - addr
    {
      r := r + [Region(flash.name, addr, sectorSize, Some("page " + Text.Dec(i)))];
      i := i + 1;
      addr := addr + sectorSize;
    }
    PageBound(flash.size, i);
    // boot
    r := r + [Region(boot.name, boot.addr, boot.size, Some("boot loader area"))];
    // option
    r := r + [Region(option.name, option.addr, option.size, Some("option bytes"))];
  }

  // ---------------------------------------------------------------------------
  // FMC_CTL0 bits

  const ctlENDIE: bv32 := 1 << 12  // end of operation interrupt enable
  const ctlERRIE: bv32 := 1 << 10  // error interrupt enable
  const ctlOBWEN: bv32 := 1 << 9   // option byte erase/program enable
  const ctlLK: bv32 := 1 << 7      // lock
  const ctlSTART: bv32 := 1 << 6   // start an erase
  const ctlOBER: bv32 := 1 << 5    // option bytes erase
  const ctlOBPG: bv32 := 1 << 4    // option bytes program
  const ctlMER: bv32 := 1 << 2     // main flash mass erase
  const ctlPER: bv32 := 1 << 1     // main flash page erase
  const ctlPG: bv32 := 1 << 0      // main flash program

  const ctlMasks: seq<bv32> := [ctlENDIE, ctlERRIE, ctlOBWEN, ctlLK, ctlSTART, ctlOBER, ctlOBPG, ctlMER, ctlPER, ctlPG]

  /** Each control bit is a single bit, and no two of them overlap. */
  lemma CtlMasksAreDistinctBits()
    ensures forall i :: 0 <= i < |ctlMasks| ==> ctlMasks[i] != 0 && ctlMasks[i] & (ctlMasks[i] - 1) == 0
    ensures forall i, j :: 0 <= i < j < |ctlMasks| ==> ctlMasks[i] & ctlMasks[j] == 0
  {
  }

  const key1: bv32 := 0x4567_0123
  const key2: bv32 := 0xCDEF_89AB

  // ---------------------------------------------------------------------------
  // Register access through the FMC

  /** One access to a named FMC register: a read, a write, or setting or
      clearing the bits of a mask. */
  datatype Access = Rd(reg: string) | Wr(reg: string, value: bv32) | Set(reg: string, mask: bv32) | Clr(reg: string, mask: bv32)

  /** The FMC as the debugger sees it: every access is appended to `trace`,
      and its outcome (the value read, or an error message) is whatever the
      target answers, given all accesses before it. */
  class Fmc {
    var trace: seq<Access>
    const respond: (seq<Access>, Access) -> Result<bv32, string>

    constructor (respond: (seq<Access>, Access) -> Result<bv32, string>)
      ensures trace == [] && this.respond == respond
    {
      trace := [];
      this.respond := respond;
    }

    method Do(a: Access) returns (r: Result<bv32, string>)
      modifies this
      ensures trace == old(trace) + [a]
      ensures r == respond(old(trace), a)
    {
      r := respond(trace, a);
      trace := trace + [a];
    }
  }

  /** Performs `steps` in order after history `h`, stopping after the first
      one that fails; gives the history afterwards and the error, if any. */
  function Run(respond: (seq<Access>, Access) -> Result<bv32, string>, h: seq<Access>, steps: seq<Access>): (seq<Access>, Option<string>)
    decreases |steps|
  {
    if steps == [] then (h, None)
    else
      var r := respond(h, steps[0]);
      if r.Err? then (h + [steps[0]], Some(r.error))
      else Run(respond, h + [steps[0]], steps[1..])
  }

  /** Every step before `n` succeeds. */
  ghost predicate AllOk(respond: (seq<Access>, Access) -> Result<bv32, string>, h: seq<Access>, steps: seq<Access>, n: nat)
    requires n <= |steps|
  {
    forall k :: 0 <= k < n ==> respond(h + steps[..k], steps[k]).Ok?
  }

  /** The index of the first step that fails, or the number of steps if none does. */
  function FirstFail(respond: (seq<Access>, Access) -> Result<bv32, string>, h: seq<Access>, steps: seq<Access>): (n: nat)
    ensures n <= |steps|
    ensures n < |steps| ==> respond(h + steps[..n], steps[n]).Err?
    decreases |steps|
  {
    if steps == [] || respond(h, steps[0]).Err? then
      assert h + steps[..0] == h;
      0
    else
      var m := FirstFail(respond, h + [steps[0]], steps[1..]);
      assert m < |steps| - 1 ==> h + steps[..m + 1] == h + [steps[0]] + steps[1..][..m];
      1 + m
  }

  /** All steps before the one `FirstFail` names succeed, so it is the first that fails. */
  lemma {:induction false} FirstFailIsFirst(respond: (seq<Access>, Access) -> Result<bv32, string>, h: seq<Access>, steps: seq<Access>)
    ensures AllOk(respond, h, steps, FirstFail(respond, h, steps))
    decreases |steps|
  {
    if steps != [] && respond(h, steps[0]).Ok? {
      var h1 := h + [steps[0]];
      var rest := steps[1..];
      FirstFailIsFirst(respond, h1, rest);
      var n := FirstFail(respond, h, steps);
      forall k | 0 <= k < n
        ensures respond(h + steps[..k], steps[k]).Ok?
      {
        if k > 0 {
          assert h + steps[..k] == h1 + rest[..k - 1];
        } else {
          assert h + steps[..k] == h;
        }
      }
    }
  }

  /** `Run` performs the steps up to and including the first failing one and
      returns that step's error; when no step fails it performs them all. */
  lemma {:induction false} RunStopsAtFirstError(respond: (seq<Access>, Access) -> Result<bv32, string>, h: seq<Access>, steps: seq<Access>)
    ensures var n := FirstFail(respond, h, steps);
      Run(respond, h, steps) ==
        if n == |steps| then (h + steps, None)
        else (h + steps[..n + 1], Some(respond(h + steps[..n], steps[n]).error))
    decreases |steps|
  {
    if steps != [] {
      var h1 := h + [steps[0]];
      var rest := steps[1..];
      if respond(h, steps[0]).Err? {
        assert h + steps[..1] == h1;
        assert h + steps[..0] == h;
        assert FirstFail(respond, h, steps) == 0;
        assert Run(respond, h, steps) == (h1, Some(respond(h, steps[0]).error));
      } else {
        RunStopsAtFirstError(respond, h1, rest);
        var m := FirstFail(respond, h1, rest);
        assert FirstFail(respond, h, steps) == m + 1;
        assert Run(respond, h, steps) == Run(respond, h1, rest);
        if m == |rest| {
          assert h1 + rest == h + steps;
        } else {
          assert rest[m] == steps[m + 1];
          assert h1 + rest[..m + 1] == h + steps[..m + 2];
          assert h1 + rest[..m] == h + steps[..m + 1];
        }
      }
    } else {
      assert h + steps == h;
    }
  }

  /** The writes that unlock a locked flash: the two keys, then clearing CTL0. */
  const unlockSteps: seq<Access> := [Wr("KEY0", key1), Wr("KEY0", key2), Wr("CTL0", 0)]

  /** The steps of a mass erase after unlocking. */
  const eraseSteps: seq<Access> := [Set("CTL0", ctlMER), Set("CTL0", ctlSTART), Clr("CTL0", ctlMER), Set("CTL0", ctlLK)]

  /** `unlock`: read CTL0; if the lock bit is set, write the unlock sequence. */
  function UnlockSpec(respond: (seq<Access>, Access) -> Result<bv32, string>, h: seq<Access>): (seq<Access>, Option<string>)
  {
    var rd := respond(h, Rd("CTL0"));
    var h1 := h + [Rd("CTL0")];
    if rd.Err? then (h1, Some(rd.error))
    else if rd.value & ctlLK == 0 then (h1, None)
    else Run(respond, h1, unlockSteps)
  }

  /** `EraseAll`: unlock, then set MER, set START, clear MER and lock. */
  function EraseAllSpec(respond: (seq<Access>, Access) -> Result<bv32, string>, h: seq<Access>): (seq<Access>, Option<string>)
  {
    var (h1, e) := UnlockSpec(respond, h);
    if e.Some? then (h1, e) else Run(respond, h1, eraseSteps)
  }

  /** An already unlocked flash is left alone: only CTL0 is read. */
  lemma UnlockWhenUnlocked(respond: (seq<Access>, Access) -> Result<bv32, string>, h: seq<Access>)
    requires respond(h, Rd("CTL0")).Ok? && respond(h, Rd("CTL0")).value & ctlLK == 0
    ensures UnlockSpec(respond, h) == (h + [Rd("CTL0")], None)
  {
  }

  /** A locked flash gets the two keys and the CTL0 clear, in that order;
      the first of them that fails ends the sequence and gives the error. */
  lemma UnlockWhenLocked(respond: (seq<Access>, Access) -> Result<bv32, string>, h: seq<Access>)
    requires respond(h, Rd("CTL0")).Ok? && respond(h, Rd("CTL0")).value & ctlLK != 0
    ensures var h1 := h + [Rd("CTL0")];
      var n := FirstFail(respond, h1, unlockSteps);
      UnlockSpec(respond, h) ==
        if n == 3 then (h + [Rd("CTL0"), Wr("KEY0", 0x4567_0123), Wr("KEY0", 0xCDEF_89AB), Wr("CTL0", 0)], None)
        else (h1 + unlockSteps[..n + 1], Some(respond(h1 + unlockSteps[..n], unlockSteps[n]).error))
  {
    RunStopsAtFirstError(respond, h + [Rd("CTL0")], unlockSteps);
    assert h + [Rd("CTL0")] + unlockSteps == h + [Rd("CTL0"), Wr("KEY0", 0x4567_0123), Wr("KEY0", 0xCDEF_89AB), Wr("CTL0", 0)];
  }

  /** After a successful unlock, a mass erase is exactly set MER, set START,
      clear MER, set LK, stopping at the first access that fails; a failed
      unlock ends the erase with the unlock's error. */
  lemma EraseAllOrder(respond: (seq<Access>, Access) -> Result<bv32, string>, h: seq<Access>)
    ensures var (h1, e1) := UnlockSpec(respond, h);
      var n := FirstFail(respond, h1, eraseSteps);
      EraseAllSpec(respond, h) ==
        if e1.Some? then (h1, e1)
        else if n == 4 then (h1 + [Set("CTL0", 1 << 2), Set("CTL0", 1 << 6), Clr("CTL0", 1 << 2), Set("CTL0", 1 << 7)], None)
        else (h1 + eraseSteps[..n + 1], Some(respond(h1 + eraseSteps[..n], eraseSteps[n]).error))
  {
    var (h1, e1) := UnlockSpec(respond, h);
    RunStopsAtFirstError(respond, h1, eraseSteps);
  }

  // ---------------------------------------------------------------------------
  // The driver

  class FlashDriver {
    const fmc: Fmc
    const sectors: seq<Region>

    /** `NewFlashDriver`, given the FMC and the flash, boot and option
        peripherals of the device. */
    constructor NewFlashDriver(fmc: Fmc, flash: Peripheral, boot: Peripheral, option: Peripheral)
      ensures this.fmc == fmc
      ensures |sectors| == PageCount(flash.size) + 2
      ensures forall i :: 0 <= i < PageCount(flash.size) ==> sectors[i] == Page(flash, i)
      ensures sectors[|sectors| - 2] == Region(boot.name, boot.addr, boot.size, Some("boot loader area"))
      ensures sectors[|sectors| - 1] == Region(option.name, option.addr, option.size, Some("option bytes"))
    {
      this.fmc := fmc;
      var s := FlashSectors(flash, boot, option);
      sectors := s;
    }

    /** `unlock`. */
    method Unlock() returns (err: Option<string>)
      modifies fmc
      ensures (fmc.trace, err) == UnlockSpec(fmc.respond, old(fmc.trace))
    {
      ghost var h := fmc.trace;
      var ctl := fmc.Do(Rd("CTL0"));
      if ctl.Err? {
        return Some(ctl.error);
      }
      if ctl.value & ctlLK == 0 {
        // already unlocked
        return None;
      }
      // write the unlock sequence
      ghost var h1 := fmc.trace;
      assert unlockSteps[1..][1..] == [Wr("CTL0", 0)];
      var r := fmc.Do(Wr("KEY0", key1));
      if r.Err? {
        return Some(r.error);
      }
      assert Run(fmc.respond, h1, unlockSteps) == Run(fmc.respond, fmc.trace, unlockSteps[1..]);
      r := fmc.Do(Wr("KEY0", key2));
      if r.Err? {
        return Some(r.error);
      }
      assert Run(fmc.respond, h1, unlockSteps) == Run(fmc.respond, fmc.trace, [Wr("CTL0", 0)]);
      // clear any set CR bits
      r := fmc.Do(Wr("CTL0", 0));
      if r.Err? {
        return Some(r.error);
      }
      return None;
    }

    /** `lock`. */
    method Lock() returns (err: Option<string>)
      modifies fmc
      ensures (fmc.trace, err) == Run(fmc.respond, old(fmc.trace), [Set("CTL0", ctlLK)])
    {
      var r := fmc.Do(Set("CTL0", ctlLK));
      err := if r.Err? then Some(r.error) else None;
    }

    /** `EraseAll`. */
    method EraseAll() returns (err: Option<string>)
      modifies fmc
      ensures (fmc.trace, err) == EraseAllSpec(fmc.respond, old(fmc.trace))
    {
      err := Unlock();
      if err.Some? {
        return;
      }
      ghost var h1 := fmc.trace;
      assert eraseSteps[1..][1..] == [Clr("CTL0", ctlMER), Set("CTL0", ctlLK)];
      // set the mass erase bit
      var r := fmc.Do(Set("CTL0", ctlMER));
      if r.Err? {
        return Some(r.error);
      }
      assert Run(fmc.respond, h1, eraseSteps) == Run(fmc.respond, fmc.trace, eraseSteps[1..]);
      // set the start bit
      r := fmc.Do(Set("CTL0", ctlSTART));
      if r.Err? {
        return Some(r.error);
      }
      assert Run(fmc.respond, h1, eraseSteps) == Run(fmc.respond, fmc.trace, [Clr("CTL0", ctlMER), Set("CTL0", ctlLK)]);
      // clear the mass erase bit
      r := fmc.Do(Clr("CTL0", ctlMER));
      if r.Err? {
        return Some(r.error);
      }
      // lock the flash
      err := Lock();
    }

    /** `Erase`: sector erase is not implemented and always fails. */
    function Erase(r: Region): (err: Option<string>)
      ensures err.Some? && err.value == "TODO"
    {
      Some("TODO")
    }

    /** `GetAddressSize`: addresses are 32 bits wide. */
    function GetAddressSize(): (bits: nat)
      ensures bits == 32
    {
      32
    }

    /** `GetDefaultRegion`: the first KiB of the address space. */
    function GetDefaultRegion(): (r: Region)
      ensures r.addr == 0 && r.size == 1024 && r.name == "" && r.meta.None?
    {
      Region("", 0, KiB, None)
    }
  }
}
