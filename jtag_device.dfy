/** One TAP (test access port) on a daisy-chained JTAG scan path.

    All TAPs of a chain share one serial path, so an IR or DR scan for one
    device has to carry bits for every other device as well. The device puts
    every other TAP into BYPASS by shifting all-ones into their instruction
    registers (IEEE 1149.1, clause 8.4), which leaves a one-bit data register
    in each of them; the padding around this device's bits is therefore the
    IR bits of the other devices for IR scans, and one bit per other device
    for DR scans. */
module JTag {
  import opened Wrappers
  import opened BitStr
  import Text

  /** A TAP as found by chain enumeration. */
  datatype TapInfo = TapInfo(name: string, id: nat, irLength: nat)

  datatype Error =
    | Transport(reason: string)
    | DrLengthMismatch(ir: nat, measured: int, expected: int)

  /** One transaction on the scan path, in the order the driver sees them.
      `DrLengthProbe` is the chain's measurement of the current DR length. */
  datatype Event =
    | IrScan(tdi: seq<bool>, capture: bool)
    | DrScan(tdi: seq<bool>, idle: nat, capture: bool)
    | DrLengthProbe

  function ErrorOf<T>(r: Result<T, Error>): (e: Option<Error>)
    ensures e.Some? <==> r.Err?
  {
    match r
    case Ok(_) => None
    case Err(err) => Some(err)
  }

  /** Sum of the IR lengths of a run of TAPs. */
  function IrLengthSum(taps: seq<TapInfo>): nat
  {
    if taps == [] then 0 else taps[0].irLength + IrLengthSum(taps[1..])
  }

  /** IR bits of the devices in front of device `idx`. */
  function IrLengthBefore(info: seq<TapInfo>, idx: nat): nat
    requires idx < |info|
  {
    IrLengthSum(info[..idx])
  }

  /** IR bits of the devices behind device `idx`. */
  function IrLengthAfter(info: seq<TapInfo>, idx: nat): nat
    requires idx < |info|
  {
    IrLengthSum(info[idx + 1..])
  }

  lemma {:induction false} IrLengthSumAppend(a: seq<TapInfo>, b: seq<TapInfo>)
    ensures IrLengthSum(a + b) == IrLengthSum(a) + IrLengthSum(b)
  {
    if a != [] {
      assert (a + b)[1..] == a[1..] + b;
      IrLengthSumAppend(a[1..], b);
    } else {
      assert a + b == b;
    }
  }

  /** The IR bits before a device, its own IR and the IR bits after it make up
      the whole chain's IR length. */
  lemma IrLengthPartition(info: seq<TapInfo>, idx: nat)
    requires idx < |info|
    ensures IrLengthBefore(info, idx) + info[idx].irLength + IrLengthAfter(info, idx)
            == IrLengthSum(info)
  {
    var pre, rest := info[..idx], info[idx..];
    assert info == pre + rest;
    IrLengthSumAppend(pre, rest);
    assert rest[0] == info[idx] && rest[1..] == info[idx + 1..];
  }

  /** The chain-wide scan input for `wr`: `n` ones in front and `m` ones behind. */
  function Pad(n: nat, wr: seq<bool>, m: nat): (tdi: seq<bool>)
    ensures |tdi| == n + |wr| + m
  {
    Ones(n) + wr + Ones(m)
  }

  /** A capture with `n` bits removed from its head and `m` from its tail. */
  function Strip(tdo: seq<bool>, n: nat, m: nat): (rd: seq<bool>)
    requires n + m <= |tdo|
    ensures |rd| == |tdo| - n - m
    ensures forall i :: 0 <= i < |rd| ==> rd[i] == tdo[n + i]
  {
    tdo[n..|tdo| - m]
  }

  /** Stripping the padding off a padded bit string gives back the bit string. */
  lemma StripPad(n: nat, wr: seq<bool>, m: nat)
    ensures Strip(Pad(n, wr, m), n, m) == wr
  {
  }

  /** The reply to a capturing scan with the other devices' bits removed. */
  function Stripped(reply: Result<seq<bool>, Error>, n: nat, m: nat): (r: Result<seq<bool>, Error>)
    requires reply.Ok? ==> n + m <= |reply.value|
    ensures r.Err? <==> reply.Err?
    ensures r.Err? ==> r.error == reply.error
    ensures r.Ok? ==> r.value == Strip(reply.value, n, m)
  {
    match reply
    case Ok(tdo) => Ok(Strip(tdo, n, m))
    case Err(e) => Err(e)
  }

  /** Stripping a successful capture of a padded bit string gives back the
      bit string, and a failed capture keeps its error: what `RdWrIR` and
      `RdWrDR` return under a loopback driver, or after any driver error. */
  lemma StrippedPad(n: nat, wr: seq<bool>, m: nat, e: Error)
    ensures Stripped(Ok(Pad(n, wr, m)), n, m) == Ok(wr)
    ensures Stripped(Err(e), n, m) == Err(e)
  {
    StripPad(n, wr, m);
  }

  /** The JTAG driver that performs raw scans on the physical chain. What it
      answers is left open: `reply` gives the answer to a scan from the
      transactions that came before it. */
  class Driver {
    var log: seq<Event>
    const reply: (seq<Event>, Event) -> Result<seq<bool>, Error>

    constructor (reply: (seq<Event>, Event) -> Result<seq<bool>, Error>)
      ensures log == [] && this.reply == reply
    {
      this.reply := reply;
      log := [];
    }

    /** A capture is exactly as long as the bit string shifted in. */
    ghost predicate FullCapture()
    {
      forall h: seq<Event>, e: Event ::
        (e.IrScan? || e.DrScan?) && e.capture && reply(h, e).Ok? ==> |reply(h, e).value| == |e.tdi|
    }

    /** A loopback driver: every scan captures what was shifted in. */
    ghost predicate Loopback()
    {
      forall h: seq<Event>, e: Event :: (e.IrScan? || e.DrScan?) ==> reply(h, e) == Ok(e.tdi)
    }

    method ScanIR(tdi: seq<bool>, capture: bool) returns (r: Result<seq<bool>, Error>)
      modifies this
      ensures log == old(log) + [IrScan(tdi, capture)]
      ensures r == reply(old(log), IrScan(tdi, capture))
    {
      r := reply(log, IrScan(tdi, capture));
      log := log + [IrScan(tdi, capture)];
    }

    method ScanDR(tdi: seq<bool>, idle: nat, capture: bool) returns (r: Result<seq<bool>, Error>)
      modifies this
      ensures log == old(log) + [DrScan(tdi, idle, capture)]
      ensures r == reply(old(log), DrScan(tdi, idle, capture))
    {
      r := reply(log, DrScan(tdi, idle, capture));
      log := log + [DrScan(tdi, idle, capture)];
    }
  }

  /** The whole scan path: the enumerated TAPs in chain order and the driver.
      `measure` is the chain's DR length probe, given the transactions so far
      (the DR length depends on the instructions every device holds). */
  class Chain {
    const info: seq<TapInfo>
    const drv: Driver
    const measure: seq<Event> -> Result<int, Error>

    constructor (info: seq<TapInfo>, drv: Driver, measure: seq<Event> -> Result<int, Error>)
      ensures this.info == info && this.drv == drv && this.measure == measure
    {
      this.info := info;
      this.drv := drv;
      this.measure := measure;
    }

    method DrLength() returns (r: Result<int, Error>)
      modifies drv
      ensures drv.log == old(drv.log) + [DrLengthProbe]
      ensures r == measure(old(drv.log))
    {
      r := measure(drv.log);
      drv.log := drv.log + [DrLengthProbe];
    }
  }

  /** Go's `val&3 == 1` on the number a capture stands for. */
  predicate CaptureIs01(rd: seq<bool>)
  {
    ToUint(rd) % 4 == 1
  }

  /** The captured IR ends in binary 01 exactly when its first bit (the least
      significant one) is set and its second bit, if there is one, is clear. */
  lemma CaptureIs01Bits(rd: seq<bool>)
    ensures CaptureIs01(rd) <==> |rd| >= 1 && rd[0] && (|rd| == 1 || !rd[1])
  {
    if |rd| >= 2 {
      var b0 := if rd[0] then 1 else 0;
      var b1 := if rd[1] then 1 else 0;
      var rest := ToUint(rd[2..]);
      assert rd[1..][1..] == rd[2..];
      assert ToUint(rd) == b0 + 2 * b1 + 4 * rest;
      ModUnique(ToUint(rd), 4, rest, b0 + 2 * b1);
    } else if |rd| == 1 {
      assert rd[1..] == [];
    }
  }

  lemma ZerosToUint(n: nat)
    ensures ToUint(Zeros(n)) == 0
  {
    if n > 0 {
      assert Zeros(n)[1..] == Zeros(n - 1);
      ZerosToUint(n - 1);
    }
  }

  /** One line of a survey report. */
  datatype SurveyLine =
    | CantWriteIR(ir: nat)
    | DrLenUnknown(ir: nat)
    | DrLen(ir: nat, drlen: int)

  function Render(line: SurveyLine): string
  {
    match line
    case CantWriteIR(ir) => "ir " + Text.Dec(ir) + " can't write ir"
    case DrLenUnknown(ir) => "ir " + Text.Dec(ir) + " drlen unknown"
    case DrLen(ir, n) => "ir " + Text.Dec(ir) + " drlen " + Text.DecInt(n)
  }

  /** No report line contains a line break. */
  lemma RenderOneLine(line: SurveyLine)
    ensures forall i :: 0 <= i < |Render(line)| ==> Render(line)[i] != '\n'
  {
  }

  function RenderAll(lines: seq<SurveyLine>): (r: seq<string>)
    ensures |r| == |lines|
  {
    if lines == [] then [] else RenderAll(lines[..|lines| - 1]) + [Render(lines[|lines| - 1])]
  }

  lemma RenderAllAppend(lines: seq<SurveyLine>, line: SurveyLine)
    ensures RenderAll(lines + [line]) == RenderAll(lines) + [Render(line)]
  {
    assert (lines + [line])[..|lines|] == lines;
  }

  lemma {:induction false} RenderAllLines(lines: seq<SurveyLine>)
    ensures forall k, i :: 0 <= k < |lines| && 0 <= i < |RenderAll(lines)[k]| ==> RenderAll(lines)[k][i] != '\n'
    decreases |lines|
  {
    if lines != [] {
      RenderAllLines(lines[..|lines| - 1]);
      RenderOneLine(lines[|lines| - 1]);
    }
  }

  /** The bit strings shifted into IR, in the order they were shifted. */
  function IrWrites(log: seq<Event>): seq<seq<bool>>
  {
    if log == [] then []
    else (if log[0].IrScan? then [log[0].tdi] else []) + IrWrites(log[1..])
  }

  lemma {:induction false} IrWritesAppend(a: seq<Event>, b: seq<Event>)
    ensures IrWrites(a + b) == IrWrites(a) + IrWrites(b)
  {
    if a != [] {
      assert (a + b)[1..] == a[1..] + b;
      IrWritesAppend(a[1..], b);
    } else {
      assert a + b == b;
    }
  }

  /** A view of one device on a chain. All its fields are fixed when it is made. */
  class Device {
    const idx: nat
    const chain: Chain
    const drv: Driver
    const name: string
    const idcode: nat
    const irlen: nat
    const irlenBefore: nat
    const irlenAfter: nat
    const devsBefore: nat
    const devsAfter: nat

    ghost predicate Valid()
    {
      && idx < |chain.info|
      && drv == chain.drv
      && name == chain.info[idx].name
      && idcode == chain.info[idx].id
      && irlen == chain.info[idx].irLength
      && irlenBefore == IrLengthBefore(chain.info, idx)
      && irlenAfter == IrLengthAfter(chain.info, idx)
      && devsBefore == idx
      && devsAfter == |chain.info| - idx - 1
      && irlenBefore + irlen + irlenAfter == IrLengthSum(chain.info)
      && devsBefore + 1 + devsAfter == |chain.info|
    }

    /** The device at position `idx` of `ch`. */
    constructor NewDevice(ch: Chain, idx: nat)
      requires idx < |ch.info|
      ensures Valid() && chain == ch && this.idx == idx
    {
      this.idx := idx;
      chain := ch;
      drv := ch.drv;
      name := ch.info[idx].name;
      idcode := ch.info[idx].id;
      irlen := ch.info[idx].irLength;
      irlenBefore := IrLengthBefore(ch.info, idx);
      irlenAfter := IrLengthAfter(ch.info, idx);
      devsBefore := idx;
      devsAfter := |ch.info| - idx - 1;
      new;
      IrLengthPartition(ch.info, idx);
    }

    /** Shift `wr` into this device's IR, all-ones into every other IR. */
    method WrIR(wr: seq<bool>) returns (err: Option<Error>)
      modifies drv
      ensures drv.log == old(drv.log) + [IrScan(Ones(irlenBefore) + wr + Ones(irlenAfter), false)]
      ensures err == ErrorOf(drv.reply(old(drv.log), IrScan(Pad(irlenBefore, wr, irlenAfter), false)))
    {
      var tdi := Ones(irlenBefore) + wr + Ones(irlenAfter);
      var r := drv.ScanIR(tdi, false);
      err := ErrorOf(r);
    }

    /** Shift `wr` into this device's IR and return what its IR captured. */
    method RdWrIR(wr: seq<bool>) returns (r: Result<seq<bool>, Error>)
      requires drv.FullCapture()
      modifies drv
      ensures drv.log == old(drv.log) + [IrScan(Ones(irlenBefore) + wr + Ones(irlenAfter), true)]
      ensures r == Stripped(drv.reply(old(drv.log), IrScan(Pad(irlenBefore, wr, irlenAfter), true)), irlenBefore, irlenAfter)
      ensures r.Ok? ==> |r.value| == |wr|
      ensures drv.Loopback() ==> r == Ok(wr)
    {
      var tdi := Ones(irlenBefore) + wr + Ones(irlenAfter);
      var tdo := drv.ScanIR(tdi, true);
      if tdo.Err? {
        return Err(tdo.error);
      }
      // strip the IR bits of the other devices
      r := Ok(tdo.value[irlenBefore..|tdo.value| - irlenAfter]);
    }

    /** Shift `wr` into this device's DR, one bypass bit for every other device,
        then `idle` idle cycles. */
    method WrDR(wr: seq<bool>, idle: nat) returns (err: Option<Error>)
      modifies drv
      ensures drv.log == old(drv.log) + [DrScan(Ones(devsBefore) + wr + Ones(devsAfter), idle, false)]
      ensures err == ErrorOf(drv.reply(old(drv.log), DrScan(Pad(devsBefore, wr, devsAfter), idle, false)))
    {
      var tdi := Ones(devsBefore) + wr + Ones(devsAfter);
      var r := drv.ScanDR(tdi, idle, false);
      err := ErrorOf(r);
    }

    /** Shift `wr` into this device's DR and return what its DR captured. */
    method RdWrDR(wr: seq<bool>, idle: nat) returns (r: Result<seq<bool>, Error>)
      requires drv.FullCapture()
      modifies drv
      ensures drv.log == old(drv.log) + [DrScan(Ones(devsBefore) + wr + Ones(devsAfter), idle, true)]
      ensures r == Stripped(drv.reply(old(drv.log), DrScan(Pad(devsBefore, wr, devsAfter), idle, true)), devsBefore, devsAfter)
      ensures r.Ok? ==> |r.value| == |wr|
      ensures drv.Loopback() ==> r == Ok(wr)
    {
      var tdi := Ones(devsBefore) + wr + Ones(devsAfter);
      var tdo := drv.ScanDR(tdi, idle, true);
      if tdo.Err? {
        return Err(tdo.error);
      }
      // strip the DR bits of the bypassed devices
      r := Ok(tdo.value[devsBefore..|tdo.value| - devsAfter]);
    }

    /** Shift all-ones into this device's IR and check that the captured IR
        ends in binary 01, as IEEE 1149.1 clause 7.1.1 requires of every TAP. */
    method TestIRCapture() returns (r: Result<bool, Error>)
      requires drv.FullCapture()
      modifies drv
      ensures drv.log == old(drv.log) + [IrScan(Ones(irlenBefore) + Ones(irlen) + Ones(irlenAfter), true)]
      ensures var reply := drv.reply(old(drv.log), IrScan(Pad(irlenBefore, Ones(irlen), irlenAfter), true));
              match reply
              case Err(e) => r == Err(e)
              case Ok(tdo) => r == Ok(CaptureIs01(Strip(tdo, irlenBefore, irlenAfter)))
    {
      var rd := RdWrIR(Ones(irlen));
      if rd.Err? {
        return Err(rd.error);
      }
      var val := Split(rd.value, [irlen])[0];
      // the lowest 2 bits should be "01"
      r := Ok(val % 4 == 1);
    }

    /** The IR length of this device, as enumerated on the chain. */
    function GetIRLength(): (n: nat)
      requires Valid()
      ensures n == chain.info[idx].irLength
    {
      irlen
    }

    /** The ID code of this device, as enumerated on the chain. */
    function GetIDCode(): (id: nat)
      requires Valid()
      ensures id == chain.info[idx].id
    {
      idcode
    }

    /** The chain's current DR length less one bypass bit per other device. */
    function DrLengthOf(measured: Result<int, Error>): (r: Result<int, Error>)
      requires Valid()
      ensures measured.Err? ==> r == measured
      ensures measured.Ok? ==> r.Ok? && r.value == measured.value - (|chain.info| - 1)
    {
      match measured
      case Ok(n) => Ok(n - devsAfter - devsBefore)
      case Err(e) => Err(e)
    }

    /** The current DR length of this device, given the instruction it holds. */
    method GetDRLength() returns (r: Result<int, Error>)
      requires Valid()
      modifies drv
      ensures drv.log == old(drv.log) + [DrLengthProbe]
      ensures r == DrLengthOf(chain.measure(old(drv.log)))
      ensures chain.measure(old(drv.log)) == Ok(|chain.info|) ==> r == Ok(1)
    {
      var n := chain.DrLength();
      if n.Err? {
        return Err(n.error);
      }
      r := Ok(n.value - devsAfter - devsBefore);
    }

    /** What CheckDR returns and the transactions it leaves behind, from the
        transactions before it: select `ir`, measure the DR length, and if it is
        `drlen` read the DR by shifting in zeros. A failed IR write or a failed
        measurement yields 0 and no error. */
    function CheckDRSpec(h: seq<Event>, ir: nat, drlen: nat): (Result<nat, Error>, seq<Event>)
      requires Valid() && drv.FullCapture()
    {
      var select := IrScan(Pad(irlenBefore, FromUint(ir, irlen), irlenAfter), false);
      var h1 := h + [select];
      if drv.reply(h, select).Err? then (Ok(0), h1)
      else
        var h2 := h1 + [DrLengthProbe];
        match DrLengthOf(chain.measure(h1))
        case Err(_) => (Ok(0), h2)
        case Ok(n) =>
          if n != drlen then (Err(DrLengthMismatch(ir, n, drlen)), h2)
          else
            var read := DrScan(Pad(devsBefore, Zeros(drlen), devsAfter), 0, true);
            match Stripped(drv.reply(h2, read), devsBefore, devsAfter)
            case Err(e) => (Err(e), h2 + [read])
            case Ok(tdo) => (Ok(ToUint(tdo)), h2 + [read])
    }

    /** Verify the DR length selected by `ir` and return the DR value. */
    method CheckDR(ir: nat, drlen: nat) returns (r: Result<nat, Error>)
      requires Valid() && drv.FullCapture()
      modifies drv
      ensures (r, drv.log) == CheckDRSpec(old(drv.log), ir, drlen)
    {
      // write IR
      var err := WrIR(FromUint(ir, irlen));
      if err.Some? {
        return Ok(0);
      }
      // check the DR length
      var n := GetDRLength();
      if n.Err? {
        return Ok(0);
      }
      if n.value != drlen {
        return Err(DrLengthMismatch(ir, n.value, drlen));
      }
      // get the value
      var tdo := RdWrDR(Zeros(drlen), 0);
      if tdo.Err? {
        return Err(tdo.error);
      }
      r := Ok(Split(tdo.value, [drlen])[0]);
    }

    /** A measured DR length other than `drlen` is reported with the IR value,
        the measured length and the expected one, and no DR is read. */
    lemma CheckDRMismatch(h: seq<Event>, ir: nat, drlen: nat)
      requires Valid() && drv.FullCapture()
      requires drv.reply(h, IrScan(Pad(irlenBefore, FromUint(ir, irlen), irlenAfter), false)).Ok?
      requires var h1 := h + [IrScan(Pad(irlenBefore, FromUint(ir, irlen), irlenAfter), false)];
               chain.measure(h1).Ok? && chain.measure(h1).value - (|chain.info| - 1) != drlen
      ensures var h1 := h + [IrScan(Pad(irlenBefore, FromUint(ir, irlen), irlenAfter), false)];
              CheckDRSpec(h, ir, drlen)
              == (Err(DrLengthMismatch(ir, chain.measure(h1).value - (|chain.info| - 1), drlen)), h1 + [DrLengthProbe])
    {
    }

    /** A failure to write the IR or to measure the DR length is swallowed:
        the result is 0 with no error. */
    lemma CheckDRSwallows(h: seq<Event>, ir: nat, drlen: nat)
      requires Valid() && drv.FullCapture()
      requires var select := IrScan(Pad(irlenBefore, FromUint(ir, irlen), irlenAfter), false);
               drv.reply(h, select).Err? || chain.measure(h + [select]).Err?
      ensures CheckDRSpec(h, ir, drlen).0 == Ok(0)
      ensures forall e :: e in CheckDRSpec(h, ir, drlen).1[|h|..] ==> !e.DrScan?
    {
    }

    /** With a matching DR length, the result is the value captured from this
        device's DR while zeros were shifted in, and fits in `drlen` bits; a
        loopback driver gives 0. */
    lemma CheckDRReads(h: seq<Event>, ir: nat, drlen: nat)
      requires Valid() && drv.FullCapture()
      requires var select := IrScan(Pad(irlenBefore, FromUint(ir, irlen), irlenAfter), false);
               drv.reply(h, select).Ok? && chain.measure(h + [select]) == Ok(drlen + |chain.info| - 1)
      ensures var select := IrScan(Pad(irlenBefore, FromUint(ir, irlen), irlenAfter), false);
              var h2 := h + [select, DrLengthProbe];
              var read := DrScan(Ones(devsBefore) + Zeros(drlen) + Ones(devsAfter), 0, true);
              && CheckDRSpec(h, ir, drlen).1 == h2 + [read]
              && (drv.reply(h2, read).Err? ==> CheckDRSpec(h, ir, drlen).0 == Err(drv.reply(h2, read).error))
              && (drv.reply(h2, read).Ok? ==>
                    CheckDRSpec(h, ir, drlen).0 == Ok(ToUint(Strip(drv.reply(h2, read).value, devsBefore, devsAfter)))
                    && CheckDRSpec(h, ir, drlen).0.value < Pow2(drlen))
              && (drv.Loopback() ==> CheckDRSpec(h, ir, drlen).0 == Ok(0))
    {
      var select := IrScan(Pad(irlenBefore, FromUint(ir, irlen), irlenAfter), false);
      var h2 := h + [select, DrLengthProbe];
      assert h + [select] + [DrLengthProbe] == h2;
      var read := DrScan(Pad(devsBefore, Zeros(drlen), devsAfter), 0, true);
      assert DrLengthOf(chain.measure(h + [select])) == Ok(drlen);
      var spec := CheckDRSpec(h, ir, drlen);
      assert spec == (match Stripped(drv.reply(h2, read), devsBefore, devsAfter)
                      case Err(e) => (Err(e), h2 + [read])
                      case Ok(tdo) => (Ok(ToUint(tdo)), h2 + [read]));
      if drv.Loopback() {
        assert drv.reply(h2, read) == Ok(read.tdi);
        StripPad(devsBefore, Zeros(drlen), devsAfter);
        ZerosToUint(drlen);
      }
    }

    /** The IR scan that selects `ir` on this device. */
    function Select(ir: nat): Event
    {
      IrScan(Pad(irlenBefore, FromUint(ir, irlen), irlenAfter), false)
    }

    /** The transactions one round of the survey adds for `ir`: the IR write,
        then the DR length probe unless the write failed. */
    function SurveyStepLog(h: seq<Event>, ir: nat): seq<Event>
    {
      if drv.reply(h, Select(ir)).Err? then h + [Select(ir)] else h + [Select(ir), DrLengthProbe]
    }

    /** The report line of one round of the survey for `ir`. */
    function SurveyStepLine(h: seq<Event>, ir: nat): (line: SurveyLine)
      ensures line.ir == ir
    {
      if drv.reply(h, Select(ir)).Err? then CantWriteIR(ir)
      else
        match chain.measure(h + [Select(ir)])
        case Err(_) => DrLenUnknown(ir)
        case Ok(n) => DrLen(ir, n - devsAfter - devsBefore)
    }

    /** The transactions after the first `k` rounds of the survey. */
    function SurveyLog(h: seq<Event>, k: nat): seq<Event>
    {
      if k == 0 then h else SurveyStepLog(SurveyLog(h, k - 1), k - 1)
    }

    /** The report lines of the first `k` rounds of the survey. */
    function SurveyLines(h: seq<Event>, k: nat): seq<SurveyLine>
    {
      if k == 0 then [] else SurveyLines(h, k - 1) + [SurveyStepLine(SurveyLog(h, k - 1), k - 1)]
    }

    /** One round of the survey: select `ir`, then measure the DR length. */
    method SurveyRound(ir: nat) returns (line: SurveyLine)
      requires Valid()
      modifies drv
      ensures drv.log == SurveyStepLog(old(drv.log), ir)
      ensures line == SurveyStepLine(old(drv.log), ir)
    {
      var err := WrIR(FromUint(ir, irlen));
      if err.Some? {
        return CantWriteIR(ir);
      }
      var n := chain.DrLength();
      if n.Err? {
        return DrLenUnknown(ir);
      }
      line := DrLen(ir, n.value - devsAfter - devsBefore);
    }

    /** Report, for every IR value in increasing order, the DR length it selects. */
    method Survey() returns (report: string)
      requires Valid()
      modifies drv
      ensures report == Text.Join(RenderAll(SurveyLines(old(drv.log), Pow2(irlen))), "\n")
      ensures drv.log == SurveyLog(old(drv.log), Pow2(irlen))
    {
      ghost var h0 := drv.log;
      var s: seq<string> := [];
      ghost var lines: seq<SurveyLine> := [];
      var count := Pow2(irlen);
      var ir := 0;
      while ir < count
        invariant 0 <= ir <= count
        invariant lines == SurveyLines(h0, ir)
        invariant s == RenderAll(lines)
        invariant drv.log == SurveyLog(h0, ir)
      {
        ghost var h := drv.log;
        var line := SurveyRound(ir);
        assert line == SurveyStepLine(h, ir) && drv.log == SurveyStepLog(h, ir);
        assert SurveyLines(h0, ir + 1) == lines + [line];
        RenderAllAppend(lines, line);
        s := s + [Render(line)];
        lines := lines + [line];
        ir := ir + 1;
      }
      assert ir == count && h0 == old(drv.log);
      report := Text.Join(s, "\n");
    }

    /** The survey has one line per IR value, in increasing order of IR value,
        whatever failed on the way. */
    lemma {:induction false} SurveyLineOrder(h: seq<Event>, k: nat)
      ensures |SurveyLines(h, k)| == k
      ensures forall i :: 0 <= i < k ==> SurveyLines(h, k)[i].ir == i
    {
      if k > 0 {
        SurveyLineOrder(h, k - 1);
        var prev := SurveyLines(h, k - 1);
        assert SurveyLines(h, k) == prev + [SurveyStepLine(SurveyLog(h, k - 1), k - 1)];
      }
    }

    /** The bit strings shifted into the chain's IR to select `0 .. k - 1` in turn. */
    function SelectTdis(k: nat): (r: seq<seq<bool>>)
      ensures |r| == k
      ensures forall i :: 0 <= i < k ==> r[i] == Ones(irlenBefore) + FromUint(i, irlen) + Ones(irlenAfter)
    {
      if k == 0 then [] else SelectTdis(k - 1) + [Select(k - 1).tdi]
    }

    lemma SurveyStepIrWrites(h: seq<Event>, ir: nat)
      ensures IrWrites(SurveyStepLog(h, ir)) == IrWrites(h) + [Select(ir).tdi]
    {
      var tail := if drv.reply(h, Select(ir)).Err? then [Select(ir)] else [Select(ir), DrLengthProbe];
      assert SurveyStepLog(h, ir) == h + tail;
      IrWritesAppend(h, tail);
      assert IrWrites(tail) == [Select(ir).tdi] by {
        assert tail[0] == Select(ir) && Select(ir).IrScan?;
        if |tail| == 2 {
          assert tail[1..] == [DrLengthProbe];
          assert tail[1..][1..] == [];
          assert IrWrites(tail[1..]) == [] + IrWrites([]);
        } else {
          assert tail[1..] == [];
        }
        assert IrWrites(tail) == [tail[0].tdi] + IrWrites(tail[1..]);
      }
    }

    /** The survey shifts the IR values 0, 1, ... into this device's IR, in that
        order and once each, every other device's IR kept at all-ones. */
    lemma {:induction false} SurveyIrWrites(h: seq<Event>, k: nat)
      ensures IrWrites(SurveyLog(h, k)) == IrWrites(h) + SelectTdis(k)
    {
      if k > 0 {
        var hk := SurveyLog(h, k - 1);
        var t := Select(k - 1).tdi;
        SurveyIrWrites(h, k - 1);
        SurveyStepIrWrites(hk, k - 1);
        assert SelectTdis(k) == SelectTdis(k - 1) + [t];
        assert IrWrites(hk) + [t] == IrWrites(h) + (SelectTdis(k - 1) + [t]);
      }
    }

    /** The report has exactly one line per IR value: 2^irlen lines, so
        2^irlen - 1 line breaks. */
    lemma SurveyReportLines(h: seq<Event>)
      ensures Text.Count(Text.Join(RenderAll(SurveyLines(h, Pow2(irlen))), "\n"), '\n') == Pow2(irlen) - 1
    {
      var lines := SurveyLines(h, Pow2(irlen));
      SurveyLineOrder(h, Pow2(irlen));
      RenderAllLines(lines);
      Text.JoinCount(RenderAll(lines), '\n');
    }
  }
}
