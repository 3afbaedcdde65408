/** Bit fields within a peripheral register and their display.

    A field remembers the last value it displayed, so that a display can mark
    a field whose value changed since the previous one. */
module Soc {
  import opened Wrappers
  import BitStr
  import Text

  /** Bits `msb` down to `lsb` of `x`, moved down to bit 0. */
  function FieldBits(x: nat, msb: nat, lsb: nat): (r: nat)
    requires lsb <= msb
    ensures r < BitStr.Pow2(msb - lsb + 1)
  {
    (x / BitStr.Pow2(lsb)) % BitStr.Pow2(msb - lsb + 1)
  }

  /** `strings.Compare(a, b) < 0`: `a` comes strictly before `b` in
      lexicographic order. */
  predicate StrLess(a: string, b: string)
  {
    if a == [] then b != []
    else if b == [] then false
    else if a[0] != b[0] then a[0] < b[0]
    else StrLess(a[1..], b[1..])
  }

  lemma {:induction false} StrLessIrreflexive(a: string)
    ensures !StrLess(a, a)
  {
    if a != [] {
      StrLessIrreflexive(a[1..]);
    }
  }

  lemma {:induction false} StrLessAsymmetric(a: string, b: string)
    ensures StrLess(a, b) ==> !StrLess(b, a)
  {
    if a != [] && b != [] && a[0] == b[0] {
      StrLessAsymmetric(a[1..], b[1..]);
    }
  }

  lemma {:induction false} StrLessTransitive(a: string, b: string, c: string)
    requires StrLess(a, b) && StrLess(b, c)
    ensures StrLess(a, c)
  {
    if a != [] && b != [] && c != [] && a[0] == b[0] && b[0] == c[0] {
      StrLessTransitive(a[1..], b[1..], c[1..]);
    }
  }

  lemma {:induction false} StrLessTotal(a: string, b: string)
    requires a != b
    ensures StrLess(a, b) || StrLess(b, a)
  {
    if a != [] && b != [] && a[0] == b[0] {
      assert a == [a[0]] + a[1..] && b == [b[0]] + b[1..];
      StrLessTotal(a[1..], b[1..]);
    }
  }

  /** A bit field of a register. Everything but the display cache is fixed. */
  class Field {
    const Name: string
    const Msb: nat
    const Lsb: nat
    const Descr: string
    const Fmt: Option<nat -> string>
    const Enums: map<nat, string>
    var cacheValid: bool
    var cacheVal: nat

    ghost predicate WellFormed()
    {
      Lsb <= Msb
    }

    constructor (name: string, msb: nat, lsb: nat, descr: string, fmt: Option<nat -> string>, enums: map<nat, string>)
      requires lsb <= msb
      ensures WellFormed()
      ensures Name == name && Msb == msb && Lsb == lsb && Descr == descr && Fmt == fmt && Enums == enums
      ensures !cacheValid && cacheVal == 0
    {
      Name, Msb, Lsb, Descr, Fmt, Enums := name, msb, lsb, descr, fmt, enums;
      cacheValid, cacheVal := false, 0;
    }

    /** The display strings of this field for register value `val`: the
        field's name, its value with a " *" marker when it differs from the
        value shown last time, an empty column and the description. */
    method Display(val: nat) returns (r: seq<string>)
      requires WellFormed()
      modifies this
      ensures cacheValid && cacheVal == FieldBits(val, Msb, Lsb)
      ensures |r| == 4
      ensures r[0] == NameText(Name, Msb, Lsb)
      ensures r[1] == ValueText(cacheVal, ValueName(Fmt, Enums, cacheVal))
                      + (if old(cacheValid) && cacheVal != old(cacheVal) then " *" else "")
      ensures r[2] == "" && r[3] == Descr
    {
      // get the field
      var x := FieldBits(val, Msb, Lsb);
      // has the value changed?
      var changed := "";
      if x != cacheVal && cacheValid {
        changed := " *";
      }
      cacheVal := x;
      cacheValid := true;
      var nameStr := NameText(Name, Msb, Lsb);
      var valStr := ValueText(x, ValueName(Fmt, Enums, x)) + changed;
      r := [nameStr, valStr, "", Descr];
    }
  }

  /** `name[lsb]` for a one-bit field, `name[msb:lsb]` otherwise, indented by two spaces. */
  function NameText(name: string, msb: nat, lsb: nat): string
  {
    if msb == lsb then "  " + name + "[" + Text.Dec(lsb) + "]"
    else "  " + name + "[" + Text.Dec(msb) + ":" + Text.Dec(lsb) + "]"
  }

  /** The descriptive name of a field value: from the formatting function when
      there is one, otherwise from the enumeration (a nil map in Go behaves as
      an empty one), otherwise empty. */
  function ValueName(fmt: Option<nat -> string>, enums: map<nat, string>, x: nat): string
  {
    match fmt
    case Some(f) => f(x)
    case None => if x in enums then enums[x] else ""
  }

  /** The number as shown in the value column: decimal below 10, hex with a
      0x prefix from 10 on. */
  function Number(x: nat): string
  {
    if x < 10 then Text.Dec(x) else "0x" + Text.Hex(x)
  }

  function ValueText(x: nat, valName: string): string
  {
    ": " + Number(x) + " " + valName
  }

  /** The value column shows the number unambiguously: in decimal below 10
      and as 0x followed by hex digits from 10 on. */
  lemma NumberReadsBack(x: nat)
    ensures x < 10 ==> Text.Parse(Number(x), 10) == x
    ensures x >= 10 ==> Number(x)[..2] == "0x" && Text.Parse(Number(x)[2..], 16) == x
  {
    Text.RenderRoundTrip(x, 0);
    if x >= 10 {
      assert Number(x)[2..] == Text.Hex(x);
    }
  }

  /** A one-bit field is named by its bit number alone; a wider one by both ends. */
  lemma NameForm(name: string, msb: nat, lsb: nat)
    ensures msb == lsb ==> ':' !in NameText(name, msb, lsb)[|name| + 2..]
    ensures msb != lsb ==> ':' in NameText(name, msb, lsb)[|name| + 2..]
  {
    var t := NameText(name, msb, lsb);
    var ds := Text.Dec(lsb);
    var dm := Text.Dec(msb);
    if msb == lsb {
      assert t[|name| + 2..] == "[" + ds + "]";
      assert forall i :: 0 <= i < |ds| ==> ds[i] != ':';
    } else {
      assert t[|name| + 2..] == "[" + dm + ":" + ds + "]";
      assert t[|name| + 2..][|dm| + 1] == ':';
    }
  }

  /** Sort order of a field set: higher Msb first, equal Msb by name. */
  predicate Before(f: Field, g: Field)
  {
    f.Msb > g.Msb || (f.Msb == g.Msb && StrLess(f.Name, g.Name))
  }

  /** `FieldSet.Less(i, j)`. */
  predicate Less(a: array<Field>, i: nat, j: nat)
    requires i < a.Length && j < a.Length
    reads a
  {
    Before(a[i], a[j])
  }

  /** The sort order is a strict total order on (Msb, Name): no field comes
      before itself, of two fields at most one comes before the other, it is
      transitive, and fields differing in Msb or name are ordered one way. */
  lemma BeforeIsStrictTotalOrder(f: Field, g: Field, h: Field)
    ensures !Before(f, f)
    ensures Before(f, g) ==> !Before(g, f)
    ensures Before(f, g) && Before(g, h) ==> Before(f, h)
    ensures (f.Msb, f.Name) != (g.Msb, g.Name) ==> Before(f, g) || Before(g, f)
  {
    StrLessIrreflexive(f.Name);
    StrLessAsymmetric(f.Name, g.Name);
    if f.Msb == g.Msb == h.Msb && StrLess(f.Name, g.Name) && StrLess(g.Name, h.Name) {
      StrLessTransitive(f.Name, g.Name, h.Name);
    }
    if f.Msb == g.Msb && f.Name != g.Name {
      StrLessTotal(f.Name, g.Name);
    }
  }

  /** `FieldSet.Less` is a strict total order on the fields of a set: on
      entries with distinct (Msb, Name) keys exactly one of `Less(a, i, j)`
      and `Less(a, j, i)` holds, and it is transitive. */
  lemma LessIsStrictTotalOrder(a: array<Field>, i: nat, j: nat, k: nat)
    requires i < a.Length && j < a.Length && k < a.Length
    ensures !Less(a, i, i)
    ensures Less(a, i, j) ==> !Less(a, j, i)
    ensures Less(a, i, j) && Less(a, j, k) ==> Less(a, i, k)
    ensures (a[i].Msb, a[i].Name) != (a[j].Msb, a[j].Name) ==> Less(a, i, j) || Less(a, j, i)
  {
    BeforeIsStrictTotalOrder(a[i], a[j], a[k]);
  }

  /** `FieldSet.Swap(i, j)`. */
  method Swap(a: array<Field>, i: nat, j: nat)
    requires i < a.Length && j < a.Length
    modifies a
    ensures a[i] == old(a[j]) && a[j] == old(a[i])
    ensures forall k :: 0 <= k < a.Length && k != i && k != j ==> a[k] == old(a[k])
  {
    a[i], a[j] := a[j], a[i];
  }

  /** The entry of one field in a horizontal display: its name and its
      formatted bits, separated by one space. */
  function Entry(f: Field, val: nat): string
    requires f.Lsb <= f.Msb && f.Fmt.Some?
  {
    f.Name + " " + f.Fmt.value(FieldBits(val, f.Msb, f.Lsb))
  }

  /** The horizontal display of the fields of `val`: one entry per field, in
      the order given, separated by single spaces. Every field needs a
      formatting function (Go would call a nil one). */
  method DisplayH(fs: seq<Field>, val: nat) returns (s: string)
    requires forall k :: 0 <= k < |fs| ==> fs[k].Lsb <= fs[k].Msb && fs[k].Fmt.Some?
    ensures s == Text.Join(seq(|fs|, k requires 0 <= k < |fs| => Entry(fs[k], val)), " ")
  {
    var parts: seq<string> := [];
    for k := 0 to |fs|
      invariant parts == seq(k, i requires 0 <= i < k => Entry(fs[i], val))
    {
      var f := fs[k];
      var x := FieldBits(val, f.Msb, f.Lsb);
      parts := parts + [f.Name + " " + f.Fmt.value(x)];
    }
    s := Text.Join(parts, " ");
  }

  /** `FmtDec`: decimal. */
  function FmtDec(x: nat): (s: string)
    ensures forall i :: 0 <= i < |s| ==> Text.IsDecDigit(s[i]) && Text.IsHexDigit(s[i])
    ensures Text.Parse(s, 10) == x
  {
    Text.RenderRoundTrip(x, 0);
    Text.Dec(x)
  }

  /** `FmtHex`: hexadecimal. */
  function FmtHex(x: nat): (s: string)
    ensures forall i :: 0 <= i < |s| ==> Text.IsHexDigit(s[i])
    ensures Text.Parse(s, 16) == x
  {
    Text.RenderRoundTrip(x, 0);
    Text.Hex(x)
  }

  /** `FmtHex8`: at least two hex digits. */
  function FmtHex8(x: nat): (s: string)
    ensures |s| >= 2 && forall i :: 0 <= i < |s| ==> Text.IsHexDigit(s[i])
    ensures Text.Parse(s, 16) == x
  {
    Text.RenderRoundTrip(x, 2);
    Text.HexPad(x, 2)
  }

  /** `FmtHex16`: at least four hex digits. */
  function FmtHex16(x: nat): (s: string)
    ensures |s| >= 4 && forall i :: 0 <= i < |s| ==> Text.IsHexDigit(s[i])
    ensures Text.Parse(s, 16) == x
  {
    Text.RenderRoundTrip(x, 4);
    Text.HexPad(x, 4)
  }
}
