/** Bit strings as used on the JTAG scan path.

    A bit string is a `seq<bool>`. Index 0 is the first bit shifted onto the
    chain; when a bit string stands for a number, index 0 is its least
    significant bit. With this one convention `FromUint` and `ToUint`
    (and `Split`) are inverse to each other. */
module BitStr {

  function Pow2(n: nat): (r: nat)
    ensures r >= 1
  {
    if n == 0 then 1 else 2 * Pow2(n - 1)
  }

  /** A run of `n` set bits. */
  function Ones(n: nat): (r: seq<bool>)
    ensures |r| == n && forall i :: 0 <= i < n ==> r[i]
  {
    seq(n, _ => true)
  }

  /** A run of `n` clear bits. */
  function Zeros(n: nat): (r: seq<bool>)
    ensures |r| == n && forall i :: 0 <= i < n ==> !r[i]
  {
    seq(n, _ => false)
  }

  /** The unsigned number a bit string stands for, least significant bit first. */
  function ToUint(s: seq<bool>): (r: nat)
    ensures r < Pow2(|s|)
  {
    if s == [] then 0 else (if s[0] then 1 else 0) + 2 * ToUint(s[1..])
  }

  /** The low `n` bits of `x`; higher bits of `x` are dropped. */
  function FromUint(x: nat, n: nat): (r: seq<bool>)
    ensures |r| == n
    ensures ToUint(r) == x % Pow2(n)
  {
    if n == 0 then []
    else
      var rest := FromUint(x / 2, n - 1);
      ModDouble(x, Pow2(n - 1));
      assert ([x % 2 == 1] + rest)[1..] == rest;
      [x % 2 == 1] + rest
  }

  lemma ModDouble(x: nat, m: nat)
    requires m >= 1
    ensures x % (2 * m) == x % 2 + 2 * ((x / 2) % m)
  {
    var q, b := x / 2, x % 2;
    var t, u := q / m, q % m;
    assert x == 2 * q + b;
    assert q == m * t + u;
    assert x == (2 * m) * t + (2 * u + b) by {
      assert 2 * q == 2 * (m * t) + 2 * u;
      assert 2 * (m * t) == (2 * m) * t;
    }
    ModUnique(x, 2 * m, t, 2 * u + b);
  }

  lemma ModUnique(x: nat, d: nat, q: nat, r: nat)
    requires d >= 1 && 0 <= r < d && x == d * q + r
    ensures x % d == r
  {
    var q', r' := x / d, x % d;
    assert x == d * q' + r';
    if q' > q {
      var k := q' - q;
      assert d * q' == d * q + d * k;
      MulAtLeast(d, k);
    } else if q' < q {
      var k := q - q';
      assert d * q == d * q' + d * k;
      MulAtLeast(d, k);
    }
  }

  lemma MulAtLeast(d: nat, k: nat)
    requires k >= 1
    ensures d * k >= d
  {
    assert d * k == d + d * (k - 1);
  }

  /** Reading a bit string as a number and writing it back at the same width
      gives the bit string again. */
  lemma {:induction false} FromToUint(s: seq<bool>)
    ensures FromUint(ToUint(s), |s|) == s
  {
    if s != [] {
      var v := ToUint(s);
      var rest := ToUint(s[1..]);
      assert v == (if s[0] then 1 else 0) + 2 * rest;
      assert v % 2 == (if s[0] then 1 else 0);
      assert v / 2 == rest;
      FromToUint(s[1..]);
    }
  }

  /** Writing a number at width `n` and reading it back keeps its low `n` bits. */
  lemma ToFromUint(x: nat, n: nat)
    ensures ToUint(FromUint(x, n)) == x % Pow2(n)
    ensures x < Pow2(n) ==> ToUint(FromUint(x, n)) == x
  {
  }

  function Sum(lens: seq<nat>): nat
  {
    if lens == [] then 0 else lens[0] + Sum(lens[1..])
  }

  /** Cuts `s` into consecutive pieces of the given lengths and reads each
      piece as an unsigned number. The lengths must add up to `|s|`. */
  function Split(s: seq<bool>, lens: seq<nat>): (r: seq<nat>)
    requires Sum(lens) == |s|
    ensures |r| == |lens|
    ensures forall i :: 0 <= i < |r| ==> r[i] < Pow2(lens[i])
    ensures |lens| == 1 ==> r[0] == ToUint(s)
  {
    if lens == [] then []
    else
      assert |lens| == 1 ==> lens[1..] == [] && Sum(lens) == lens[0];
      assert |lens| == 1 ==> s[..lens[0]] == s;
      [ToUint(s[..lens[0]])] + Split(s[lens[0]..], lens[1..])
  }

  /** The bit string made by writing each number at its width, one after the other. */
  function Join(vals: seq<nat>, lens: seq<nat>): (r: seq<bool>)
    requires |vals| == |lens|
    ensures |r| == Sum(lens)
  {
    if vals == [] then [] else FromUint(vals[0], lens[0]) + Join(vals[1..], lens[1..])
  }

  /** Splitting a bit string and joining the pieces back gives the bit string. */
  lemma {:induction false} JoinSplit(s: seq<bool>, lens: seq<nat>)
    requires Sum(lens) == |s|
    ensures Join(Split(s, lens), lens) == s
  {
    if lens != [] {
      var r := Split(s, lens);
      assert r[1..] == Split(s[lens[0]..], lens[1..]);
      FromToUint(s[..lens[0]]);
      JoinSplit(s[lens[0]..], lens[1..]);
      assert s == s[..lens[0]] + s[lens[0]..];
    }
  }

  /** Joining numbers that each fit their width and splitting at the same
      widths gives the numbers back. */
  lemma {:induction false} SplitJoin(vals: seq<nat>, lens: seq<nat>)
    requires |vals| == |lens|
    requires forall i :: 0 <= i < |vals| ==> vals[i] < Pow2(lens[i])
    ensures Split(Join(vals, lens), lens) == vals
  {
    if vals != [] {
      var head := FromUint(vals[0], lens[0]);
      var tail := Join(vals[1..], lens[1..]);
      var s := head + tail;
      assert s == Join(vals, lens);
      assert s[..lens[0]] == head;
      assert s[lens[0]..] == tail;
      ToFromUint(vals[0], lens[0]);
      SplitJoin(vals[1..], lens[1..]);
      assert Split(s, lens) == [ToUint(head)] + Split(tail, lens[1..]);
      assert [vals[0]] + vals[1..] == vals;
    }
  }
}
