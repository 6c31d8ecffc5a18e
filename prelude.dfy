/** The few pieces of Rust's standard library that the modelled code leans on:
    `Option`, `std::cmp::Ordering`, `Ord for str`, `[&str]::join` and `u32::to_string`. */
module Prelude {

  datatype Option<T> = None | Some(value: T)

  /** `std::cmp::Ordering`, with `Ordering::reverse`. */
  datatype Ordering = Less | Equal | Greater {
    function Reverse(): (r: Ordering)
      ensures (r == Equal) == (this == Equal)
    {
      match this
      case Less => Greater
      case Equal => Equal
      case Greater => Less
    }
  }

  /** `Ord::cmp` on unsigned integers. */
  function CmpNat(a: nat, b: nat): (r: Ordering)
    ensures r == Less <==> a < b
    ensures r == Equal <==> a == b
    ensures r == Greater <==> a > b
  {
    if a < b then Less else if a == b then Equal else Greater
  }

  /** `Ord for str`: lexicographic comparison. Rust compares the UTF-8 bytes, which orders
      strings exactly as comparing their code points one by one does. */
  function CmpStr(a: string, b: string): (r: Ordering)
    ensures r == Equal <==> a == b
    decreases |a|
  {
    if a == [] && b == [] then Equal
    else if a == [] then Less
    else if b == [] then Greater
    else if a[0] < b[0] then Less
    else if a[0] > b[0] then Greater
    else
      var rest := CmpStr(a[1..], b[1..]);
      assert rest == Equal ==> a == [a[0]] + a[1..] == [b[0]] + b[1..] == b;
      rest
  }

  /** Swapping the operands reverses the answer. */
  lemma {:induction false} CmpStrFlip(a: string, b: string)
    ensures CmpStr(b, a) == CmpStr(a, b).Reverse()
    decreases |a|
  {
    if a != [] && b != [] && a[0] == b[0] {
      CmpStrFlip(a[1..], b[1..]);
    }
  }

  /** "Not greater" is transitive. */
  lemma {:induction false} CmpStrTrans(a: string, b: string, c: string)
    requires CmpStr(a, b) != Greater && CmpStr(b, c) != Greater
    ensures CmpStr(a, c) != Greater
    decreases |a|
  {
    if a != [] && b != [] && c != [] && a[0] == b[0] == c[0] {
      CmpStrTrans(a[1..], b[1..], c[1..]);
    }
  }

  /** `iter().rev()`: the elements last to first. */
  function Reverse<T>(s: seq<T>): (r: seq<T>)
    ensures |r| == |s|
    ensures forall i :: 0 <= i < |s| ==> r[i] == s[|s| - 1 - i]
  {
    if s == [] then [] else [s[|s| - 1]] + Reverse(s[..|s| - 1])
  }

  /** `[&str]::join(sep)`: the parts with `sep` between neighbours. */
  function Join(parts: seq<string>, sep: string): (r: string)
    ensures |parts| == 0 ==> r == []
    ensures |parts| > 0 ==> |r| == TotalLength(parts) + (|parts| - 1) * |sep|
    ensures |parts| > 0 ==> r[..|parts[0]|] == parts[0]
  {
    if |parts| == 0 then []
    else if |parts| == 1 then parts[0]
    else parts[0] + sep + Join(parts[1..], sep)
  }

  function TotalLength(parts: seq<string>): nat
  {
    if parts == [] then 0 else |parts[0]| + TotalLength(parts[1..])
  }

  /** `u32::to_string`: decimal digits, most significant first, no leading zero. */
  function DecimalString(n: nat): (r: string)
    ensures |r| >= 1 && Digits(r)
    ensures |r| > 1 ==> r[0] != '0'
  {
    if n < 10 then [Digit(n)] else DecimalString(n / 10) + [Digit(n % 10)]
  }

  function Digit(d: nat): (c: char)
    requires d < 10
    ensures '0' <= c <= '9' && (c as int) - ('0' as int) == d
  {
    (('0' as int) + d) as char
  }

  predicate Digits(s: string)
  {
    forall i :: 0 <= i < |s| ==> '0' <= s[i] <= '9'
  }

  /** Reads a string of decimal digits back; the reference against which `DecimalString` is checked. */
  function ParseDecimal(s: string): nat
    requires Digits(s)
  {
    if s == [] then 0
    else ParseDecimal(s[..|s| - 1]) * 10 + ((s[|s| - 1] as int) - ('0' as int))
  }

  /** `to_string` loses nothing: parsing the digits gives the number back. */
  lemma {:induction false} DecimalRoundTrip(n: nat)
    ensures ParseDecimal(DecimalString(n)) == n
  {
    var s := DecimalString(n);
    if n >= 10 {
      DecimalRoundTrip(n / 10);
      assert s[..|s| - 1] == DecimalString(n / 10);
    }
  }

  /** Hence two counts print alike exactly when they are equal. */
  lemma DecimalStringInjective(m: nat, n: nat)
    ensures DecimalString(m) == DecimalString(n) <==> m == n
  {
    if DecimalString(m) == DecimalString(n) {
      DecimalRoundTrip(m);
      DecimalRoundTrip(n);
    }
  }
}
