/** The JavaScript number and array built-ins used by the pagination code:
    `Math.min`, `Math.max`, `Math.ceil` of a quotient and `Array.prototype.slice`. */
module Js {

  function Min(a: int, b: int): (r: int)
    ensures r <= a && r <= b
    ensures r == a || r == b
  {
    if a <= b then a else b
  }

  function Max(a: int, b: int): (r: int)
    ensures r >= a && r >= b
    ensures r == a || r == b
  {
    if a >= b then a else b
  }

  /** `Math.ceil(a / b)` for a positive divisor: the least `q` with `a <= q * b`.
      Dafny's `/` rounds down when the divisor is positive. */
  function CeilDiv(a: int, b: int): (q: int)
    requires b > 0
    ensures (q - 1) * b < a <= q * b
  {
    var f := (-a) / b;
    assert f * b <= -a < f * b + b;
    -f
  }

  /** `Math.ceil(a / b)` is the only integer with that property. */
  lemma CeilDivUnique(a: int, b: int, q: int)
    requires b > 0
    requires (q - 1) * b < a <= q * b
    ensures q == CeilDiv(a, b)
  {
    var c := CeilDiv(a, b);
    MulCancel(c - 1, q, b);
    MulCancel(q - 1, c, b);
  }

  /** A positive factor can be cancelled from a strict inequality. */
  lemma MulCancel(x: int, y: int, b: int)
    requires b > 0
    requires x * b < y * b
    ensures x < y
  {
    assert y * b - x * b == (y - x) * b;
  }

  /** How `slice` resolves an index argument against a length: a negative
      index counts back from the end; the result is clamped to `[0, len]`. */
  function SliceIndex(i: int, len: nat): (r: nat)
    ensures r <= len
    ensures 0 <= i ==> r == Min(i, len)
    ensures i < 0 ==> r == Max(len + i, 0)
  {
    if i < 0 then (if len + i < 0 then 0 else len + i)
    else if i > len then len
    else i
  }

  /** `s.slice(start, end)`. For non-negative arguments it is the run of
      `s` between the two indices, each clipped to the length. */
  function Slice<T>(s: seq<T>, start: int, end: int): (r: seq<T>)
    ensures |r| <= |s|
    ensures 0 <= start <= end ==> r == s[Min(start, |s|)..Min(end, |s|)]
  {
    var a := SliceIndex(start, |s|);
    var b := SliceIndex(end, |s|);
    if a < b then s[a..b] else []
  }
}
