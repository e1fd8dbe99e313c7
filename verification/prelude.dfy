/** Small shared vocabulary: optional values, results and fixed-width integer ranges. */
module Prelude {

  datatype Option<+T> = None | Some(value: T)

  datatype Result<+T, +E> = Ok(value: T) | Err(error: E)

  const TWO_16 := 0x1_0000
  const TWO_32 := 0x1_0000_0000
  const TWO_64 := 0x1_0000_0000_0000_0000
  const I64_MAX := 0x7FFF_FFFF_FFFF_FFFF
  const U64_MAX := 0xFFFF_FFFF_FFFF_FFFF

  type u8 = n: int | 0 <= n < 256
  type u16 = n: int | 0 <= n < TWO_16
  type u64 = n: int | 0 <= n < TWO_64

  function Min(a: int, b: int): int {
    if a <= b then a else b
  }

  function Max(a: int, b: int): int {
    if a <= b then b else a
  }

  /** `wrapping_add(1)` on a 64-bit unsigned counter. */
  function WrappingSucc(n: u64): u64 {
    if n == U64_MAX then 0 else n + 1
  }

  /** Some element of a non-empty set. */
  ghost function Pick<T>(s: set<T>): (x: T)
    requires |s| > 0
    ensures x in s
  {
    var x :| x in s;
    x
  }

  /** Bytes of a character in UTF-8. */
  function Utf8Length(c: int): nat {
    if c < 0x80 then 1 else if c < 0x800 then 2 else if c < 0x1_0000 then 3 else 4
  }

  function Elements<T(==)>(s: seq<T>): set<T> {
    set x | x in s
  }

  function Map<T, U>(s: seq<T>, f: T -> U): (r: seq<U>)
    ensures |r| == |s| && forall i :: 0 <= i < |s| ==> r[i] == f(s[i])
  {
    seq(|s|, i requires 0 <= i < |s| => f(s[i]))
  }

  lemma ElementsOfPrefixes<T>(s: seq<T>, i: nat)
    requires forall j, k :: 0 <= j < k < |s| ==> s[j] != s[k]
    requires i < |s|
    ensures s[i] in Elements(s) && s[i] !in Elements(s[..i])
    ensures Elements(s[..i + 1]) == Elements(s[..i]) + {s[i]}
    ensures Elements(s[..i]) <= Elements(s)
  {
    assert s[..i + 1] == s[..i] + [s[i]];
  }

  /** Some order of a finite set. */
  method Enumerate<T(==)>(s: set<T>) returns (order: seq<T>)
    ensures Elements(order) == s
    ensures forall i, j :: 0 <= i < j < |order| ==> order[i] != order[j]
  {
    order := [];
    var rest := s;
    while rest != {}
      invariant rest <= s && Elements(order) == s - rest
      invariant forall i, j :: 0 <= i < j < |order| ==> order[i] != order[j]
      decreases rest
    {
      var x :| x in rest;
      assert x !in Elements(order) && Elements(order + [x]) == Elements(order) + {x};
      order := order + [x];
      rest := rest - {x};
    }
  }
}
