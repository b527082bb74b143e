/** Shared vocabulary: optional values, results, integer widths, flattening, products. */
module Basics {

  const U32_MAX := 0xFFFF_FFFF
  const U64_MAX := 0xFFFF_FFFF_FFFF_FFFF

  datatype Option<+T> = None | Some(value: T)

  datatype Result<+T, +E> = Ok(value: T) | Err(error: E)

  function Min(a: int, b: int): int {
    if a <= b then a else b
  }

  function Max(a: int, b: int): int {
    if a >= b then a else b
  }

  /** Concatenation of a sequence of sequences. */
  function Flatten<T>(parts: seq<seq<T>>): seq<T> {
    if parts == [] then [] else parts[0] + Flatten(parts[1..])
  }

  lemma {:induction false} FlattenAppend<T>(left: seq<seq<T>>, right: seq<seq<T>>)
    ensures Flatten(left + right) == Flatten(left) + Flatten(right)
  {
    if left == [] {
      assert left + right == right;
    } else {
      assert left + right == [left[0]] + (left[1..] + right);
      calc {
        Flatten(left + right);
        left[0] + Flatten(left[1..] + right);
        { FlattenAppend(left[1..], right); }
        left[0] + (Flatten(left[1..]) + Flatten(right));
        Flatten(left) + Flatten(right);
      }
    }
  }

  lemma FlattenSnoc<T>(parts: seq<seq<T>>, last: seq<T>)
    ensures Flatten(parts + [last]) == Flatten(parts) + last
  {
    FlattenAppend(parts, [last]);
    assert Flatten([last]) == last;
  }

  lemma SplitTwice<T>(s: seq<T>, from: nat, to: nat)
    requires from <= to <= |s|
    ensures s == s[..from] + (s[from..to] + s[to..])
  {
  }

  /** A run of parts inside the concatenation. */
  lemma FlattenRun<T>(parts: seq<seq<T>>, from: nat, to: nat)
    requires from <= to <= |parts|
    ensures Flatten(parts) == Flatten(parts[..from]) + (Flatten(parts[from..to]) + Flatten(parts[to..]))
  {
    SplitTwice(parts, from, to);
    FlattenAppend(parts[..from], parts[from..to] + parts[to..]);
    FlattenAppend(parts[from..to], parts[to..]);
  }

  lemma Associative<T>(a: seq<T>, b: seq<T>, c: seq<T>)
    ensures a + (b + c) == (a + b) + c
  {
  }

  // ---- Multiplication the solver does not do by itself ----------------------------------

  lemma MulLe(a: int, b: int, c: int)
    requires a <= b && 0 <= c
    ensures a * c <= b * c
  {
  }

  /** Cancelling a factor, with room for a remainder. */
  lemma MulCancel(a: int, b: int, c: int)
    requires c > 0 && a * c < b * c + c
    ensures a <= b
  {
    assert (b + 1) * c == b * c + c;
    if a > b { MulLe(b + 1, a, c); }
  }

  lemma Multiples(n: nat, d: nat)
    requires d > 0
    ensures n * d / d == n && n * d % d == 0
  {
    QuotientIs(n * d, d, n);
  }

  lemma QuotientIs(n: nat, d: nat, q: nat)
    requires d > 0 && q * d <= n < q * d + d
    ensures n / d == q && n % d == n - q * d
  {
    var p, r := n / d, n % d;
    assert n == p * d + r && 0 <= r < d;
    MulCancel(p, q, d);
    MulCancel(q, p, d);
  }
}
