/** What several models need. */
module Prelude {

  datatype Option<+T> = None | Some(value: T)

  function Min(a: nat, b: nat): (m: nat)
    ensures m <= a && m <= b && (m == a || m == b)
  {
    if a < b then a else b
  }

  // The n numbers from a on
  function Interval(a: nat, n: nat): (s: set<nat>)
    ensures forall v {:trigger v in s} :: v in s <==> a <= v < a + n
    ensures |s| == n
  {
    if n == 0 then {} else Interval(a, n - 1) + {a + n - 1}
  }
}
