// Vocabulary shared by every component: optional values, the C notion of a
// truth value, and the error numbers the source returns.
module Common {

  // A pointer that may be NULL.
  datatype Option<+T> = None | Some(value: T)

  const EINVAL: int := 22
  const ENOMEM: int := 12
  const ENOSPC: int := 28

  // What a C comparison evaluates to.
  function Bit(b: bool): (r: bv32)
    ensures r <= 1
    ensures (r != 0) == b
  {
    if b then 1 else 0
  }

  lemma Associative<T>(a: seq<T>, b: seq<T>, c: seq<T>)
    ensures (a + b) + c == a + (b + c)
  {
  }

  lemma {:induction false} SubsetSize<T>(a: set<T>, b: set<T>)
    requires a <= b
    ensures |a| <= |b|
  {
    if a != {} {
      var x :| x in a;
      SubsetSize(a - {x}, b - {x});
    }
  }
}
