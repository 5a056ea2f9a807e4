/** Small datatypes and fixed-width integer types shared by every module. */
module Base {

  datatype Option<+T> = None | Some(value: T)

  type byte = b: int | 0 <= b < 0x100
  type u16 = n: int | 0 <= n < 0x1_0000
  type u64 = n: int | 0 <= n < 0x1_0000_0000_0000_0000

  /** A point in time or a duration, in nanoseconds; a point counts from the Unix epoch. */
  type Time = int

  const NANOS: int := 1_000_000_000

  function Seconds(n: nat): Time {
    n * NANOS
  }

  lemma {:induction false} SubsetSize<T>(a: set<T>, b: set<T>)
    requires a <= b
    ensures |a| <= |b|
  {
    if a != {} {
      var x :| x in a;
      SubsetSize(a - {x}, b - {x});
    }
  }
}
