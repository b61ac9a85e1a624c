/** Small types shared by the other modules. */
module Common {

  datatype Option<+T> = None | Some(value: T)

  type Byte = x: int | 0 <= x < 256

  lemma {:induction false} SubsetSize<T>(a: set<T>, b: set<T>)
    requires a <= b
    ensures |a| <= |b|
    decreases a
  {
    if a != {} {
      var x :| x in a;
      SubsetSize(a - {x}, b - {x});
    }
  }
}
