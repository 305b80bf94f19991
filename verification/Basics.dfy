/** Small notions that several modules share. */
module Basics {

  datatype Option<T> = None | Some(value: T)

  type Byte = b: int | 0 <= b < 256

  lemma {:induction false} SubsetSize<T>(small: set<T>, big: set<T>)
    requires small <= big
    ensures |small| <= |big|
  {
    if small != {} {
      var x :| x in small;
      SubsetSize(small - {x}, big - {x});
    }
  }
}
