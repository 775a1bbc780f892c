/** What several of the models share. */
module Common {
  datatype Option<+T> = None | Some(value: T)

  /** The most blocks an operation may write (kernel/param.h). */
  const MAXOPBLOCKS := 10

  lemma {:induction false} SubsetSize<T>(small: set<T>, large: set<T>)
    requires small <= large
    ensures |small| <= |large|
  {
    if small != {} {
      var x :| x in small;
      SubsetSize(small - {x}, large - {x});
    }
  }
}
