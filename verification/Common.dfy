/** What several modules share. */
module Common {

  type byte = bv8

  const U32: nat := 0x1_0000_0000

  datatype Option<+T> = None | Some(value: T)

  lemma Fewer(a: set<nat>, b: set<nat>)
    requires a <= b
    ensures |a| <= |b|
    decreases |a|
  {
    if a != {} {
      var x :| x in a;
      Fewer(a - {x}, b - {x});
    }
  }
}
