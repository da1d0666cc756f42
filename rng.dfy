/** The random source the players hold, reduced to what the game relies on:
    `rng.choose(slice).unwrap_or(&0)` yields some element of the slice, or
    0 when the slice is empty. Which element it yields is left open. */
module Rng {

  /** Any element of `s`, or 0 for the empty slice. */
  method Choose(s: seq<nat>) returns (c: nat)
    ensures s == [] ==> c == 0
    ensures s != [] ==> c in s
  {
    if s == [] {
      c := 0;
    } else {
      assert s[0] in s;
      c :| c in s;
    }
  }
}
