/** What several components share: optional results, lists without repetition and the
    arithmetic of 32-bit unsigned words. */
module Common {

  datatype Option<+T> = None | Some(value: T)

  ghost predicate NoDup(s: seq<nat>) {
    forall i, j :: 0 <= i < j < |s| ==> s[i] != s[j]
  }

  const WORD: nat := 0x1_0000_0000

  function Sub32(a: nat, b: nat): nat {
    (a - b) % WORD
  }

  function Add32(a: nat, b: nat): nat {
    (a + b) % WORD
  }
}
