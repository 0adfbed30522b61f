/** Calls to the operating system, any of which may fail. */
module SystemCalls {
  /** Counts the calls that failed, so that a contract can say what happens when none does. */
  class Calls {
    ghost var failed: nat

    constructor ()
      ensures failed == 0
    {
      failed := 0;
    }

    method Attempt() returns (ok: bool)
      modifies this
      ensures failed == if ok then old(failed) else old(failed) + 1
    {
      ok := *;
      if !ok { failed := failed + 1; }
    }
  }
}
