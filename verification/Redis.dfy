/** The shared Redis cell of one key and the two Lua scripts that run on it (pool.go). */
module Redis {
  import Protocol

  class Cell {
    var pool: nat
    var windowStart: int

    constructor (pool: nat, windowStart: int)
      ensures this.pool == pool && this.windowStart == windowStart
    {
      this.pool, this.windowStart := pool, windowStart;
    }

    /** borrowLua: hands out what is asked, as far as the pool goes. */
    method Borrow(requested: nat) returns (granted: nat)
      modifies this`pool
      ensures granted <= requested && pool + granted == old(pool)
      ensures granted < requested ==> pool == 0
    {
      var available := pool;
      if available <= 0 {
        return 0;
      }
      granted := if requested <= available then requested else available;
      pool := pool - granted;
    }

    /** windowResetLua: the first caller of a later window refills the pool; others change nothing. */
    method ResetWindow(limit: nat, newStart: int) returns (changed: bool)
      modifies this
      ensures changed <==> newStart > old(windowStart)
      ensures changed ==> pool == limit && windowStart == newStart
      ensures !changed ==> pool == old(pool) && windowStart == old(windowStart)
    {
      var currentStart := windowStart;
      if newStart > currentStart {
        pool := limit;
        windowStart := newStart;
        return true;
      }
      return false;
    }
  }
}
