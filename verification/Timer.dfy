/** The timer node that a connection is weakly linked to. */
module Timer {
  import opened Sequences

  /** Readings are in milliseconds and wrap around every 10000 seconds. */
  const WINDOW: nat := 10_000_000

  class TimerNode<T> {
    var deleted: bool
    var expiredTime: nat
    var http: Option<T>
    // The time at which the node was made, not wrapped.
    ghost const armedAt: nat
    ghost const timeout: nat

    constructor (http: T, now: nat, timeout: nat)
      ensures !deleted && this.http == Some(http) && expiredTime == now % WINDOW + timeout
      ensures armedAt == now && this.timeout == timeout
    {
      deleted, this.http, expiredTime := false, Some(http), now % WINDOW + timeout;
      armedAt, this.timeout := now, timeout;
    }

    method SetDeleted()
      modifies this`deleted
      ensures deleted
    {
      deleted := true;
    }

    /** The node gives its connection up; it stays in the queue. */
    method ClearReq()
      modifies this`http, this`deleted
      ensures deleted && http.None?
    {
      http := None;
      SetDeleted();
    }

    /** IsValid at time `now`; an expired node is marked. */
    method IsValid(now: nat) returns (valid: bool)
      modifies this`deleted
      ensures valid <==> now % WINDOW < expiredTime
      ensures deleted == (old(deleted) || !valid)
    {
      if now % WINDOW < expiredTime {
        return true;
      } else {
        SetDeleted();
        return false;
      }
    }
  }
}
