/** Per-tier byte budgets: committed use, reservations, and the checks that bound both. */
module Accounting {
  import opened Prelude

  datatype Budget = Budget(capacity: u64, used: u64, reserved: u64)

  function Free(b: Budget): u64 {
    SatSub(b.capacity, SatAdd(b.used, b.reserved))
  }

  /** Every operation yields the new budget and whether it succeeded. */
  function AddUsed(b: Budget, n: nat): (Budget, bool) {
    if b.used + n > U64_MAX || b.used + n > b.capacity then (b, false)
    else (b.(used := b.used + n), true)
  }

  function SubUsed(b: Budget, n: nat): (Budget, bool) {
    if n > b.used then (b, false) else (b.(used := b.used - n), true)
  }

  function Reserve(b: Budget, n: nat): (Budget, bool) {
    if b.reserved + n > U64_MAX || SatAdd(b.used, b.reserved + n) > b.capacity then (b, false)
    else (b.(reserved := b.reserved + n), true)
  }

  function CommitReserve(b: Budget, n: nat): (Budget, bool) {
    if n > b.reserved then (b, false) else AddUsed(b.(reserved := b.reserved - n), n)
  }

  function CancelReserve(b: Budget, n: nat): (Budget, bool) {
    if n > b.reserved then (b, false) else (b.(reserved := b.reserved - n), true)
  }

  /** Use and reservations together never exceed the capacity. */
  predicate Sound(b: Budget) {
    b.used + b.reserved <= b.capacity
  }

  /** A reservation that fits in the free bytes always succeeds, and committing or cancelling it is exact. */
  lemma ReservationCommits(b: Budget, n: nat)
    requires Sound(b)
    ensures Free(b) == b.capacity - b.used - b.reserved
    ensures n <= Free(b) ==> Reserve(b, n) == (b.(reserved := b.reserved + n), true)
    ensures n <= Free(b) ==> CommitReserve(Reserve(b, n).0, n) == (b.(used := b.used + n), true)
    ensures n <= Free(b) ==> CancelReserve(Reserve(b, n).0, n) == (b, true)
  {
  }

  /**
   * Reserving keeps the budget sound unless the capacity is the largest machine integer: the saturated
   * sum then cannot exceed it, and a reservation past the capacity is granted.
   */
  lemma ReserveKeepsSoundIff(b: Budget, n: nat)
    requires Sound(b) && b.reserved + n <= U64_MAX
    ensures Sound(Reserve(b, n).0) <==> b.capacity < U64_MAX || b.used + b.reserved + n <= U64_MAX
  {
    assert b.used + (b.reserved + n) == b.used + b.reserved + n;
  }

  class BudgetCell {
    var capacity: u64
    var used: u64
    var reserved: u64

    function View(): Budget
      reads this
    {
      Budget(capacity, used, reserved)
    }

    constructor (cap: u64)
      ensures View() == Budget(cap, 0, 0)
    {
      capacity, used, reserved := cap, 0, 0;
    }

    function FreeBytes(): (n: u64)
      reads this
      ensures n == Free(View())
    {
      SatSub(capacity, SatAdd(used, reserved))
    }

    method Add(n: nat) returns (ok: bool)
      modifies this
      ensures (View(), ok) == AddUsed(old(View()), n)
    {
      var next := used + n;
      if next > U64_MAX || next > capacity {
        return false;
      }
      used := next;
      return true;
    }

    method Sub(n: nat) returns (ok: bool)
      modifies this
      ensures (View(), ok) == SubUsed(old(View()), n)
    {
      if n > used {
        return false;
      }
      used := used - n;
      return true;
    }

    method TakeReservation(n: nat) returns (ok: bool)
      modifies this
      ensures (View(), ok) == Reserve(old(View()), n)
    {
      var next := reserved + n;
      if next > U64_MAX || SatAdd(used, next) > capacity {
        return false;
      }
      reserved := next;
      return true;
    }

    method Commit(n: nat) returns (ok: bool)
      modifies this
      ensures (View(), ok) == CommitReserve(old(View()), n)
    {
      if n > reserved {
        return false;
      }
      reserved := reserved - n;
      ok := Add(n);
    }

    method Cancel(n: nat) returns (ok: bool)
      modifies this
      ensures (View(), ok) == CancelReserve(old(View()), n)
    {
      if n > reserved {
        return false;
      }
      reserved := reserved - n;
      return true;
    }
  }
}
