/**
  The per-object constant slot allocator of the resource manager, as values:
  a free list of released slots, most recently released last, and a
  high-water mark below which every slot has been handed out at least once.
 */
module Slots {

  datatype Allocator = Allocator(free: seq<nat>, next: nat)

  /** Nothing handed out yet: the high-water counter starts at 0. */
  const Initial: Allocator := Allocator([], 0)

  datatype Acquired = Acquired(slot: nat, rest: Allocator)

  /** Reuse the most recently released slot, else the high-water mark. */
  function Acquire(a: Allocator): Acquired {
    if |a.free| > 0 then Acquired(a.free[|a.free| - 1], Allocator(a.free[..|a.free| - 1], a.next))
    else Acquired(a.next, Allocator(a.free, a.next + 1))
  }

  /** Push the slot on the free list, whether or not it is in use. */
  function Release(a: Allocator, slot: nat): Allocator {
    Allocator(a.free + [slot], a.next)
  }

  /** Releasing a slot and acquiring again returns that slot and restores the allocator. */
  lemma AcquireUndoesRelease(a: Allocator, slot: nat)
    ensures Acquire(Release(a, slot)) == Acquired(slot, a)
  {
    assert (a.free + [slot])[..|a.free|] == a.free;
  }

  // ---------------------------------------------------------------------
  // No aliasing, for callers that release only slots they hold.

  ghost predicate NoDuplicates(s: seq<nat>) {
    forall i, j :: 0 <= i < j < |s| ==> s[i] != s[j]
  }

  /** `live` is the set of slots currently held.  Every slot below the mark
      is held or free, never both; the free list has no repeats. */
  ghost predicate Accounts(a: Allocator, live: set<nat>) {
    && NoDuplicates(a.free)
    && (forall i :: 0 <= i < |a.free| ==> a.free[i] < a.next && a.free[i] !in live)
    && (forall s :: s in live ==> s < a.next)
    && (forall s :: 0 <= s < a.next ==> s in live || s in a.free)
  }

  lemma InitialAccounts()
    ensures Accounts(Initial, {})
  {
  }

  /** An acquired slot is not held by anyone, and the books stay balanced. */
  lemma AcquirePreservesAccounts(a: Allocator, live: set<nat>)
    requires Accounts(a, live)
    ensures Acquire(a).slot !in live
    ensures Acquire(a).slot < Acquire(a).rest.next
    ensures Accounts(Acquire(a).rest, live + {Acquire(a).slot})
  {
    var r := Acquire(a);
    if |a.free| > 0 {
      var n := |a.free| - 1;
      assert r.slot == a.free[n];
      forall s | 0 <= s < r.rest.next
        ensures s in live + {r.slot} || s in r.rest.free
      {
        if s !in live && s != r.slot {
          assert s in a.free;
          var k :| 0 <= k < |a.free| && a.free[k] == s;
          assert k != n;
          assert r.rest.free[k] == s;
        }
      }
      forall i | 0 <= i < |r.rest.free|
        ensures r.rest.free[i] < r.rest.next && r.rest.free[i] !in live + {r.slot}
      {
        assert r.rest.free[i] == a.free[i];
        assert i < n;
      }
    }
  }

  /** Releasing a slot that is held, and nowhere on the free list, keeps the books balanced. */
  lemma ReleasePreservesAccounts(a: Allocator, live: set<nat>, slot: nat)
    requires Accounts(a, live) && slot in live
    ensures Accounts(Release(a, slot), live - {slot})
  {
    var r := Release(a, slot);
    forall i, j | 0 <= i < j < |r.free|
      ensures r.free[i] != r.free[j]
    {
      if j == |a.free| {
        assert r.free[i] == a.free[i];
      }
    }
    forall s | 0 <= s < r.next
      ensures s in live - {slot} || s in r.free
    {
      if s == slot {
        assert r.free[|a.free|] == slot;
      } else if s !in live {
        var k :| 0 <= k < |a.free| && a.free[k] == s;
        assert r.free[k] == s;
      }
    }
  }

  /** A slot released twice without an acquire in between is handed to two
      callers in a row: the allocator keeps no record of what is live. */
  lemma DoubleReleaseAliases(a: Allocator, slot: nat)
    ensures var first := Acquire(Release(Release(a, slot), slot));
            var second := Acquire(first.rest);
            first.slot == slot && second.slot == slot
  {
    var twice := Release(Release(a, slot), slot);
    assert twice.free[..|twice.free| - 1] == a.free + [slot];
  }

  /** Acquire, Acquire, Release(0), Acquire, Acquire from a fresh
      allocator yields 0, 1, 0, 2: released slots come back before the mark moves. */
  lemma ReuseBeforeAdvance()
    ensures var a1 := Acquire(Initial);
            var a2 := Acquire(a1.rest);
            var a3 := Acquire(Release(a2.rest, a1.slot));
            var a4 := Acquire(a3.rest);
            a1.slot == 0 && a2.slot == 1 && a3.slot == 0 && a4.slot == 2
  {
    var a1 := Acquire(Initial);
    var a2 := Acquire(a1.rest);
    AcquireUndoesRelease(a2.rest, a1.slot);
  }
}
