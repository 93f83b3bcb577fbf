/**
 * `Lock` (benchmarks/vfs/io_uring/src/lock/lock.rs): one SQLite lock level
 * built from two BSD `flock` locks, one on the database file (fd1) and one
 * on a per-inode lock file (fd2). Each `flock` call is non-blocking and its
 * answer depends on other processes, so the answers are inputs here.
 */
module Locks {
  import opened LockKinds

  /** What one `flock` holds on a descriptor. */
  datatype FlockLevel = Unlocked | SharedFlock | ExclusiveFlock

  /**
   * Whether each non-blocking `flock` request `lock` may make during one
   * call would be granted: shared on fd1, shared on fd2, exclusive on fd2,
   * exclusive on fd1.
   */
  datatype Grants = Grants(fd1Shared: bool, fd2Shared: bool, fd2Exclusive: bool, fd1Exclusive: bool)

  /** How `lock` ends: it returns a boolean, or it panics on a transition it forbids. */
  datatype LockResult = Returned(acquired: bool) | Panicked

  /**
   * What `lock(to)` returns and the level it leaves behind, from level
   * `before`, when `flock` answers as `g` says.
   */
  function Outcome(before: LockKind, to: LockKind, g: Grants): (LockResult, LockKind)
  {
    if before == to then (Returned(true), before)
    else if before == None && to != Shared then (Panicked, before)
    else match to
      case None => (Returned(true), None)
      case Shared =>
        if before != Reserved && !g.fd1Shared then (Returned(false), before)
        else if g.fd2Shared then (Returned(true), Shared)
        else if before == Pending || before == Exclusive then (Panicked, before)
        else (Returned(false), before)
      case Reserved =>
        if before != Shared then (Panicked, before)
        else if g.fd2Exclusive then (Returned(true), Reserved)
        else (Returned(false), before)
      case Pending => (Panicked, before)
      case Exclusive =>
        if before != Pending && !g.fd2Exclusive then (Returned(false), before)
        else if !g.fd1Exclusive then (Returned(true), Pending)
        else (Returned(true), Exclusive)
  }

  /** Asking for the level already held returns true and changes nothing. */
  lemma SameLevelIsNoOp(k: LockKind, g: Grants)
    ensures Outcome(k, k, g) == (Returned(true), k)
  {
  }

  /** From no lock, asking for anything above Shared panics. */
  lemma UnlockedGoesOnlyToShared(to: LockKind, g: Grants)
    requires to != None && to != Shared
    ensures Outcome(None, to, g).0 == Panicked
  {
  }

  /** Asking for Pending explicitly panics, unless it is already held. */
  lemma PendingIsNeverRequested(before: LockKind, g: Grants)
    requires before != Pending
    ensures Outcome(before, Pending, g).0 == Panicked
  {
  }

  /** Reserved can only be reached from Shared, and then exactly when fd2 can be locked exclusively. */
  lemma ReservedOnlyFromShared(before: LockKind, g: Grants)
    requires before != Reserved
    ensures Outcome(before, Reserved, g).0 == Panicked <==> before != Shared
    ensures before == Shared ==>
      Outcome(before, Reserved, g) == if g.fd2Exclusive then (Returned(true), Reserved) else (Returned(false), Shared)
  {
  }

  /** Releasing always succeeds and leaves no lock. */
  lemma ReleaseAlwaysSucceeds(before: LockKind, g: Grants)
    ensures Outcome(before, None, g) == (Returned(true), None)
  {
  }

  /**
   * Asking for Exclusive from a held lock never panics. It fails only when
   * fd2 is needed and busy; otherwise it returns true and ends in Exclusive,
   * or in Pending when fd1 cannot be locked exclusively.
   */
  lemma ExclusiveEndsExclusiveOrPending(before: LockKind, g: Grants)
    requires before in {Shared, Reserved, Pending}
    ensures Outcome(before, Exclusive, g).0 != Panicked
    ensures Outcome(before, Exclusive, g).0 == Returned(false) <==> before != Pending && !g.fd2Exclusive
    ensures Outcome(before, Exclusive, g).0 == Returned(true) ==>
      Outcome(before, Exclusive, g).1 == if g.fd1Exclusive then Exclusive else Pending
  {
  }

  /** A call that fails or panics leaves the level alone; any call ends at the old level, the target, or Pending. */
  lemma LevelMovesOnlyToTarget(before: LockKind, to: LockKind, g: Grants)
    ensures Outcome(before, to, g).0 != Returned(true) ==> Outcome(before, to, g).1 == before
    ensures Outcome(before, to, g).1 in {before, to, Pending}
    ensures Outcome(before, to, g).1 == Pending && before != Pending ==> to == Exclusive && Outcome(before, to, g).0 == Returned(true)
  {
  }

  /**
   * `Connection::lock` (connection.rs): `lock(to)` and then a check that the
   * level held is the one asked for, so that Exclusive stopping at Pending
   * reports "busy".
   */
  function ConnectionLock(before: LockKind, to: LockKind, g: Grants): (r: LockResult)
    ensures r == Returned(true) <==> Outcome(before, to, g) == (Returned(true), to)
    ensures r == Panicked <==> Outcome(before, to, g).0 == Panicked
  {
    match Outcome(before, to, g).0
    case Panicked => Panicked
    case Returned(acquired) => Returned(acquired && Outcome(before, to, g).1 == to)
  }

  /** Exclusive that only reached Pending is reported as not acquired, although the level did move. */
  lemma PendingReportsBusy(before: LockKind, g: Grants)
    requires before in {Shared, Reserved} && g.fd2Exclusive && !g.fd1Exclusive
    ensures Outcome(before, Exclusive, g) == (Returned(true), Pending)
    ensures ConnectionLock(before, Exclusive, g) == Returned(false)
  {
  }

  /** The flock levels the table in lock.rs gives each lock level: (database file, lock file). */
  function Expected(k: LockKind): (FlockLevel, FlockLevel)
  {
    match k
    case None => (Unlocked, Unlocked)
    case Shared => (SharedFlock, Unlocked)
    case Reserved => (SharedFlock, SharedFlock)
    case Pending => (SharedFlock, ExclusiveFlock)
    case Exclusive => (ExclusiveFlock, ExclusiveFlock)
  }

  /** The flocks that level `k` holds on the lock file exclude an exclusive flock by anyone else exactly from Reserved up. */
  lemma LockFileHeldFromReserved(k: LockKind)
    ensures Expected(k).1 != Unlocked <==> Less(Shared, k)
  {
  }

  /**
   * Whether `flock` grants a non-blocking request for `want` while another
   * open file holds `held` on the same file: shared beside anything but
   * exclusive, exclusive beside nothing.
   */
  predicate Admits(want: FlockLevel, held: FlockLevel)
  {
    match want
    case Unlocked => true
    case SharedFlock => held != ExclusiveFlock
    case ExclusiveFlock => held == Unlocked
  }

  /** The answers `flock` gives one connection while a second one holds `other1` on the database file and `other2` on the lock file. */
  function GrantsBeside(other1: FlockLevel, other2: FlockLevel): (g: Grants)
    ensures g.fd1Exclusive ==> g.fd1Shared
    ensures g.fd2Exclusive ==> g.fd2Shared
  {
    Grants(Admits(SharedFlock, other1), Admits(SharedFlock, other2),
           Admits(ExclusiveFlock, other2), Admits(ExclusiveFlock, other1))
  }

  /** Beside a connection at Reserved or above, a second Reserved lock is refused. */
  lemma OneReservedAtATime(other: LockKind)
    requires Less(Shared, other)
    ensures Outcome(Shared, Reserved, GrantsBeside(Expected(other).0, Expected(other).1)) == (Returned(false), Shared)
  {
  }

  /** Beside any other connection holding a lock, Exclusive is never reached. */
  lemma ExclusiveExcludesEveryone(before: LockKind, other: LockKind)
    requires before in {Shared, Reserved, Pending} && other != None
    ensures Outcome(before, Exclusive, GrantsBeside(Expected(other).0, Expected(other).1)).1 != Exclusive
  {
  }

  /** New readers get in beside None, Shared and Reserved, and are kept out by Pending and Exclusive. */
  lemma NewReaders(other: LockKind)
    ensures Outcome(None, Shared, GrantsBeside(Expected(other).0, Expected(other).1)).1 == Shared
      <==> other in {None, Shared, Reserved}
  {
  }

  /** `Lock`: the current level, and the flocks this object holds on its two descriptors. */
  class Lock {
    var current: LockKind
    ghost var fd1: FlockLevel
    ghost var fd2: FlockLevel

    /** The flocks held are the ones the table prescribes for the current level. */
    ghost predicate Consistent()
      reads this
    {
      (fd1, fd2) == Expected(current)
    }

    /** `Lock::new`: no lock held. */
    constructor ()
      ensures current == None && Consistent()
    {
      current := None;
      fd1, fd2 := Unlocked, Unlocked;
    }

    /** `current`. */
    function Current(): (k: LockKind)
      reads this
      ensures Consistent() ==> Expected(k) == (fd1, fd2)
    {
      current
    }

    /**
     * `reserved`: true above Shared; otherwise it tries to lock fd2
     * exclusively (released at once), and someone holds Reserved or more
     * exactly when that is refused.
     */
    method IsReserved(fd2Free: bool) returns (b: bool)
      modifies this
      ensures b <==> Less(Shared, old(current)) || !fd2Free
      ensures current == old(current) && fd1 == old(fd1)
      ensures old(Consistent()) ==> Consistent() && fd2 == old(fd2)
    {
      if Less(Shared, current) {
        return true;
      }
      if fd2Free {
        fd2 := Unlocked;
        return false;
      }
      b := true;
    }

    /** The Shared arm of `lock`. */
    method AcquireShared(g: Grants) returns (r: LockResult)
      requires current != Shared
      modifies this
      ensures (r, current) == Outcome(old(current), Shared, g)
      ensures old(Consistent()) && r.Returned? ==> Consistent()
    {
      if current != Reserved {
        if !g.fd1Shared {
          return Returned(false);
        }
        fd1 := SharedFlock;
      }
      if g.fd2Shared {
        fd2 := Unlocked;
        current := Shared;
        return Returned(true);
      } else if current == Pending || current == Exclusive {
        return Panicked;
      } else if current == None {
        fd1 := Unlocked;
        return Returned(false);
      }
      r := Returned(false);
    }

    /** The Reserved arm of `lock`: fd2 is locked exclusively, then downgraded to shared. */
    method AcquireReserved(g: Grants) returns (r: LockResult)
      requires current != Reserved && current != None
      modifies this
      ensures (r, current) == Outcome(old(current), Reserved, g)
      ensures old(Consistent()) && r.Returned? ==> Consistent()
    {
      if current != Shared {
        return Panicked;
      }
      if g.fd2Exclusive {
        fd2 := SharedFlock;
        current := Reserved;
        return Returned(true);
      }
      r := Returned(false);
    }

    /** The Exclusive arm of `lock`: fd2 first (unless Pending already holds it), then fd1. */
    method AcquireExclusive(g: Grants) returns (r: LockResult)
      requires current != Exclusive && current != None
      modifies this
      ensures (r, current) == Outcome(old(current), Exclusive, g)
      ensures old(Consistent()) && r.Returned? ==> Consistent()
    {
      if current != Pending {
        if !g.fd2Exclusive {
          return Returned(false);
        }
        fd2 := ExclusiveFlock;
      }
      if !g.fd1Exclusive {
        current := Pending;
        return Returned(true);
      }
      fd1 := ExclusiveFlock;
      current := Exclusive;
      r := Returned(true);
    }

    /**
     * `lock`, as written: releasing unlocks fd2 only from Pending or
     * Exclusive, so releasing straight from Reserved keeps the shared flock
     * on the lock file.
     */
    method Lock(to: LockKind, g: Grants) returns (r: LockResult)
      modifies this
      ensures (r, current) == Outcome(old(current), to, g)
      ensures old(Consistent()) && r.Returned? && !(old(current) == Reserved && to == None) ==> Consistent()
      ensures old(Consistent()) && old(current) == Reserved && to == None ==>
        current == None && fd2 == SharedFlock && !Consistent()
    {
      if current == to {
        return Returned(true);
      }
      if current == None && to != Shared {
        return Panicked;
      }
      match to
      case None =>
        fd1 := Unlocked;
        if current == Pending || current == Exclusive {
          fd2 := Unlocked;
        }
        current := None;
        r := Returned(true);
      case Shared =>
        r := AcquireShared(g);
      case Reserved =>
        r := AcquireReserved(g);
      case Pending =>
        r := Panicked;
      case Exclusive =>
        r := AcquireExclusive(g);
    }

    /** `lock` with the release corrected: fd2 is unlocked whenever a level above Shared is given up. */
    method CorrectedLock(to: LockKind, g: Grants) returns (r: LockResult)
      modifies this
      ensures (r, current) == Outcome(old(current), to, g)
      ensures old(Consistent()) && r.Returned? ==> Consistent()
    {
      if current == to {
        return Returned(true);
      }
      if current == None && to != Shared {
        return Panicked;
      }
      match to
      case None =>
        fd1 := Unlocked;
        if current == Reserved || current == Pending || current == Exclusive {
          fd2 := Unlocked;
        }
        current := None;
        r := Returned(true);
      case Shared =>
        r := AcquireShared(g);
      case Reserved =>
        r := AcquireReserved(g);
      case Pending =>
        r := Panicked;
      case Exclusive =>
        r := AcquireExclusive(g);
    }
  }

  /**
   * `test_exclusive_via_reserved` and `test_shared_while_reserved`: alone,
   * Shared, Reserved and Exclusive are reached in turn; a second
   * connection gets Shared beside one at Reserved.
   */
  lemma TestSingleConnection(alone: Grants, besideReserved: Grants)
    requires alone == GrantsBeside(Unlocked, Unlocked)
    requires besideReserved == GrantsBeside(SharedFlock, SharedFlock)
    ensures Outcome(None, Shared, alone) == (Returned(true), Shared)
    ensures Outcome(Shared, Reserved, alone) == (Returned(true), Reserved)
    ensures Outcome(Reserved, Exclusive, alone) == (Returned(true), Exclusive)
    ensures Outcome(None, Shared, besideReserved) == (Returned(true), Shared)
  {
  }

  /**
   * `test_reserved_once`: beside a Reserved connection, Reserved is
   * refused; once that one drops back to Shared, it is granted.
   */
  lemma TestReservedOnce(besideShared: Grants, besideReserved: Grants)
    requires besideShared == GrantsBeside(SharedFlock, Unlocked)
    requires besideReserved == GrantsBeside(SharedFlock, SharedFlock)
    ensures Outcome(Shared, Reserved, besideShared) == (Returned(true), Reserved)
    ensures Outcome(Shared, Reserved, besideReserved) == (Returned(false), Shared)
    ensures Outcome(Reserved, Shared, besideShared) == (Returned(true), Shared)
  {
  }

  /**
   * `test_pending`, `test_pending_once` and `test_pending_to_exclusive`:
   * beside a reader, Exclusive stops at Pending and still returns true; a
   * reader beside it cannot ask for Exclusive; once the reader is gone, the
   * Pending connection reaches Exclusive.
   */
  lemma TestPending(besideShared: Grants, besidePending: Grants, alone: Grants)
    requires besideShared == GrantsBeside(SharedFlock, Unlocked)
    requires besidePending == GrantsBeside(SharedFlock, ExclusiveFlock)
    requires alone == GrantsBeside(Unlocked, Unlocked)
    ensures Outcome(Shared, Exclusive, besideShared) == (Returned(true), Pending)
    ensures Outcome(Shared, Exclusive, besidePending) == (Returned(false), Shared)
    ensures Outcome(Shared, None, besidePending) == (Returned(true), None)
    ensures Outcome(Pending, Exclusive, alone) == (Returned(true), Exclusive)
  {
  }

  /**
   * After `lock` releases straight from Reserved, the shared flock left on
   * the lock file makes a second connection's Reserved request fail,
   * although the first connection holds no lock; with the lock file
   * released as the table prescribes, it succeeds.
   */
  lemma LeakedFlockBlocksReserved(leaked: Grants, released: Grants)
    requires leaked == GrantsBeside(Unlocked, SharedFlock)
    requires released == GrantsBeside(Expected(None).0, Expected(None).1)
    ensures Outcome(Shared, Reserved, leaked) == (Returned(false), Shared)
    ensures Outcome(Shared, Reserved, released) == (Returned(true), Reserved)
  {
  }
}
