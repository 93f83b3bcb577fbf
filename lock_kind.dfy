/**
 * `LockKind` (benchmarks/vfs/io_uring/src/lock/kind.rs): SQLite's five file
 * lock levels, ordered by their `i32` discriminants.
 */
module LockKinds {
  import Wrappers

  /** The five levels, weakest first. */
  datatype LockKind = None | Shared | Reserved | Pending | Exclusive

  /** The `#[repr(i32)]` discriminant. */
  function Repr(k: LockKind): (n: int)
    ensures 0 <= n <= 4
  {
    match k
    case None => 0
    case Shared => 1
    case Reserved => 2
    case Pending => 3
    case Exclusive => 4
  }

  /** `FromRepr::from_repr`: the kind with discriminant `n`, if there is one. */
  function FromRepr(n: int): (r: Wrappers.Option<LockKind>)
    ensures r.Some? <==> 0 <= n <= 4
    ensures r.Some? ==> Repr(r.value) == n
  {
    if n == 0 then Wrappers.Some(None)
    else if n == 1 then Wrappers.Some(Shared)
    else if n == 2 then Wrappers.Some(Reserved)
    else if n == 3 then Wrappers.Some(Pending)
    else if n == 4 then Wrappers.Some(Exclusive)
    else Wrappers.None
  }

  /** Every kind is recovered from its discriminant, so the discriminants are distinct. */
  lemma FromReprOfRepr(k: LockKind)
    ensures FromRepr(Repr(k)) == Wrappers.Some(k)
  {
  }

  /**
   * `PartialOrd::partial_cmp`, as -1, 0 or 1 inside `Some`: the comparison
   * of the discriminants.
   */
  function PartialCmp(a: LockKind, b: LockKind): (r: Wrappers.Option<int>)
    ensures r.Some? && r.value in {-1, 0, 1}
  {
    var i, o := Repr(a), Repr(b);
    Wrappers.Some(if i < o then -1 else if i == o then 0 else 1)
  }

  /** `a < b` as Rust derives it from `partial_cmp`. */
  predicate Less(a: LockKind, b: LockKind)
  {
    PartialCmp(a, b) == Wrappers.Some(-1)
  }

  /** `partial_cmp` never answers None, and its Equal agrees with `==`: the order is total. */
  lemma OrderIsTotal(a: LockKind, b: LockKind)
    ensures PartialCmp(a, b).Some?
    ensures PartialCmp(a, b).value == 0 <==> a == b
    ensures Less(a, b) || a == b || Less(b, a)
  {
    FromReprOfRepr(a);
    FromReprOfRepr(b);
  }

  /** Swapping the arguments negates the comparison. */
  lemma OrderIsAntisymmetric(a: LockKind, b: LockKind)
    ensures PartialCmp(a, b).value == -PartialCmp(b, a).value
  {
  }

  /** `<` is transitive. */
  lemma OrderIsTransitive(a: LockKind, b: LockKind, c: LockKind)
    requires Less(a, b) && Less(b, c)
    ensures Less(a, c)
  {
  }

  /** The order the lock tests assert: None < Shared < Reserved < Pending < Exclusive. */
  lemma TestLockOrder()
    ensures Less(None, Shared) && Less(Shared, Reserved) && Less(Reserved, Pending) && Less(Pending, Exclusive)
  {
  }

  /** `Default::default`: the weakest kind. */
  function Default(): (k: LockKind)
    ensures forall other :: !Less(other, k)
  {
    None
  }
}
