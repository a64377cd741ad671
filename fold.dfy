/**
 * The shape of the decoders' record loops: items 0, 1, ... are produced in
 * order, and the first item that fails ends the loop with its error.
 */
module Folds {
  import opened Wrappers
  import opened Errors

  /** The outcome of running items 0 .. k-1 in order, stopping at the first failure. */
  function FoldUpTo<T>(item: nat --> Result<T, Error>, k: nat): (r: Result<seq<T>, Error>)
    requires forall j: nat :: j < k ==> item.requires(j)
    ensures r.Success? ==> |r.value| == k
  {
    if k == 0 then Success([])
    else
      match FoldUpTo(item, k - 1)
      case Failure(e) => Failure(e)
      case Success(acc) =>
        match item(k - 1)
        case Failure(e) => Failure(e)
        case Success(x) => Success(acc + [x])
  }

  /** One more successful item extends a successful fold by its value. */
  lemma FoldStep<T>(item: nat --> Result<T, Error>, k: nat, acc: seq<T>)
    requires forall j: nat :: j <= k ==> item.requires(j)
    requires FoldUpTo(item, k) == Success(acc)
    requires item(k).Success?
    ensures FoldUpTo(item, k + 1) == Success(acc + [item(k).value])
  {
  }

  /** A failing item after a successful fold fails every fold that reaches past it, with its error. */
  lemma FoldStop<T>(item: nat --> Result<T, Error>, k: nat, n: nat)
    requires forall j: nat :: j < n ==> item.requires(j)
    requires k < n
    requires FoldUpTo(item, k).Success?
    requires item(k).Failure?
    ensures FoldUpTo(item, n) == Failure(item(k).error)
  {
    assert FoldUpTo(item, k + 1) == Failure(item(k).error);
    FoldFailurePersists(item, k + 1, n);
  }

  /** The fold succeeds exactly when every item does, and then holds every item's value in order. */
  lemma {:induction false} FoldSuccess<T>(item: nat --> Result<T, Error>, k: nat)
    requires forall j: nat :: j < k ==> item.requires(j)
    ensures FoldUpTo(item, k).Success? <==> forall j: nat :: j < k ==> item(j).Success?
    ensures FoldUpTo(item, k).Success? ==>
              forall j: nat :: j < k ==> FoldUpTo(item, k).value[j] == item(j).value
  {
    if k > 0 {
      FoldSuccess(item, k - 1);
    }
  }

  /** When item j is the first to fail, the whole fold fails with its error. */
  lemma {:induction false} FoldFailAt<T>(item: nat --> Result<T, Error>, k: nat, j: nat)
    requires forall i: nat :: i < k ==> item.requires(i)
    requires j < k
    requires forall i: nat :: i < j ==> item(i).Success?
    requires item(j).Failure?
    ensures FoldUpTo(item, k) == Failure(item(j).error)
  {
    if k - 1 == j {
      FoldSuccess(item, j);
    } else {
      FoldFailAt(item, k - 1, j);
    }
  }

  /** A failure among the first k items is the failure of every longer fold. */
  lemma {:induction false} FoldFailurePersists<T>(item: nat --> Result<T, Error>, k: nat, n: nat)
    requires forall i: nat :: i < n ==> item.requires(i)
    requires k <= n
    requires FoldUpTo(item, k).Failure?
    ensures FoldUpTo(item, n) == FoldUpTo(item, k)
  {
    if k < n {
      FoldFailurePersists(item, k, n - 1);
    }
  }
}
