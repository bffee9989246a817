/** Option and Result, and the all-or-nothing map over a sequence that a
    Python list comprehension performs when its element expression can raise. */
module Wrappers {

  datatype Option<+T> = None | Some(value: T) {

    /** The value, or `default` when absent (Python's `dict.get(key, default)`). */
    function GetOr(default: T): T {
      match this
      case Some(v) => v
      case None => default
    }
  }

  datatype Result<+T, +E> = Success(value: T) | Failure(error: E) {

    predicate IsFailure() {
      Failure?
    }

    function PropagateFailure<U>(): Result<U, E>
      requires Failure?
    {
      Failure(error)
    }

    function Extract(): T
      requires Success?
    {
      value
    }
  }

  /** Applies `f` to every element in order and stops at the first failure,
      as `[f(x) for x in xs]` does when `f` raises. */
  function MapResult<A, B, E>(f: A -> Result<B, E>, xs: seq<A>): (r: Result<seq<B>, E>)
    ensures r.Success? <==> forall i :: 0 <= i < |xs| ==> f(xs[i]).Success?
    ensures r.Success? ==> |r.value| == |xs| && forall i :: 0 <= i < |xs| ==> r.value[i] == f(xs[i]).value
    ensures r.Failure? ==> exists i :: 0 <= i < |xs| && f(xs[i]) == Failure(r.error)
                                       && forall j :: 0 <= j < i ==> f(xs[j]).Success?
  {
    if |xs| == 0 then Success([])
    else
      match f(xs[0])
      case Failure(e) => Failure(e)
      case Success(y) =>
        match MapResult(f, xs[1..])
        case Failure(e) =>
          ghost var k :| 0 <= k < |xs| - 1 && f(xs[1..][k]) == Failure(e)
                         && forall j :: 0 <= j < k ==> f(xs[1..][j]).Success?;
          assert f(xs[k + 1]) == Failure(e);
          assert forall j :: 0 <= j < k + 1 ==> f(xs[j]).Success? by {
            forall j | 0 < j < k + 1 ensures f(xs[j]).Success? {
              assert xs[j] == xs[1..][j - 1];
            }
          }
          Failure(e)
        case Success(ys) =>
          assert forall i :: 0 < i < |xs| ==> xs[i] == xs[1..][i - 1];
          Success([y] + ys)
  }

  /** Mapping a concatenation yields the concatenation of the mapped parts. */
  lemma MapResultAppend<A, B, E>(f: A -> Result<B, E>, xs: seq<A>, ys: seq<A>)
    requires MapResult(f, xs + ys).Success?
    ensures MapResult(f, xs).Success? && MapResult(f, ys).Success?
    ensures MapResult(f, xs + ys).value == MapResult(f, xs).value + MapResult(f, ys).value
  {
    var zs := xs + ys;
    assert forall i :: 0 <= i < |xs| ==> zs[i] == xs[i];
    assert forall i :: 0 <= i < |ys| ==> zs[|xs| + i] == ys[i];
    assert MapResult(f, xs).Success?;
    assert MapResult(f, ys).Success? by {
      forall i | 0 <= i < |ys| ensures f(ys[i]).Success? {
        assert f(zs[|xs| + i]).Success?;
      }
    }
    var a, b, c := MapResult(f, xs).value, MapResult(f, ys).value, MapResult(f, zs).value;
    assert c == a + b by {
      forall i | 0 <= i < |c| ensures c[i] == (a + b)[i] {
        if i >= |xs| {
          assert zs[i] == ys[i - |xs|];
        }
      }
    }
  }

  /** Mapping a slice yields the same slice of the mapped sequence. */
  lemma MapResultSlice<A, B, E>(f: A -> Result<B, E>, xs: seq<A>, lo: nat, hi: nat)
    requires lo <= hi <= |xs| && MapResult(f, xs).Success?
    ensures MapResult(f, xs[lo..hi]).Success?
    ensures MapResult(f, xs[lo..hi]).value == MapResult(f, xs).value[lo..hi]
  {
    var zs := xs[lo..hi];
    var m := MapResult(f, xs);
    forall i | 0 <= i < |zs| ensures f(zs[i]).Success? {
      assert zs[i] == xs[lo + i];
    }
    var a := MapResult(f, zs);
    forall i | 0 <= i < |zs| ensures a.value[i] == m.value[lo..hi][i] {
      assert zs[i] == xs[lo + i];
    }
  }
}
