// Dictionaries that a loop over records in order of sequence keeps overwriting: each key ends up with what
// the last record that touched it wrote.
module LatestMap {
  import opened Wrappers

  /** The last of the first `n` records that touches `key`. */
  function LastTouch<R, K>(rs: seq<R>, n: nat, touches: (R, K) -> bool, key: K): (r: Option<nat>)
    requires n <= |rs|
    ensures r.Some? ==> r.value < n && touches(rs[r.value], key)
  {
    if n == 0 then None else if touches(rs[n - 1], key) then Some(n - 1) else LastTouch(rs, n - 1, touches, key)
  }

  lemma {:induction false} LastTouchIsLast<R, K>(rs: seq<R>, n: nat, touches: (R, K) -> bool, key: K, k: nat)
    requires k < n <= |rs| && touches(rs[k], key)
    ensures LastTouch(rs, n, touches, key).Some? && k <= LastTouch(rs, n, touches, key).value
    decreases n
  {
    if !touches(rs[n - 1], key) {
      LastTouchIsLast(rs, n - 1, touches, key, k);
    }
  }

  ghost predicate LatestAt<R, K, V>(m: map<K, V>, rs: seq<R>, n: nat, touches: (R, K) -> bool, value: (R, K) -> V,
                                    key: K)
    requires n <= |rs|
  {
    var last := LastTouch(rs, n, touches, key);
    if last.Some? then key in m && m[key] == value(rs[last.value], key) else key !in m
  }

  /** `m` holds, for every key, what the last record that touches it says. */
  ghost predicate Latest<R, K(!new), V>(m: map<K, V>, rs: seq<R>, n: nat, touches: (R, K) -> bool, value: (R, K) -> V)
    requires n <= |rs|
  {
    forall key: K :: LatestAt(m, rs, n, touches, value, key)
  }

  /** `after` is `before`, overwritten where the record touches it. */
  ghost predicate Overwritten<R, K(!new), V>(before: map<K, V>, after: map<K, V>, r: R, touches: (R, K) -> bool,
                                              value: (R, K) -> V)
  {
    && (forall key: K :: touches(r, key) ==> key in after && after[key] == value(r, key))
    && (forall key: K :: !touches(r, key) ==> (key in after <==> key in before))
    && (forall key: K :: !touches(r, key) && key in before && key in after ==> after[key] == before[key])
  }

  lemma {:induction false} LatestStep<R, K(!new), V>(before: map<K, V>, after: map<K, V>, rs: seq<R>, n: nat,
                                                      touches: (R, K) -> bool, value: (R, K) -> V)
    requires n < |rs| && Latest(before, rs, n, touches, value) && Overwritten(before, after, rs[n], touches, value)
    ensures Latest(after, rs, n + 1, touches, value)
  {
    var m := n + 1;
    forall key: K
      ensures LatestAt(after, rs, m, touches, value, key)
    {
      assert LatestAt(before, rs, n, touches, value, key);
    }
  }

  // ----- folds -----

  /** The state after the first `n` records. */
  function FoldBy<S, R>(step: (S, R) -> S, start: S, rs: seq<R>, n: nat): S
    requires n <= |rs|
  {
    if n == 0 then start else step(FoldBy(step, start, rs, n - 1), rs[n - 1])
  }

  /** What holds at the start and is kept by every step holds of the fold. */
  lemma {:induction false} FoldKeeps<S(!new), R>(step: (S, R) -> S, start: S, rs: seq<R>, n: nat,
                                                 holds: (S, nat) -> bool)
    requires n <= |rs| && holds(start, 0)
    requires forall s: S, k: nat :: k < |rs| && holds(s, k) ==> holds(step(s, rs[k]), k + 1)
    ensures holds(FoldBy(step, start, rs, n), n)
  {
    if n > 0 {
      FoldKeeps(step, start, rs, n - 1, holds);
      assert holds(FoldBy(step, start, rs, n - 1), n - 1);
    }
  }

  // ----- sequences of records -----

  ghost predicate Chronological<R>(rs: seq<R>, at: R -> nat) {
    && (forall k :: 0 <= k < |rs| ==> at(rs[k]) > 0)
    && (forall j, k :: 0 <= j < k < |rs| ==> at(rs[j]) < at(rs[k]))
  }

  ghost predicate LaterTouch<R, L>(rs: seq<R>, at: R -> nat, repairs: (R, L) -> bool, other: L, after: nat) {
    exists j :: 0 <= j < |rs| && repairs(rs[j], other) && at(rs[j]) > after
  }

  /** The stored sequences tell whether every failure is followed by a repair. */
  lemma {:induction false} EveryFailureFollowed<R, K(!new), L(!new)>(
      rs: seq<R>, at: R -> nat, failures: map<K, nat>, fails: (R, K) -> bool, failed: (R, K) -> nat,
      repairs: map<L, nat>, mends: (R, L) -> bool, mended: (R, L) -> nat, key: K, other: L)
    requires Chronological(rs, at)
    requires forall r :: failed(r, key) == at(r) == mended(r, other)
    requires LatestAt(failures, rs, |rs|, fails, failed, key) && LatestAt(repairs, rs, |rs|, mends, mended, other)
    ensures (key in failures ==> other in repairs && repairs[other] > failures[key]) <==>
      (forall k :: 0 <= k < |rs| && fails(rs[k], key) ==> LaterTouch(rs, at, mends, other, at(rs[k])))
  {
    if key in failures && other in repairs && repairs[other] > failures[key] {
      var j := LastTouch(rs, |rs|, mends, other).value;
      forall k | 0 <= k < |rs| && fails(rs[k], key)
        ensures LaterTouch(rs, at, mends, other, at(rs[k]))
      {
        LastTouchIsLast(rs, |rs|, fails, key, k);
        assert mends(rs[j], other) && at(rs[j]) > at(rs[k]);
      }
    }
    if key in failures && forall k :: 0 <= k < |rs| && fails(rs[k], key) ==>
      LaterTouch(rs, at, mends, other, at(rs[k])) {
      var k := LastTouch(rs, |rs|, fails, key).value;
      assert fails(rs[k], key);
      var j :| 0 <= j < |rs| && mends(rs[j], other) && at(rs[j]) > at(rs[k]);
      LastTouchIsLast(rs, |rs|, mends, other, j);
    }
    if key !in failures {
      forall k | 0 <= k < |rs|
        ensures !fails(rs[k], key)
      {
        NeverTouched(rs, |rs|, fails, key, k);
      }
    }
  }

  lemma {:induction false} NeverTouched<R, K>(rs: seq<R>, n: nat, touches: (R, K) -> bool, key: K, k: nat)
    requires k < n <= |rs| && LastTouch(rs, n, touches, key).None?
    ensures !touches(rs[k], key)
    decreases n
  {
    if k < n - 1 {
      NeverTouched(rs, n - 1, touches, key, k);
    }
  }
}
