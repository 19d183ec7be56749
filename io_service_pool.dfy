/**
 The round-robin pool of execution contexts of StatusServer/AsioIOServicePool.cpp.

 Slot `i` stands for the `io_context` `_ioServices[i]`, its work guard
 `_works[i]` and its worker thread `_threads[i]`. The event loops themselves
 are not modelled: per slot the model keeps whether the work guard is still
 held, whether the context was told to stop, and whether the worker thread is
 still joinable. `Stop` records the order of its actions in a ghost trace.
 */
module IoServicePool {

  /** One action of `Stop`, on one slot. */
  datatype Step = ResetWork(slot: nat) | StopContext(slot: nat) | JoinWorker(slot: nat)

  /** Which of the three phases of `Stop` a step belongs to. */
  function Phase(s: Step): nat
  {
    match s
    case ResetWork(_) => 0
    case StopContext(_) => 1
    case JoinWorker(_) => 2
  }

  /** The counter's successor: `_nextIOService` is incremented and set back to 0 when it reaches `size`. */
  function NextIndex(i: nat, size: nat): nat
  {
    if i + 1 == size then 0 else i + 1
  }

  /** The counter after `k` calls of `GetIOService` on a fresh pool. */
  function IndexAfter(k: nat, size: nat): nat
  {
    if k == 0 then 0 else NextIndex(IndexAfter(k - 1, size), size)
  }

  /** Round robin: the `k`-th call (from 0) is handed slot `k mod size`. */
  lemma {:induction false} IndexAfterIsMod(k: nat, size: nat)
    requires size > 0
    ensures IndexAfter(k, size) == k % size
    ensures IndexAfter(k, size) < size
  {
    if k > 0 {
      IndexAfterIsMod(k - 1, size);
      ModSucc(k - 1, size);
    }
  }

  /** A positive multiple of `n` is at least `n`. */
  lemma {:induction false} MulAtLeast(d: nat, n: nat)
    requires d >= 1
    ensures d * n >= n
  {
    if d > 1 {
      MulAtLeast(d - 1, n);
      assert d * n == (d - 1) * n + n;
    }
  }

  /** Euclidean remainder is determined by any quotient/remainder decomposition. */
  lemma ModUnique(a: int, n: int, q: int, r: int)
    requires n > 0 && 0 <= r < n && a == q * n + r
    ensures a % n == r
  {
    var q0, r0 := a / n, a % n;
    assert a == q0 * n + r0;
    assert (q - q0) * n == r0 - r by {
      assert (q - q0) * n == q * n - q0 * n;
    }
    if q - q0 > 0 {
      MulAtLeast(q - q0, n);
    } else if q - q0 < 0 {
      MulAtLeast(q0 - q, n);
    }
  }

  /** The remainder of a successor: one more, wrapping to 0 at `n`. */
  lemma ModSucc(k: nat, n: nat)
    requires n > 0
    ensures (k + 1) % n == if k % n + 1 == n then 0 else k % n + 1
  {
    var q, r := k / n, k % n;
    assert k == q * n + r;
    if r + 1 == n {
      assert k + 1 == (q + 1) * n + 0;
      ModUnique(k + 1, n, q + 1, 0);
    } else {
      ModUnique(k + 1, n, q, r + 1);
    }
  }

  /** Phase 1 of `Stop` over slots `0 .. n`. */
  function Resets(n: nat): seq<Step>
  {
    if n == 0 then [] else Resets(n - 1) + [ResetWork(n - 1)]
  }

  /** Phase 2 of `Stop` over slots `0 .. n`. */
  function Stops(n: nat): seq<Step>
  {
    if n == 0 then [] else Stops(n - 1) + [StopContext(n - 1)]
  }

  /** Phase 3 of `Stop`: a join for each worker that is joinable, in slot order. */
  function Joins(joinable: seq<bool>): seq<Step>
  {
    if joinable == [] then []
    else Joins(joinable[..|joinable| - 1]) + (if joinable[|joinable| - 1] then [JoinWorker(|joinable| - 1)] else [])
  }

  /** The actions of one `Stop` on `n` slots whose workers' joinability is `joinable`. */
  function StopTrace(n: nat, joinable: seq<bool>): seq<Step>
  {
    Resets(n) + Stops(n) + Joins(joinable)
  }

  /** Phase 1 resets slot `i` at position `i`. */
  lemma {:induction false} ResetsShape(n: nat)
    ensures |Resets(n)| == n
    ensures forall i :: 0 <= i < n ==> Resets(n)[i] == ResetWork(i)
  {
    if n > 0 { ResetsShape(n - 1); }
  }

  /** Phase 2 stops slot `i` at position `i`. */
  lemma {:induction false} StopsShape(n: nat)
    ensures |Stops(n)| == n
    ensures forall i :: 0 <= i < n ==> Stops(n)[i] == StopContext(i)
  {
    if n > 0 { StopsShape(n - 1); }
  }

  /** Phase 3 joins exactly the joinable workers. */
  lemma {:induction false} JoinsShape(joinable: seq<bool>)
    ensures forall s :: s in Joins(joinable) ==> s.JoinWorker? && s.slot < |joinable| && joinable[s.slot]
    ensures forall i :: 0 <= i < |joinable| && joinable[i] ==> JoinWorker(i) in Joins(joinable)
  {
    if joinable != [] {
      var init := joinable[..|joinable| - 1];
      JoinsShape(init);
      forall i | 0 <= i < |init| && init[i]
        ensures JoinWorker(i) in Joins(joinable)
      {
        assert JoinWorker(i) in Joins(init);
      }
    }
  }

  /**
   `Stop` runs in three phases: every work guard is reset before any context is
   stopped, and every context is stopped before any worker is joined.
   */
  lemma StopTraceOrdered(n: nat, joinable: seq<bool>)
    requires |joinable| == n
    ensures var t := StopTrace(n, joinable);
      forall a, b :: 0 <= a < b < |t| ==> Phase(t[a]) <= Phase(t[b])
  {
    ResetsShape(n);
    StopsShape(n);
    JoinsShape(joinable);
    var t := StopTrace(n, joinable);
    var j := Joins(joinable);
    forall a | 0 <= a < |t|
      ensures Phase(t[a]) == if a < n then 0 else if a < 2 * n then 1 else 2
    {
      if a < n {
        assert t[a] == Resets(n)[a];
      } else if a < 2 * n {
        assert t[a] == Stops(n)[a - n];
      } else {
        assert t[a] == j[a - 2 * n];
      }
    }
  }

  /**
   `Stop` touches every slot: each work guard is reset and each context
   stopped, and exactly the joinable workers are joined.
   */
  lemma StopTraceCovers(n: nat, joinable: seq<bool>)
    requires |joinable| == n
    ensures forall i :: 0 <= i < n ==> ResetWork(i) in StopTrace(n, joinable) && StopContext(i) in StopTrace(n, joinable)
    ensures forall i :: 0 <= i < n ==> (JoinWorker(i) in StopTrace(n, joinable) <==> joinable[i])
  {
    ResetsShape(n);
    StopsShape(n);
    JoinsShape(joinable);
    var t := StopTrace(n, joinable);
    forall i | 0 <= i < n
      ensures ResetWork(i) in t && StopContext(i) in t
    {
      assert Resets(n)[i] == ResetWork(i);
      assert Stops(n)[i] == StopContext(i);
    }
    forall i | 0 <= i < n
      ensures JoinWorker(i) in t <==> joinable[i]
    {
      assert JoinWorker(i) !in Resets(n);
      assert JoinWorker(i) !in Stops(n);
    }
  }

  class AsioIOServicePool {
    /** The number of contexts, fixed at construction. */
    const size: nat
    /** `_works[i] != nullptr`: the keep-alive guard of context `i` is held. */
    const works: array<bool>
    /** Context `i` has been told to stop (`io_context::stop`). */
    const stopped: array<bool>
    /** `_threads[i].joinable()`. */
    const joinable: array<bool>
    /** `_nextIOService`. */
    var next: nat
    /** How many times `GetIOService` has been called. */
    ghost var calls: nat
    /** The actions of every `Stop` so far, in order. */
    ghost var trace: seq<Step>

    /** Three distinct arrays of `size` slots, and the counter in step with the number of calls. */
    ghost predicate Valid()
      reads this
    {
      && works.Length == size && stopped.Length == size && joinable.Length == size
      && works != stopped && works != joinable && stopped != joinable
      && next == IndexAfter(calls, size)
      && (size == 0 ==> calls == 0)
    }

    /**
     `AsioIOServicePool(size)`: `size` running contexts, each with a held work
     guard and a dedicated (joinable) worker; the counter starts at 0.
     */
    constructor (size: nat)
      ensures Valid() && this.size == size
      ensures next == 0 && calls == 0 && trace == []
      ensures fresh(works) && fresh(stopped) && fresh(joinable)
      ensures forall i :: 0 <= i < size ==> works[i] && !stopped[i] && joinable[i]
    {
      this.size := size;
      var w := new bool[size](_ => false);
      var c := new bool[size](_ => false);
      var t := new bool[size](_ => false);
      for i := 0 to size
        invariant forall k :: 0 <= k < i ==> w[k]
        invariant forall k :: 0 <= k < size ==> !c[k] && !t[k]
      {
        w[i] := true;
      }
      for i := 0 to size
        invariant forall k :: 0 <= k < size ==> w[k] && !c[k]
        invariant forall k :: 0 <= k < i ==> t[k]
      {
        t[i] := true;
      }
      works, stopped, joinable := w, c, t;
      next, calls, trace := 0, 0, [];
    }

    /**
     `GetIOService`: hands out slot `_nextIOService`, then advances the counter,
     wrapping to 0 at `size`. With `size == 0` the source indexes out of range,
     hence the precondition.
     */
    method GetIOService() returns (slot: nat)
      requires Valid() && size > 0
      modifies this`next, this`calls
      ensures Valid()
      ensures slot == old(next) && slot < size
      ensures next == NextIndex(old(next), size) && next < size
      ensures calls == old(calls) + 1
      ensures slot == old(calls) % size
    {
      IndexAfterIsMod(calls, size);
      slot := next;
      next := next + 1;
      if next == size {
        next := 0;
      }
      calls := calls + 1;
      IndexAfterIsMod(calls, size);
    }

    /**
     `Stop`: reset every work guard, then stop every context, then join every
     joinable worker. The final state does not depend on the state before, so a
     second call (as from the destructor) leaves the same state.
     */
    method Stop()
      requires Valid()
      modifies this`trace, works, stopped, joinable
      ensures Valid()
      ensures forall i :: 0 <= i < size ==> !works[i] && stopped[i] && !joinable[i]
      ensures trace == old(trace) + StopTrace(size, old(joinable[..]))
    {
      ghost var wasJoinable := joinable[..];
      for i := 0 to size
        invariant forall k :: 0 <= k < i ==> !works[k]
        invariant joinable[..] == wasJoinable
        invariant trace == old(trace) + Resets(i)
      {
        works[i] := false;
        trace := trace + [ResetWork(i)];
      }
      for i := 0 to size
        invariant forall k :: 0 <= k < size ==> !works[k]
        invariant forall k :: 0 <= k < i ==> stopped[k]
        invariant joinable[..] == wasJoinable
        invariant trace == old(trace) + Resets(size) + Stops(i)
      {
        stopped[i] := true;
        trace := trace + [StopContext(i)];
      }
      for i := 0 to size
        invariant forall k :: 0 <= k < size ==> !works[k] && stopped[k]
        invariant forall k :: 0 <= k < i ==> !joinable[k]
        invariant forall k :: i <= k < size ==> joinable[k] == wasJoinable[k]
        invariant trace == old(trace) + Resets(size) + Stops(size) + Joins(wasJoinable[..i])
      {
        assert wasJoinable[..i + 1][..i] == wasJoinable[..i];
        if joinable[i] {
          joinable[i] := false;
          trace := trace + [JoinWorker(i)];
        }
      }
      assert wasJoinable[..size] == wasJoinable;
    }

    /** `~AsioIOServicePool`: runs `Stop` again. */
    method Destroy()
      requires Valid()
      modifies this`trace, works, stopped, joinable
      ensures Valid()
      ensures forall i :: 0 <= i < size ==> !works[i] && stopped[i] && !joinable[i]
      ensures trace == old(trace) + StopTrace(size, old(joinable[..]))
    {
      Stop();
    }
  }

  /** An explicit `Stop` followed by the destructor's: the second one joins nobody. */
  method StopThenDestroy(pool: AsioIOServicePool)
    requires pool.Valid()
    modifies pool`trace, pool.works, pool.stopped, pool.joinable
    ensures forall i :: 0 <= i < pool.size ==> !pool.works[i] && pool.stopped[i] && !pool.joinable[i]
    ensures pool.trace == old(pool.trace) + StopTrace(pool.size, old(pool.joinable[..]))
                          + Resets(pool.size) + Stops(pool.size)
  {
    pool.Stop();
    ghost var none := pool.joinable[..];
    pool.Destroy();
    NoJoins(none);
  }

  /** With no joinable worker, the join phase of `Stop` does nothing. */
  lemma {:induction false} NoJoins(joinable: seq<bool>)
    requires forall i :: 0 <= i < |joinable| ==> !joinable[i]
    ensures Joins(joinable) == []
  {
    if joinable != [] {
      NoJoins(joinable[..|joinable| - 1]);
    }
  }

  /** Three contexts, seven requests: slots 0, 1, 2, 0, 1, 2, 0. */
  method RoundRobinOfThree() returns (slots: seq<nat>)
    ensures slots == [0, 1, 2, 0, 1, 2, 0]
  {
    var pool := new AsioIOServicePool(3);
    slots := [];
    for k := 0 to 7
      invariant pool.Valid() && pool.size == 3 && pool.calls == k
      invariant |slots| == k && forall j :: 0 <= j < k ==> slots[j] == j % 3
    {
      var s := pool.GetIOService();
      slots := slots + [s];
    }
  }
}
