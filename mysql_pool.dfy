/**
 The MySQL connection pool `MySqlPool` of src/MySqlDao.cpp (state declared in
 include/MySqlDao.h).

 The pool is a FIFO queue of idle connections, each a driver handle with the
 time of its last operation, plus a stop flag and the configured size. The
 MySQL driver is not modelled: each attempt to open a connection, and each
 liveness probe "SELECT 1", enters as an oracle value saying how it went. The
 system clock enters as the parameter `now` or inside the outcome of a connect.
 */
module MySqlDao {
  import opened Wrappers

  /** An opaque driver connection (`sql::Connection*`). */
  type Handle = nat

  /** `SqlConnection`: a driver connection and the time (seconds) of its last use. */
  datatype Conn = Conn(handle: Handle, lastOperTime: int)

  /**
   The outcome of `driver->connect(...)` followed by `setSchema`: a new handle
   together with the clock reading taken right after it, or a failure.
   */
  datatype Connect = Connected(handle: Handle, clock: int) | Refused

  /**
   The outcome of probing one stale idle connection with "SELECT 1": it
   answered; it threw `sql::SQLException`, after which the sweep tries to
   reconnect with the given outcome; or it threw some other exception.
   */
  datatype Probe = Alive | SqlError(reconnect: Connect) | OtherError

  /** A connection used within this many seconds is trusted without a probe. */
  const IdleWindow := 60

  /** A C++ `int`. */
  newtype Int32 = x: int | -0x8000_0000 <= x < 0x8000_0000

  /** `2^64`: `pool_.size()` is a `size_t`. */
  const SizeTModulus := 0x1_0000_0000_0000_0000

  /** The sweep skips the probe when `_last_oper_time + 60 > now`. */
  predicate Recent(c: Conn, now: int)
  {
    c.lastOperTime + IdleWindow > now
  }

  /**
   The refill loop compares `pool_.size()` (a `size_t`) with the `int`
   `poolSize_`, so `poolSize_` is converted to `size_t` first: a negative size
   becomes a huge target.
   */
  function RefillTarget(poolSize: Int32): (t: nat)
    ensures poolSize >= 0 ==> t == poolSize as int
    ensures poolSize < 0 ==> t >= SizeTModulus - 0x8000_0000
  {
    if poolSize >= 0 then poolSize as int else poolSize as int + SizeTModulus
  }

  /** How many connections the constructor opens: the loop `for (int i = 0; i < poolSize_; ++i)`. */
  function InitialCount(poolSize: Int32): (n: nat)
    ensures poolSize >= 0 ==> n == poolSize as int
    ensures poolSize < 0 ==> n == 0
  {
    if poolSize < 0 then 0 else poolSize as int
  }

  /** The connection opened by a successful connect, stamped with its own clock reading. */
  function Opened(c: Connect): Conn
    requires c.Connected?
  {
    Conn(c.handle, c.clock)
  }

  /** The connections opened by a run of successful connects, in order. */
  function OpenedAll(cs: seq<Connect>): (r: seq<Conn>)
    requires forall i :: 0 <= i < |cs| ==> cs[i].Connected?
    ensures |r| == |cs|
    ensures forall i :: 0 <= i < |cs| ==> r[i] == Conn(cs[i].handle, cs[i].clock)
  {
    if cs == [] then [] else [Opened(cs[0])] + OpenedAll(cs[1..])
  }

  /** What the sweep makes of one idle connection: kept (possibly changed) or dropped. */
  function SweepEntry(c: Conn, p: Probe, now: int): (r: Option<Conn>)
    ensures Recent(c, now) ==> r == Some(c)
    ensures !Recent(c, now) && p.Alive? ==> r == Some(c.(lastOperTime := now))
    ensures !Recent(c, now) && p.SqlError? && p.reconnect.Connected? ==> r == Some(Conn(p.reconnect.handle, now))
    ensures !Recent(c, now) && p == SqlError(Refused) ==> r == None
    ensures !Recent(c, now) && p.OtherError? ==> r == Some(c)
  {
    if Recent(c, now) then Some(c)
    else match p
      case Alive => Some(c.(lastOperTime := now))
      case SqlError(Connected(h, _)) => Some(Conn(h, now))
      case SqlError(Refused) => None
      case OtherError => Some(c)
  }

  /** The survivor of one entry as a queue of zero or one connections. */
  function Kept(o: Option<Conn>): seq<Conn>
  {
    if o.Some? then [o.value] else []
  }

  /**
   The first phase of `checkConnection`: every idle connection, in queue
   order, is passed through `SweepEntry` with its own probe outcome.
   */
  function Swept(pool: seq<Conn>, probes: seq<Probe>, now: int): seq<Conn>
    requires |probes| == |pool|
    decreases |pool|
  {
    if pool == [] then []
    else Kept(SweepEntry(pool[0], probes[0], now)) + Swept(pool[1..], probes[1..], now)
  }

  /**
   The sweep never grows the queue, and leaves its length alone when no
   reconnect failed; each survivor is either an original entry left as it was
   or an entry stamped `now`.
   */
  lemma {:induction false} SweptShape(pool: seq<Conn>, probes: seq<Probe>, now: int)
    requires |probes| == |pool|
    ensures |Swept(pool, probes, now)| <= |pool|
    ensures forall c :: c in Swept(pool, probes, now) ==> c in pool || c.lastOperTime == now
    ensures (forall i :: 0 <= i < |pool| ==> probes[i] != SqlError(Refused)) ==> |Swept(pool, probes, now)| == |pool|
    decreases |pool|
  {
    if pool != [] {
      SweptShape(pool[1..], probes[1..], now);
      var r := Swept(pool, probes, now);
      var head := Kept(SweepEntry(pool[0], probes[0], now));
      assert r == head + Swept(pool[1..], probes[1..], now);
      forall c | c in r
        ensures c in pool || c.lastOperTime == now
      {
        if c in head {
          assert c == pool[0] || c.lastOperTime == now;
        } else {
          assert c in Swept(pool[1..], probes[1..], now);
        }
      }
      if forall i :: 0 <= i < |pool| ==> probes[i] != SqlError(Refused) {
        assert forall i :: 0 <= i < |pool| - 1 ==> probes[1..][i] == probes[i + 1];
        assert |head| == 1;
      }
    }
  }

  /**
   The second phase of `checkConnection`: while the queue holds fewer than
   `target` connections, connect once more; the first failure ends the phase.
   An oracle that runs out counts as a failure.
   */
  function Refilled(pool: seq<Conn>, target: nat, refills: seq<Connect>): seq<Conn>
    decreases |refills|
  {
    if |pool| >= target || refills == [] then pool
    else match refills[0]
      case Refused => pool
      case Connected(h, t) => Refilled(pool + [Conn(h, t)], target, refills[1..])
  }

  /**
   Refilling appends the new connections in order after the old ones, never
   takes the queue beyond `max(|pool|, target)`, and ends with at least
   `target` connections unless the attempt after the last success failed (or
   none was left).
   */
  lemma {:induction false} RefilledShape(pool: seq<Conn>, target: nat, refills: seq<Connect>)
    ensures var r := Refilled(pool, target, refills);
      && |pool| <= |r| <= |pool| + |refills|
      && r[..|pool|] == pool
      && (forall i :: 0 <= i < |r| - |pool| ==> refills[i].Connected? && r[|pool| + i] == Opened(refills[i]))
      && |r| <= (if |pool| <= target then target else |pool|)
      && (|r| >= target || |r| - |pool| == |refills| || refills[|r| - |pool|].Refused?)
    decreases |refills|
  {
    if !(|pool| >= target || refills == []) && refills[0].Connected? {
      var next := pool + [Opened(refills[0])];
      RefilledShape(next, target, refills[1..]);
      var r := Refilled(pool, target, refills);
      assert r == Refilled(next, target, refills[1..]);
      assert r[..|pool|] == r[..|next|][..|pool|];
      forall i | 0 <= i < |r| - |pool|
        ensures refills[i].Connected? && r[|pool| + i] == Opened(refills[i])
      {
        if i > 0 {
          assert refills[1..][i - 1] == refills[i];
        }
      }
      if |r| < target && |r| - |pool| != |refills| {
        assert refills[1..][|r| - |next|] == refills[|r| - |pool|];
      }
    }
  }

  /** Sweeping preserves queue order: the sweep of a concatenation is the concatenation of the sweeps. */
  lemma {:induction false} SweptConcat(a: seq<Conn>, pa: seq<Probe>, b: seq<Conn>, pb: seq<Probe>, now: int)
    requires |pa| == |a| && |pb| == |b|
    ensures Swept(a + b, pa + pb, now) == Swept(a, pa, now) + Swept(b, pb, now)
    decreases |a|
  {
    if a != [] {
      assert (a + b)[1..] == a[1..] + b;
      assert (pa + pb)[1..] == pa[1..] + pb;
      SweptConcat(a[1..], pa[1..], b, pb, now);
    } else {
      assert a + b == b && pa + pb == pb;
    }
  }

  /** A queue of recently used connections comes through the sweep unchanged, with no probe. */
  lemma {:induction false} SweptAllRecent(pool: seq<Conn>, probes: seq<Probe>, now: int)
    requires |probes| == |pool|
    requires forall i :: 0 <= i < |pool| ==> Recent(pool[i], now)
    ensures Swept(pool, probes, now) == pool
    decreases |pool|
  {
    if pool != [] {
      SweptAllRecent(pool[1..], probes[1..], now);
    }
  }

  /**
   A stale connection whose probe failed and whose reconnect failed is dropped:
   the swept queue is strictly shorter than the original.
   */
  lemma {:induction false} SweptDropsDead(pool: seq<Conn>, probes: seq<Probe>, now: int, k: nat)
    requires |probes| == |pool| && k < |pool|
    requires !Recent(pool[k], now) && probes[k] == SqlError(Refused)
    ensures |Swept(pool, probes, now)| < |pool|
    decreases |pool|
  {
    if k > 0 {
      SweptDropsDead(pool[1..], probes[1..], now, k - 1);
    } else {
      SweptShape(pool[1..], probes[1..], now);
    }
  }

  /** After a whole `checkConnection` the queue is no longer than `max(old length, target)`. */
  lemma CheckBound(pool: seq<Conn>, probes: seq<Probe>, now: int, poolSize: Int32, refills: seq<Connect>)
    requires |probes| == |pool|
    ensures |Refilled(Swept(pool, probes, now), RefillTarget(poolSize), refills)|
        <= if |pool| <= RefillTarget(poolSize) then RefillTarget(poolSize) else |pool|
  {
    SweptShape(pool, probes, now);
    RefilledShape(Swept(pool, probes, now), RefillTarget(poolSize), refills);
  }

  class MySqlPool {
    /** `poolSize_`. */
    const poolSize: Int32
    /** `pool_`: the idle connections, front first. */
    var pool: seq<Conn>
    /** `b_stop_`. */
    var stopped: bool

    /** Once stopped, the pool holds no idle connection. */
    ghost predicate Valid()
      reads this
    {
      stopped ==> pool == []
    }

    /** The member initialisers of the constructor: an empty, running pool. */
    constructor Init(poolSize: Int32)
      ensures Valid() && this.poolSize == poolSize && pool == [] && !stopped
    {
      this.poolSize := poolSize;
      pool := [];
      stopped := false;
    }

    /**
     `MySqlPool(url, user, pass, schema, poolSize)`: opens `poolSize`
     connections in turn (none when `poolSize <= 0`). When attempt `i` fails the
     constructor runs `Close` (releasing the connections opened so far) and
     rethrows; `failedAt == Some(i)` stands for that exception, and `p` is the
     closed object. The launch of the background sweep thread is not modelled.
     */
    static method Open(poolSize: Int32, connects: seq<Connect>) returns (p: MySqlPool, failedAt: Option<nat>)
      ensures fresh(p) && p.Valid() && p.poolSize == poolSize
      ensures failedAt.None? <==>
        InitialCount(poolSize) <= |connects| && forall i :: 0 <= i < InitialCount(poolSize) ==> connects[i].Connected?
      ensures failedAt.None? ==> !p.stopped && p.pool == OpenedAll(connects[..InitialCount(poolSize)])
      ensures failedAt.None? ==> |p.pool| == InitialCount(poolSize)
      ensures failedAt.Some? ==> failedAt.value < InitialCount(poolSize) && failedAt.value <= |connects|
      ensures failedAt.Some? ==> p.stopped && p.pool == []
      ensures failedAt.Some? ==> failedAt.value == |connects| || connects[failedAt.value].Refused?
      ensures failedAt.Some? ==> forall i :: 0 <= i < failedAt.value ==> connects[i].Connected?
    {
      p := new MySqlPool.Init(poolSize);
      var i := 0;
      while i < poolSize as int
        invariant 0 <= i <= InitialCount(poolSize)
        invariant i <= |connects| && forall k :: 0 <= k < i ==> connects[k].Connected?
        invariant fresh(p) && p.Valid() && !p.stopped && p.poolSize == poolSize
        invariant p.pool == OpenedAll(connects[..i])
        decreases poolSize as int - i
      {
        if i == |connects| || connects[i].Refused? {
          p.Close();
          return p, Some(i);
        }
        assert connects[..i + 1] == connects[..i] + [connects[i]];
        OpenedAllSnoc(connects[..i], connects[i]);
        p.pool := p.pool + [Opened(connects[i])];
        i := i + 1;
      }
      failedAt := None;
    }

    /**
     `getConnection`: no connection when the pool is stopped or (after the
     timed wait, during which nothing else runs in this model) empty;
     otherwise the front connection, removed from the queue and stamped with
     the current time.
     */
    method GetConnection(now: int) returns (c: Option<Conn>)
      requires Valid()
      modifies this`pool
      ensures Valid()
      ensures c.None? <==> old(stopped) || old(pool) == []
      ensures c.None? ==> pool == old(pool)
      ensures c.Some? ==> c.value == old(pool)[0].(lastOperTime := now) && pool == old(pool)[1..]
    {
      if stopped {
        return None;
      }
      if pool == [] {
        return None;
      }
      var con := pool[0];
      pool := pool[1..];
      con := con.(lastOperTime := now);
      c := Some(con);
    }

    /**
     `returnConnection`: a null connection is ignored, and so is any connection
     returned to a stopped pool; otherwise it joins the back of the queue,
     with its timestamp as it is.
     */
    method ReturnConnection(c: Option<Conn>)
      requires Valid()
      modifies this`pool
      ensures Valid()
      ensures c.None? || old(stopped) ==> pool == old(pool)
      ensures c.Some? && !old(stopped) ==> pool == old(pool) + [c.value] && |pool| == |old(pool)| + 1
    {
      if c.None? {
        return;
      }
      if stopped {
        return;
      }
      pool := pool + [c.value];
    }

    /** `Close`: the first call stops the pool and drops every idle connection; later calls return at once. */
    method Close()
      requires Valid()
      modifies this`pool, this`stopped
      ensures Valid()
      ensures stopped && pool == []
      ensures old(stopped) ==> pool == old(pool)
    {
      if stopped {
        return;
      }
      stopped := true;
      while pool != []
        invariant stopped
        decreases |pool|
      {
        pool := pool[1..];
      }
    }

    /**
     `checkConnection`: drains the queue front to back through the sweep
     (`probes[i]` is the outcome for the `i`-th idle connection, used only when
     it is stale), puts the survivors back in order, then refills towards
     `poolSize_` with the attempts `refills`, stopping at the first failure.
     */
    method CheckConnection(now: int, probes: seq<Probe>, refills: seq<Connect>)
      requires |probes| == |pool|
      modifies this`pool
      ensures pool == Refilled(Swept(old(pool), probes, now), RefillTarget(poolSize), refills)
      ensures |pool| <= if |old(pool)| <= RefillTarget(poolSize) then RefillTarget(poolSize) else |old(pool)|
    {
      ghost var original := pool;
      CheckBound(pool, probes, now, poolSize, refills);
      var temp: seq<Conn> := [];
      var i := 0;
      assert probes[0..] == probes;
      while pool != []
        invariant 0 <= i <= |original| && pool == original[i..]
        invariant temp + Swept(pool, probes[i..], now) == Swept(original, probes, now)
        decreases |pool|
      {
        var con := pool[0];
        pool := pool[1..];
        var back: seq<Conn>;
        if con.lastOperTime + IdleWindow > now {
          back := [con];
        } else {
          match probes[i]
          case Alive =>
            con := con.(lastOperTime := now);
            back := [con];
          case SqlError(reconnect) =>
            if reconnect.Connected? {
              con := Conn(reconnect.handle, now);
              back := [con];
            } else {
              back := [];
            }
          case OtherError =>
            back := [con];
        }
        assert back == Kept(SweepEntry(original[i], probes[i], now));
        assert probes[i..][1..] == probes[i + 1..];
        assert original[i..][1..] == original[i + 1..];
        SweptUnfold(original[i..], probes[i..], now);
        assert temp + back + Swept(original[i + 1..], probes[i + 1..], now) == Swept(original, probes, now);
        temp := temp + back;
        i := i + 1;
      }
      assert Swept(pool, probes[i..], now) == [];
      assert temp == Swept(original, probes, now);
      pool := temp;

      var target := RefillTarget(poolSize);
      var k := 0;
      while |pool| < target
        invariant 0 <= k <= |refills|
        invariant Refilled(pool, target, refills[k..]) == Refilled(temp, target, refills)
        decreases |refills| - k
      {
        if k == |refills| || refills[k].Refused? {
          assert pool == Refilled(pool, target, refills[k..]);
          break;
        }
        assert refills[k..][1..] == refills[k + 1..];
        pool := pool + [Opened(refills[k])];
        k := k + 1;
      }
      assert pool == Refilled(pool, target, refills[k..]);
    }

    /**
     One turn of the background thread's loop: while the pool is not stopped
     it runs `checkConnection` (the sixty-second sleep between turns is not
     modelled). `running` is the loop guard.
     */
    method SweepTurn(now: int, probes: seq<Probe>, refills: seq<Connect>) returns (running: bool)
      requires Valid() && |probes| == |pool|
      modifies this`pool
      ensures Valid()
      ensures running == !stopped
      ensures running ==> pool == Refilled(Swept(old(pool), probes, now), RefillTarget(poolSize), refills)
      ensures !running ==> pool == old(pool)
    {
      running := !stopped;
      if running {
        CheckConnection(now, probes, refills);
      }
    }
  }

  /** One step of `Swept`: the first entry's outcome followed by the sweep of the rest. */
  lemma SweptUnfold(pool: seq<Conn>, probes: seq<Probe>, now: int)
    requires |probes| == |pool| && pool != []
    ensures Swept(pool, probes, now) == Kept(SweepEntry(pool[0], probes[0], now)) + Swept(pool[1..], probes[1..], now)
  {
  }

  /** Opening one more connection appends it to the opened ones. */
  lemma {:induction false} OpenedAllSnoc(cs: seq<Connect>, c: Connect)
    requires forall i :: 0 <= i < |cs| ==> cs[i].Connected?
    requires c.Connected?
    ensures OpenedAll(cs + [c]) == OpenedAll(cs) + [Opened(c)]
  {
  }

  /** After `Close`, a second `Close` changes nothing and every acquire yields no connection. */
  method CloseTwice(p: MySqlPool, now: int) returns (c: Option<Conn>)
    requires p.Valid()
    modifies p
    ensures p.stopped && p.pool == [] && c == None
  {
    p.Close();
    p.Close();
    c := p.GetConnection(now);
  }
}
