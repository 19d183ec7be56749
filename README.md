# StatusServer core, modelled in Dafny

This project models the resource-pool and session core of the BaijiuChat
StatusServer, a gateway for a chat platform:

- **MySqlDao** (`mysql_pool.dfy`): the MySQL connection pool `MySqlPool`. It is a
  FIFO queue of idle `SqlConnection`s (driver handle plus time of last
  operation), a stop flag and a configured size. The model covers acquire
  (`getConnection`), release (`returnConnection`), an idempotent `Close`, the
  constructor that fails fast, and the periodic health sweep `checkConnection`.
  The sweep trusts entries used within 60 seconds. It probes the others, then
  refreshes, replaces or drops them, and finally refills towards `poolSize_`.
- **StatusService** (`status_service.dfy`): the gateway `StatusServiceImpl`.
  It holds a registry of `ChatServer`s keyed by name, each with a load counter,
  and a map from uid to the token issued last. Its operations are
  minimum-load selection, load update, token binding, `Login` validation and
  the `GetChatServer` sequence (select, bind token, add 1 to the load).
- **IoServicePool** (`io_service_pool.dfy`): the round-robin pool of
  `io_context`s `AsioIOServicePool`, with its wrap-around counter and its
  three-phase `Stop`.
- **Config** (`config.dfy`): the lookups of `SectionInfo` and `ConfigMgr`,
  which return "" for missing keys and sections.
- **Wrappers** (`wrappers.dfy`): `Option`, standing for a nullable `unique_ptr`.

Everything that changes state in place is a class with `modifies` clauses.
Value types (`ChatServer`, `SectionInfo`, `ConfigMgr`) are datatypes.

Outside inputs are parameters:

- the system clock is `now`;
- each driver `connect` is an oracle value `Connect` (a handle and a clock reading, or `Refused`);
- each "SELECT 1" probe is an oracle value `Probe` (`Alive`, `SqlError(reconnect outcome)` or `OtherError`);
- the session token, produced by a UUID generator in the source, is a method argument.

The model follows the code as written; in particular:

- A connection's timestamp is refreshed when it is acquired, not when it is returned.
- The refill loop compares `pool_.size()`, a `size_t`, with the `int` `poolSize_`.
  The comparison converts `poolSize_` to `size_t`, so a negative pool size
  makes the sweep keep connecting until an attempt fails (`RefillTarget`).
  The constructor's loop compares two `int`s and opens nothing in that case.
- `getChatServer` on an empty registry returns the default `ChatServer`, and
  `GetChatServer` still replies SUCCESS with an empty host and port. There is
  no routing-failure error.
- The registry's iteration order is whatever `unordered_map` gives, which the
  C++ standard leaves unspecified. The model makes it an explicit sequence
  `order`. Its only stated property is that it lists each registered name
  exactly once. The constructor's contract does not fix it. Every property of
  `SelectServer` holds for any such order, and a tie goes to the first minimum
  in that order.

## Model

| member | source | states |
|---|---|---|
| `MySqlDao.MySqlPool.Open` | src/MySqlDao.cpp:8-46 | Succeeds iff the first `max(poolSize, 0)` connects succeed. On success the pool is running and holds exactly those connections, in order. On failure at attempt i, `Close` has run (pool stopped and empty) and attempts before i succeeded. |
| `MySqlDao.MySqlPool.Init` | src/MySqlDao.cpp:8-9 | The member initialisers give an empty, running pool with the given size. |
| `MySqlDao.MySqlPool.GetConnection` | src/MySqlDao.cpp:122-148 | Returns no connection iff the pool is stopped or empty, and then changes nothing. Otherwise returns the front entry stamped with `now` and leaves the rest of the queue in order. |
| `MySqlDao.MySqlPool.ReturnConnection` | src/MySqlDao.cpp:150-163 | A null argument or a stopped pool leaves the queue unchanged. Otherwise the connection is appended at the back as it is (length + 1, nothing else changes). |
| `MySqlDao.MySqlPool.Close` | src/MySqlDao.cpp:165-180 | Afterwards the pool is stopped and empty. A call on an already stopped pool returns early and changes nothing. |
| `MySqlDao.CloseTwice` | src/MySqlDao.cpp:165-180 | Two `Close` calls in a row, then an acquire: still stopped and empty, and the acquire returns no connection. |
| `MySqlDao.MySqlPool.CheckConnection` | src/MySqlDao.cpp:48-120 | The drain loop and the refill loop with `break` leave the queue equal to `Refilled(Swept(old queue))`. Its length is at most max(old length, refill target). |
| `MySqlDao.MySqlPool.SweepTurn` | src/MySqlDao.cpp:22-27 | One turn of the sweep thread runs `checkConnection` iff the pool is not stopped, and keeps the invariant "stopped implies empty". |
| `MySqlDao.SweepEntry` | src/MySqlDao.cpp:62-98 | Per idle entry: recently used means kept unchanged whatever the probe says. Otherwise: probe ok means kept with timestamp `now`; SQL error means replaced by the reconnected handle stamped `now`, or dropped if reconnecting fails; any other exception means kept unchanged. |
| `MySqlDao.SweptShape` | src/MySqlDao.cpp:57-99 | The sweep never lengthens the queue. It keeps the length when no reconnect failed. Every survivor is an original entry or carries timestamp `now`. |
| `MySqlDao.SweptConcat` | src/MySqlDao.cpp:57-99 | The sweep keeps the relative order of surviving entries: sweeping a concatenation gives the concatenation of the sweeps. |
| `MySqlDao.SweptAllRecent` | src/MySqlDao.cpp:63-66 | A queue whose entries were all used within 60 seconds comes out of the sweep unchanged. |
| `MySqlDao.SweptDropsDead` | src/MySqlDao.cpp:75-87 | A stale entry whose probe and reconnect both fail makes the swept queue strictly shorter. |
| `MySqlDao.RefilledShape` | src/MySqlDao.cpp:104-119 | The old entries stay in front and the new ones follow in attempt order. The queue never exceeds max(old length, target). It ends with at least `target` entries unless the next attempt failed or no attempt was left. |
| `MySqlDao.CheckBound` | src/MySqlDao.cpp:58-119 | After a whole sweep the idle count is at most max(old idle count, refill target). |
| `MySqlDao.RefillTarget` | src/MySqlDao.cpp:105 | The refill loop's bound is `poolSize_` when it is not negative, and otherwise `poolSize_` converted to `size_t`, which is at least 2^64 - 2^31. |
| `StatusService.StatusServiceImpl.constructor` | StatusServer/StatusServiceImpl.cpp:60-86 | Registers the ChatServer1 and ChatServer2 servers under their names with load 0. If the names are equal, the second replaces the first and one entry remains. The iteration order lists each registered name once and is otherwise unspecified. There are no tokens yet. |
| `StatusService.ServerFromConfig` | StatusServer/StatusServiceImpl.cpp:67-71 | A server read from a configuration section has load 0. Its host, port and name are the values configured under Host, Port and Name. A missing Host or Port key gives "", and a missing section gives the default server. |
| `StatusService.StatusServiceImpl.SelectServer` | StatusServer/StatusServiceImpl.cpp:103-125 | Empty registry: returns the default server (empty host, port, name; load 0). Otherwise returns a copy of a registered server whose load is at most every registered load, and every server earlier in iteration order has a strictly higher load (first minimum wins). |
| `StatusService.StatusServiceImpl.UpdateServerConnectionCount` | StatusServer/StatusServiceImpl.cpp:127-140 | Adds `delta` to the named server's load only. Every other entry is unchanged, and an unknown name leaves the registry unchanged. |
| `StatusService.StatusServiceImpl.InsertToken` | StatusServer/StatusServiceImpl.cpp:170-183 | The token map afterwards is the old one with `uid` bound to the token, whether the entry was created or overwritten. |
| `StatusService.StatusServiceImpl.Login` | StatusServer/StatusServiceImpl.cpp:142-168 | UidInvalid iff the uid has no token. TokenInvalid iff the stored token differs. SUCCESS iff it matches, echoing uid and token. It reads the token map and changes nothing. |
| `StatusService.StatusServiceImpl.GetChatServer` | StatusServer/StatusServiceImpl.cpp:38-58 | Always SUCCESS with the given token. Afterwards `Login` with that token succeeds and any other token gets TokenInvalid. A non-empty registry replies with the host and port of the first minimum-load server in iteration order and adds exactly 1 to its load. An empty registry replies with empty host and port and changes no load. |
| `StatusService.IssueTwice` | StatusServer/StatusServiceImpl.cpp:170-183 | After two issues to one uid, the first token is refused with TokenInvalid and the second is accepted. |
| `StatusService.Assign` | include/StatusServiceImpl.h:31-41 | `operator=` leaves the target equal to the source in all four fields. Self-assignment leaves it unchanged. |
| `IoServicePool.AsioIOServicePool.constructor` | StatusServer/AsioIOServicePool.cpp:5-33 | `size` contexts, none stopped, each with a held work guard and a joinable worker. The counter starts at 0. |
| `IoServicePool.AsioIOServicePool.GetIOService` | StatusServer/AsioIOServicePool.cpp:48-54 | Returns the counter's slot, then increments the counter and wraps it to 0 at `size`. It keeps 0 <= counter < size, and the k-th call returns k mod size. |
| `IoServicePool.IndexAfterIsMod` | StatusServer/AsioIOServicePool.cpp:48-54 | Starting from 0, after k calls the counter is k mod size, which is below size. |
| `IoServicePool.RoundRobinOfThree` | StatusServer/AsioIOServicePool.cpp:48-54 | Seven calls on three contexts return slots 0,1,2,0,1,2,0. |
| `IoServicePool.AsioIOServicePool.Stop` | StatusServer/AsioIOServicePool.cpp:57-74 | Afterwards every guard is reset, every context stopped and no worker joinable, whatever the state before. So a second call reaches the same state. Its actions are exactly the `StopTrace` of the slots. |
| `IoServicePool.StopTraceOrdered` | StatusServer/AsioIOServicePool.cpp:57-74 | In `Stop`'s actions, every guard reset comes before every context stop, and every stop comes before every join. |
| `IoServicePool.StopTraceCovers` | StatusServer/AsioIOServicePool.cpp:57-74 | `Stop` resets and stops every slot and joins exactly the joinable workers. |
| `IoServicePool.AsioIOServicePool.Destroy` | StatusServer/AsioIOServicePool.cpp:36-45 | The destructor runs `Stop` and reaches the same final state. |
| `IoServicePool.StopThenDestroy` | StatusServer/AsioIOServicePool.cpp:36-45 | An explicit `Stop` followed by the destructor's: the second pass resets and stops again and joins no worker. |
| `Config.SectionInfo.Get` | include/ConfigMgr.h:25-31 | Returns the stored value for a present key and "" for an absent one. A non-empty result means the key is present. |
| `Config.ConfigMgr.Section` | include/ConfigMgr.h:43-48 | Returns the stored section when present. A missing section gives an empty section under which every key reads "", and the map is not extended. |
| `Config.ConfigMgr.Lookup` | include/ConfigMgr.h:43-48 | `cfg[section][key]` is the stored value when both exist. A non-empty result means both exist. |
| `Config.AssignSection` | include/ConfigMgr.h:16-21 | Assignment duplicates the other section's map. Self-assignment changes nothing. |
| `Config.AssignConfig` | include/ConfigMgr.h:61-66 | Assignment duplicates the other manager's map. Self-assignment changes nothing. |

## Left out

- Background sweep thread, its 60-second sleep and `detach` (src/MySqlDao.cpp:22-28): one pass of its loop is `SweepTurn`; scheduling is not modelled.
- Condition-variable timed wait in `getConnection` and `notify_one`/`notify_all` (src/MySqlDao.cpp:130-132, 162, 173): no other thread runs in the model, so the wait ends with the pool as it was; acquire is non-blocking.
- Interleavings: mutexes, and races such as a sweep that passed its loop guard before `Close`, are not modelled; all operations are sequential.
- MySQL Connector/C++ calls (`connect`, `setSchema`, `prepareStatement`, `execute`) and exception types: replaced by the `Connect` and `Probe` oracle values; the url, user, password and schema strings only feed the driver and are not kept.
- `MySqlDao.MySqlPool.CheckConnection`: an exhausted `refills` oracle is read as a failed attempt; the source would keep connecting.
- Checked-out connections are not tracked by the source, so no bound on "idle plus checked out" is stated; `returnConnection` accepts any connection.
- `MySqlPool` destructor: it only calls `Close`, whose contract covers it.
- `MySqlDao::RegUser`, `CheckEmail`, `UpdatePwd`, `CheckLogin` (src/MySqlDao.cpp:191-512): SQL text over result sets, outside the pool core.
- `generate_unique_string` and `getCurrentTimeStr` (StatusServer/StatusServiceImpl.cpp:10-36): the token is a parameter; its uniqueness and unpredictability cannot be stated here. Time formatting only feeds logs.
- `StatusServiceImpl` destructor (StatusServer/StatusServiceImpl.cpp:88-101): clears both maps at teardown; nothing observes the state afterwards.
- gRPC request, reply and `Status` objects: replies are the records `LoginRsp` and `GetChatServerRsp`.
- `StatusService.StatusServiceImpl.UpdateServerConnectionCount`: `con_count` is a 32-bit `int` in the source; the model's load is unbounded, so overflow after 2^31 assignments is not modelled.
- `ChatServer` default and copy constructors, and the `SectionInfo`/`ConfigMgr` copy constructors: no separate members. Datatype values are copied field by field by value, and the default server is the constant `DefaultServer`.
- `ErrorCodes` numeric values (StatusServer/const.h): only the three codes the gateway reports are kept. `UidInvalid` and `TokenInvalid` are not defined in that header.
- Event loops of `AsioIOServicePool` (`io_context::run`, thread bodies, `join` blocking): each slot keeps three flags and `Stop` logs its actions as a ghost trace.
- src/StatusServer.cpp (server start-up, signals, health log), src/ConfigMgr.cpp (INI parsing), `ConfigMgr::Inst`, StatusServer/RedisMgr.h: not part of this model.
- Logging to `std::cout`/`std::cerr` throughout.
