/** The SQL connection pool: a bounded channel of idle handles and a counter of open ones, which the
    constructor advances twice for every initial connection. */
module ConnPool {

  /** An idle handle and the time after which it is pinged before use. */
  datatype Conn = Conn(id: nat, timeout: int)

  /** Idle handles, the open counter, the handles lent to callers, the number of calls that dropped a
      dead handle and have not replaced it yet, and how many handles were ever opened. */
  datatype State = State(dbs: seq<Conn>, isOpen: int, lent: set<nat>, replacing: nat, made: nat)

  /** NoConn is the nil handle without an error; Blocked waits for a handle to come back. */
  datatype Got = Lent(id: nat) | Failed | NoConn | Blocked

  datatype Config = Config(maxOpen: nat, initOpen: nat, timeout: int)

  function Opened(s: State): State {
    s.(lent := s.lent + {s.made}, made := s.made + 1)
  }

  function OpenedMore(s: State): State {
    Opened(s).(isOpen := s.isOpen + 1)
  }

  function LentFirst(s: State): State
    requires s.dbs != []
  {
    s.(dbs := s.dbs[1..], lent := s.lent + {s.dbs[0].id})
  }

  /** A caller received a handle that is past its time and does not answer the ping. */
  function Dropped(s: State): State
    requires s.dbs != []
  {
    s.(dbs := s.dbs[1..], replacing := s.replacing + 1)
  }

  function Replaced(s: State, connOk: bool): (State, Got)
    requires s.replacing > 0
  {
    var s' := s.(replacing := s.replacing - 1);
    if connOk then (Opened(s'), Lent(s.made)) else (s'.(isOpen := s.isOpen - 1), Failed)
  }

  function Get(s: State, maxOpen: int, wait: bool, now: int, pingOk: bool, connOk: bool): (State, Got) {
    if wait && s.isOpen > 0 then
      if s.dbs == [] then (s, Blocked)
      else if s.dbs[0].timeout > now || pingOk then (LentFirst(s), Lent(s.dbs[0].id))
      else Replaced(Dropped(s), connOk)
    else if s.dbs != [] then (LentFirst(s), Lent(s.dbs[0].id))
    else if s.isOpen >= maxOpen then (s, NoConn)
    else if connOk then (OpenedMore(s), Lent(s.made))
    else (s, Failed)
  }

  function Returned(s: State, id: nat, until: int): State {
    s.(dbs := s.dbs + [Conn(id, until)], lent := s.lent - {id})
  }

  /** CreateTables borrows a handle for its statements and gives it back, also when one of them fails. */
  function TablesCreated(s: State, cfg: Config, now: int, pingOk: bool, connOk: bool, later: int): (State, Got) {
    var (s', got) := Get(s, cfg.maxOpen, true, now, pingOk, connOk);
    (if got.Lent? then Returned(s', got.id, later + cfg.timeout) else s', got)
  }

  function Closed(s: State, id: nat): State {
    s.(lent := s.lent - {id}, isOpen := s.isOpen - 1)
  }

  /** A new pool: however many initial connections were asked for, one handle was opened and each
      round of the loop counted once more. */
  function Started(initOpen: nat, until: int): State {
    if initOpen == 0 then State([], 0, {}, 0, 0) else State([Conn(0, until)], initOpen + 1, {}, 0, 1)
  }

  function MaxOpen(asked: int): (n: nat)
    ensures n >= 1
  {
    if asked <= 0 then 8 else asked
  }

  function InitOpen(asked: int, createTables: bool): nat {
    if asked > 0 then asked else if createTables then 1 else 0
  }

  function Timeout(asked: int): int {
    if asked < 5 then 5 else asked
  }

  function NewConfig(maxOpen: int, initOpen: int, createTables: bool, timeout: int): Config {
    Config(MaxOpen(maxOpen), InitOpen(initOpen, createTables), Timeout(timeout))
  }

  class SQLite3DB {
    var dbs: seq<Conn>
    var isOpen: int
    var made: nat
    ghost var lent: set<nat>
    const maxOpen: nat
    const timeout: int

    /** The channel holds at most maxOpen handles, at least one. */
    ghost predicate Valid()
      reads this
    {
      |dbs| <= maxOpen && maxOpen >= 1
    }

    ghost function Pool(): State
      reads this
    {
      State(dbs, isOpen, lent, 0, made)
    }

    constructor (maxOpen: nat, timeout: int)
      requires maxOpen >= 1
      ensures Valid() && this.maxOpen == maxOpen && this.timeout == timeout && Pool() == State([], 0, {}, 0, 0)
    {
      this.maxOpen, this.timeout := maxOpen, timeout;
      dbs, isOpen, made, lent := [], 0, 0, {};
    }

    /** The outcomes of a ping and of opening a connection are parameters. */
    method GetDB(wait: bool, now: int, pingOk: bool, connOk: bool) returns (got: Got)
      requires Valid()
      modifies this
      ensures Valid() && |dbs| <= |old(dbs)|
      ensures got.Lent? && old(dbs) != [] ==> |dbs| < |old(dbs)|
      ensures (Pool(), got) == Get(old(Pool()), maxOpen, wait, now, pingOk, connOk)
      ensures !(wait && old(isOpen) > 0) && old(dbs) == [] ==>
        got == if old(isOpen) >= maxOpen then NoConn else if connOk then Lent(old(made)) else Failed
      ensures !(wait && old(isOpen) > 0) && old(dbs) != [] ==> got == Lent(old(dbs)[0].id)
      ensures wait && old(isOpen) > 0 && old(dbs) != [] ==>
        got == if old(dbs)[0].timeout > now || pingOk then Lent(old(dbs)[0].id)
               else if connOk then Lent(old(made)) else Failed
    {
      if wait && isOpen > 0 {
        if dbs == [] {
          return Blocked;
        }
        var dbconn := dbs[0];
        dbs := dbs[1..];
        if dbconn.timeout > now || pingOk {
          lent := lent + {dbconn.id};
          return Lent(dbconn.id);
        }
        if connOk {
          got := Lent(made);
          lent := lent + {made};
          made := made + 1;
        } else {
          got := Failed;
          isOpen := isOpen - 1;
        }
        return;
      }
      if dbs != [] {
        got := Lent(dbs[0].id);
        lent := lent + {dbs[0].id};
        dbs := dbs[1..];
      } else if isOpen < maxOpen {
        if !connOk {
          return Failed;
        }
        got := Lent(made);
        lent := lent + {made};
        made := made + 1;
        isOpen := isOpen + 1;
      } else {
        got := NoConn;
      }
    }

    /** Blocks while the channel is full. */
    method ReturnDB(id: nat, now: int) returns (blocked: bool)
      requires Valid()
      modifies this
      ensures Valid() && (blocked <==> |old(dbs)| == maxOpen)
      ensures Pool() == if blocked then old(Pool()) else Returned(old(Pool()), id, now + timeout)
      ensures !blocked ==> dbs == old(dbs) + [Conn(id, now + timeout)] && lent == old(lent) - {id} && isOpen == old(isOpen)
    {
      if |dbs| == maxOpen {
        return true;
      }
      dbs := dbs + [Conn(id, now + timeout)];
      lent := lent - {id};
      blocked := false;
    }

    /** execOk says whether all statements that create tables succeed. */
    method CreateTables(now: int, pingOk: bool, connOk: bool, execOk: bool, later: int) returns (got: Got, ok: bool)
      requires Valid()
      modifies this
      ensures Valid()
      ensures (Pool(), got) == TablesCreated(old(Pool()), Config(maxOpen, 0, timeout), now, pingOk, connOk, later)
      ensures ok <==> got.Lent? && execOk
    {
      got := GetDB(true, now, pingOk, connOk);
      if !got.Lent? {
        return got, false;
      }
      var blocked := ReturnDB(got.id, later);
      assert !blocked;
      ok := execOk;
    }

    method CloseDB(id: nat)
      requires Valid()
      modifies this
      ensures Valid() && Pool() == Closed(old(Pool()), id)
      ensures isOpen == old(isOpen) - 1 && lent == old(lent) - {id} && dbs == old(dbs)
    {
      isOpen := isOpen - 1;
      lent := lent - {id};
    }
  }

  /** now is the clock when the initial handle is idle, t1 and t2 when CreateTables takes and returns it. */
  method NewSQLite3Pool(maxOpen: int, initOpen: int, createTables: bool, timeout: int, now: int, connOk: bool,
                        t1: int, pingOk: bool, reconnOk: bool, execOk: bool, t2: int)
    returns (s: SQLite3DB, ok: bool)
    ensures fresh(s) && s.Valid() && s.maxOpen == MaxOpen(maxOpen) && s.timeout == Timeout(timeout)
    ensures s.maxOpen == (if maxOpen > 0 then maxOpen else 8) && s.timeout == (if timeout >= 5 then timeout else 5)
    ensures ok ==>
      && s.isOpen == (if initOpen > 0 then initOpen + 1 else if createTables then 2 else 0)
      && |s.dbs| == (if initOpen > 0 || createTables then 1 else 0)
    ensures var cfg := NewConfig(maxOpen, initOpen, createTables, timeout);
      var started := Started(cfg.initOpen, now + cfg.timeout);
      var (created, got) := TablesCreated(started, cfg, t1, pingOk, reconnOk, t2);
      && (ok <==> (connOk || cfg.initOpen == 0) && (createTables ==> got.Lent? && execOk))
      && (ok ==> s.Pool() == if createTables then created else started)
  {
    s := new SQLite3DB(MaxOpen(maxOpen), Timeout(timeout));
    var i := 0;
    while i < InitOpen(initOpen, createTables)
      invariant 0 <= i <= InitOpen(initOpen, createTables)
      invariant fresh(s) && s.Valid()
      invariant i > 0 ==> connOk
      invariant s.Pool() == Started(i, now + Timeout(timeout))
    {
      var got := s.GetDB(false, now, true, connOk);
      if got.Failed? {
        return s, false;
      }
      s.isOpen := s.isOpen + 1;
      var blocked := s.ReturnDB(got.id, now);
      assert !blocked;
      i := i + 1;
    }
    ok := true;
    if createTables {
      var _, created := s.CreateTables(t1, pingOk, reconnOk, execOk, t2);
      ok := created;
    }
  }

  // ---------------------------------------------------------------------------
  // All runs
  // ---------------------------------------------------------------------------

  /** A waiting call whose handle is dead drops it and later replaces it, and a call that saw the channel
      empty may open a handle after one came back; every other call is one step. */
  datatype Op =
    | GetDB(wait: bool, now: int, pingOk: bool, connOk: bool)
    | DropDead(now: int)
    | Replace(connOk: bool)
    | ReturnDB(id: nat, now: int)
    | CloseDB(id: nat)
    | OpenLate(connOk: bool)

  /** Callers return and close only handles lent to them. */
  function Next(cfg: Config, s: State, op: Op): State {
    match op
    case GetDB(wait, now, pingOk, connOk) => Get(s, cfg.maxOpen, wait, now, pingOk, connOk).0
    case DropDead(now) => if s.isOpen > 0 && s.dbs != [] && s.dbs[0].timeout <= now then Dropped(s) else s
    case Replace(connOk) => if s.replacing > 0 then Replaced(s, connOk).0 else s
    case ReturnDB(id, now) => if id in s.lent then Returned(s, id, now + cfg.timeout) else s
    case CloseDB(id) => if id in s.lent then Closed(s, id) else s
    case OpenLate(connOk) => if s.isOpen < cfg.maxOpen && connOk then OpenedMore(s) else s
  }

  function Run(cfg: Config, now: int, ops: seq<Op>): State {
    if ops == [] then Started(cfg.initOpen, now + cfg.timeout)
    else Next(cfg, Run(cfg, now, ops[..|ops| - 1]), ops[|ops| - 1])
  }

  /** The handles that exist, those about to be replaced included. */
  function Live(s: State): nat {
    |s.dbs| + |s.lent| + s.replacing
  }

  /** The most handles the pool can ever have: the double count takes one from the limit for every
      initial connection. */
  function Capacity(cfg: Config): nat {
    if cfg.initOpen == 0 then cfg.maxOpen
    else if cfg.maxOpen <= cfg.initOpen then 1
    else cfg.maxOpen - cfg.initOpen
  }

  /** No handle is idle twice, or idle while lent. */
  ghost predicate HandlesApart(s: State) {
    && (forall i :: 0 <= i < |s.dbs| ==> s.dbs[i].id < s.made && s.dbs[i].id !in s.lent)
    && (forall i, j :: 0 <= i < j < |s.dbs| ==> s.dbs[i].id != s.dbs[j].id)
    && (forall id :: id in s.lent ==> id < s.made)
  }

  ghost predicate Inv(cfg: Config, s: State) {
    && HandlesApart(s)
    && s.isOpen == Live(s) + cfg.initOpen
    && Live(s) <= Capacity(cfg)
  }

  lemma RemovedSize(lent: set<nat>, id: nat)
    requires id in lent
    ensures |lent - {id}| == |lent| - 1
  {
  }

  lemma OpenedApart(s: State)
    requires HandlesApart(s)
    ensures HandlesApart(Opened(s)) && Live(Opened(s)) == Live(s) + 1
  {
  }

  lemma TakenApart(s: State)
    requires HandlesApart(s) && s.dbs != []
    ensures HandlesApart(LentFirst(s)) && Live(LentFirst(s)) == Live(s)
    ensures HandlesApart(Dropped(s)) && Live(Dropped(s)) == Live(s)
  {
    assert s.dbs[0].id !in s.lent;
  }

  lemma ReplacedApart(s: State, connOk: bool)
    requires HandlesApart(s) && s.replacing > 0
    ensures var s' := Replaced(s, connOk).0;
      HandlesApart(s') && Live(s') == if connOk then Live(s) else Live(s) - 1
  {
    OpenedApart(s.(replacing := s.replacing - 1));
  }

  lemma HandedBackApart(s: State, id: nat, until: int)
    requires HandlesApart(s) && id in s.lent
    ensures HandlesApart(Returned(s, id, until)) && Live(Returned(s, id, until)) == Live(s)
    ensures HandlesApart(Closed(s, id)) && Live(Closed(s, id)) == Live(s) - 1
  {
    RemovedSize(s.lent, id);
  }

  lemma GetKeepsInv(cfg: Config, s: State, wait: bool, now: int, pingOk: bool, connOk: bool)
    requires Inv(cfg, s)
    ensures Inv(cfg, Get(s, cfg.maxOpen, wait, now, pingOk, connOk).0)
  {
    hide HandlesApart, Live, LentFirst, Dropped;
    OpenedApart(s);
    if s.dbs != [] {
      TakenApart(s);
      DroppedReplacing(s);
      ReplacedApart(Dropped(s), connOk);
    }
    CountLive(Opened(s), s.isOpen + 1);
  }

  /** The open counter is no part of the handles. */
  lemma CountLive(s: State, isOpen: int)
    ensures Live(s.(isOpen := isOpen)) == Live(s) && (HandlesApart(s) ==> HandlesApart(s.(isOpen := isOpen)))
  {
  }

  lemma DroppedReplacing(s: State)
    requires s.dbs != []
    ensures Dropped(s).replacing > 0 && Dropped(s).isOpen == LentFirst(s).isOpen == s.isOpen
  {
  }

  lemma NextKeepsInv(cfg: Config, s: State, op: Op)
    requires Inv(cfg, s)
    ensures Inv(cfg, Next(cfg, s, op))
  {
    hide HandlesApart, Live, Get;
    match op
    case GetDB(wait, now, pingOk, connOk) =>
      GetKeepsInv(cfg, s, wait, now, pingOk, connOk);
    case DropDead(now) =>
      if s.dbs != [] { TakenApart(s); }
    case Replace(connOk) =>
      if s.replacing > 0 { ReplacedApart(s, connOk); }
    case ReturnDB(id, now) =>
      if id in s.lent { HandedBackApart(s, id, now + cfg.timeout); }
    case CloseDB(id) =>
      if id in s.lent { HandedBackApart(s, id, 0); }
    case OpenLate(connOk) =>
      OpenedApart(s);
      CountLive(Opened(s), s.isOpen + 1);
  }

  /** Over every run of calls, failures included: no handle is held by two callers, the counter is
      the live handles plus the initial connections asked for, and the handles stay within capacity. */
  lemma {:induction false} PoolSafety(cfg: Config, now: int, ops: seq<Op>)
    requires cfg.maxOpen >= 1
    ensures Inv(cfg, Run(cfg, now, ops))
    ensures Live(Run(cfg, now, ops)) <= cfg.maxOpen
  {
    if ops != [] {
      hide Next;
      PoolSafety(cfg, now, ops[..|ops| - 1]);
      NextKeepsInv(cfg, Run(cfg, now, ops[..|ops| - 1]), ops[|ops| - 1]);
    }
  }

  /** Creating the tables is one run of a new pool: it succeeds exactly when the one idle handle is
      fresh, answers, or can be replaced, and leaves one idle handle and the counter as it was. */
  lemma CreatingTablesIsARun(cfg: Config, now: int, t1: int, pingOk: bool, connOk: bool, t2: int)
    requires cfg.initOpen >= 1
    ensures var (s, got) := TablesCreated(Started(cfg.initOpen, now + cfg.timeout), cfg, t1, pingOk, connOk, t2);
      && (got.Lent? <==> t1 < now + cfg.timeout || pingOk || connOk)
      && (got.Lent? ==>
            && s == Run(cfg, now, [GetDB(true, t1, pingOk, connOk), ReturnDB(got.id, t2)])
            && |s.dbs| == 1 && s.lent == {} && s.isOpen == cfg.initOpen + 1)
  {
    var get := GetDB(true, t1, pingOk, connOk);
    var (s, got) := TablesCreated(Started(cfg.initOpen, now + cfg.timeout), cfg, t1, pingOk, connOk, t2);
    if got.Lent? {
      var ops := [get, ReturnDB(got.id, t2)];
      assert ops[..1] == [get] && [get][..0] == [];
      assert Run(cfg, now, [get]) == Next(cfg, Run(cfg, now, []), get);
    }
  }

  /** A handle that is lent out can always be returned: the channel has room for it. */
  lemma ReturnNeverBlocks(cfg: Config, now: int, ops: seq<Op>, id: nat)
    requires cfg.maxOpen >= 1 && id in Run(cfg, now, ops).lent
    ensures |Run(cfg, now, ops).dbs| < cfg.maxOpen
  {
    PoolSafety(cfg, now, ops);
    RemovedSize(Run(cfg, now, ops).lent, id);
  }

  /** A handle handed out is one no other caller holds, also when it was opened late. */
  lemma LentToOne(cfg: Config, now: int, ops: seq<Op>, wait: bool, t: int, pingOk: bool, connOk: bool)
    requires cfg.maxOpen >= 1
    ensures var s := Run(cfg, now, ops); var (s', got) := Get(s, cfg.maxOpen, wait, t, pingOk, connOk);
      && (got.Lent? ==> got.id !in s.lent && s'.lent == s.lent + {got.id})
      && (s.isOpen < cfg.maxOpen ==> Next(cfg, s, OpenLate(true)).lent == s.lent + {s.made})
      && Next(cfg, s, OpenLate(true)).lent <= s.lent + {s.made} && s.made !in s.lent
  {
    hide Run, HandlesApart, Get, Next;
    PoolSafety(cfg, now, ops);
    LendsApart(Run(cfg, now, ops), cfg.maxOpen, wait, t, pingOk, connOk);
    LateIsNew(cfg, Run(cfg, now, ops));
  }

  lemma LendsApart(s: State, maxOpen: int, wait: bool, t: int, pingOk: bool, connOk: bool)
    requires HandlesApart(s)
    ensures var (s', got) := Get(s, maxOpen, wait, t, pingOk, connOk);
      got.Lent? ==> got.id !in s.lent && s'.lent == s.lent + {got.id}
  {
  }

  lemma LateIsNew(cfg: Config, s: State)
    requires HandlesApart(s)
    ensures s.isOpen < cfg.maxOpen ==> Next(cfg, s, OpenLate(true)).lent == s.lent + {s.made}
    ensures Next(cfg, s, OpenLate(true)).lent <= s.lent + {s.made} && s.made !in s.lent
  {
  }

  /** Closing a lent handle makes room for another: the next call that does not wait is lent one. */
  lemma ClosingMakesRoom(cfg: Config, now: int, ops: seq<Op>, id: nat, t: int)
    requires cfg.maxOpen >= 1 && cfg.initOpen < cfg.maxOpen && id in Run(cfg, now, ops).lent
    ensures var s := Run(cfg, now, ops); var s' := Next(cfg, s, CloseDB(id));
      && Live(s') == Live(s) - 1 && s'.lent == s.lent - {id}
      && Get(s', cfg.maxOpen, false, t, true, true).1.Lent?
  {
    hide Run;
    PoolSafety(cfg, now, ops);
    HandedBackApart(Run(cfg, now, ops), id, 0);
  }

  /** In a pool with initial connections a waiting call never adds a handle; once the last one has
      died every waiting call blocks, although the counter says connections are open. */
  lemma WaitingNeverOpens(cfg: Config, now: int, ops: seq<Op>, t: int, pingOk: bool, connOk: bool)
    requires cfg.maxOpen >= 1 && cfg.initOpen >= 1
    ensures var s := Run(cfg, now, ops); var (s', got) := Get(s, cfg.maxOpen, true, t, pingOk, connOk);
      && Live(s') <= Live(s)
      && (got == Blocked <==> s.dbs == [])
      && (Live(s) == 0 ==> got == Blocked && s.isOpen == cfg.initOpen)
  {
    PoolSafety(cfg, now, ops);
    NextKeepsInv(cfg, Run(cfg, now, ops), GetDB(true, t, pingOk, connOk));
  }

  /** A caller who does not wait is refused exactly when no handle is idle and the pool has all the
      handles it can ever have. */
  lemma RefusedAtCapacity(cfg: Config, now: int, ops: seq<Op>, t: int, pingOk: bool, connOk: bool)
    requires cfg.maxOpen >= 1
    ensures var s := Run(cfg, now, ops); var (s', got) := Get(s, cfg.maxOpen, false, t, pingOk, connOk);
      && (got == NoConn <==> s.dbs == [] && Live(s) + cfg.initOpen >= cfg.maxOpen)
      && (cfg.initOpen < cfg.maxOpen ==> (got == NoConn <==> s.dbs == [] && Live(s) == Capacity(cfg)))
      && (got == Failed ==> !connOk) && got != Blocked
  {
    hide Run, HandlesApart;
    PoolSafety(cfg, now, ops);
  }

  /** A call that does not wait, at time t, with a connection that opens. */
  function Asks(n: nat, t: int): seq<Op> {
    if n == 0 then [] else Asks(n - 1, t) + [GetDB(false, t, true, true)]
  }

  /** The capacity is attained: callers who do not wait are lent as many handles at once. */
  lemma {:induction false} CapacityAttained(cfg: Config, now: int, t: int, n: nat)
    requires cfg.maxOpen >= 1 && n <= Capacity(cfg)
    ensures var s := Run(cfg, now, Asks(n, t));
      |s.lent| == n && s.replacing == 0 && (n > 0 || cfg.initOpen == 0 ==> s.dbs == [])
  {
    if n > 0 {
      hide HandlesApart;
      var before := Asks(n - 1, t);
      CapacityAttained(cfg, now, t, n - 1);
      PoolSafety(cfg, now, before);
      LentToOne(cfg, now, before, false, t, true, true);
      assert Asks(n, t)[..|before|] == before;
      AskLends(Run(cfg, now, before), cfg.maxOpen, t);
    }
  }

  lemma AskLends(s: State, maxOpen: int, t: int)
    requires |s.dbs| <= 1 && (s.dbs != [] || s.isOpen < maxOpen)
    ensures var (s', got) := Get(s, maxOpen, false, t, true, true);
      got.Lent? && s'.dbs == [] && s'.replacing == s.replacing
  {
  }

  /** What a caller of NewSQLite3Pool gets for the numbers asked: by default 7 handles of a limit of 8
      when tables are created, and all 8 when not; the initial connections asked for are lost. */
  lemma AskedCapacity(maxOpen: int, initOpen: int, createTables: bool, timeout: int)
    ensures var capacity := Capacity(NewConfig(maxOpen, initOpen, createTables, timeout));
      var limit := if maxOpen > 0 then maxOpen else 8;
      && (initOpen <= 0 && !createTables ==> capacity == limit)
      && (initOpen <= 0 && createTables ==> capacity == if limit == 1 then 1 else limit - 1)
      && (initOpen > 0 ==> capacity == if initOpen >= limit then 1 else limit - initOpen)
  {
  }

  /** A waiting call whose handle is dead, in two steps with others between them or none. */
  lemma DeadInTwoSteps(cfg: Config, s: State, now: int, connOk: bool)
    requires s.isOpen > 0 && s.dbs != [] && s.dbs[0].timeout <= now
    ensures Next(cfg, Next(cfg, s, DropDead(now)), Replace(connOk)) == Get(s, cfg.maxOpen, true, now, false, connOk).0
  {
  }
}
