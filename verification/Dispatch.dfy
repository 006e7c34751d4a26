/** The index dispatchers and their 4096 workers: requests travel from one channel through a pool of
    dispatchers to the worker that owns their prefix, and one nil shuts everything down. */
module Dispatch {
  import opened Strconv
  import opened Types
  import opened HistoryFile
  import opened HexPrefixes

  /** A request; hasRet says whether it carries a channel for the answer. */
  datatype Req = Req(id: nat, hash: string, offset: int, hasRet: bool)

  datatype Msg = Nil | Ask(req: Req)

  /** What workers are sent. */
  predicate Proper(r: Req) {
    |r.hash| >= HASH_LEN && r.offset != 0
  }

  const SUB_CAP := 16

  /** A nil and a request with a short hash both stop the dispatcher that receives them. */
  predicate IsStop(m: Msg) {
    m.Nil? || |m.req.hash| < HASH_LEN
  }

  function ToLower(s: string): (t: string)
    ensures |t| == |s|
  {
    seq(|s|, i requires 0 <= i < |s| => if 'A' <= s[i] <= 'Z' then s[i] - 'A' + 'a' else s[i])
  }

  /** The worker a hash is sent to. */
  function Route(hash: string): (w: nat)
    ensures w < NUM_CACHE_DBS
  {
    if |hash| < 3 then 0 else CharIndex(ToLower(hash[..3]))
  }

  /** par dispatchers, at least one once booted, on a channel with room for cap messages. */
  datatype Config = Config(par: nat, cap: nat)

  /** Dispatchers are idle, hold a request for a worker, are about to pass a nil on, or have quit. The
      last two fields record history: what clients sent, in order, and how many of the messages sent
      before the first stop still lead the channel. */
  datatype State = State(
    chan: seq<Msg>, closed: bool,
    idle: nat, holding: multiset<Req>, passing: nat, dead: nat,
    subs: seq<seq<Option<Req>>>, nils: nat, quit: set<nat>,
    answered: multiset<(nat, Req)>, ignored: multiset<Req>, dropped: multiset<Req>,
    log: seq<Msg>, ahead: nat)

  datatype Step =
    | Send(m: Msg)
    | Receive
    | PassNil
    | Forward(r: Req)
    | Work(w: nat)
    | HubNil

  predicate Enabled(cfg: Config, s: State, step: Step) {
    match step
    case Send(m) => |s.chan| < cfg.cap && !s.closed
    case Receive => s.idle > 0 && (s.chan != [] || s.closed)
    case PassNil => s.passing > 0 && |s.chan| < cfg.cap
    case Forward(r) => r in s.holding && Route(r.hash) < |s.subs| && |s.subs[Route(r.hash)]| < SUB_CAP
    case Work(w) => w < |s.subs| && w !in s.quit && s.subs[w] != []
    case HubNil => s.dead == cfg.par && s.nils < |s.subs| && |s.subs[s.nils]| < SUB_CAP
  }

  /** A request that kills the dispatcher that receives it. */
  predicate IsZero(m: Msg) {
    !IsStop(m) && m.req.offset == 0
  }

  /** How many messages were sent before the first stop. */
  function Lead(log: seq<Msg>): (n: nat)
    ensures n <= |log|
    ensures forall k :: 0 <= k < n ==> !IsStop(log[k])
    ensures n < |log| ==> IsStop(log[n])
  {
    if log == [] || IsStop(log[0]) then 0 else 1 + Lead(log[1..])
  }

  function Sent(s: State, m: Msg): State {
    s.(chan := s.chan + [m], log := s.log + [m],
       ahead := if Lead(s.log) == |s.log| && !IsStop(m) then s.ahead + 1 else s.ahead)
  }

  /** One dispatcher takes the first message. A stop is passed on, or closes the channel when there is
      one dispatcher; offset 0 kills the dispatcher; a request that does either is lost, and any other
      is held for its worker. */
  function Received(cfg: Config, s: State): State
    requires s.idle > 0 && (s.chan != [] || s.closed)
  {
    if s.chan == [] then s.(idle := s.idle - 1, dead := s.dead + 1)
    else
      var m := s.chan[0];
      var stop := IsStop(m);
      var zero := IsZero(m);
      var last := stop && cfg.par == 1;
      s.(chan := s.chan[1..], idle := s.idle - 1, ahead := if s.ahead > 0 then s.ahead - 1 else 0,
         closed := s.closed || last,
         passing := if stop && !last then s.passing + 1 else s.passing,
         dead := if last || zero then s.dead + 1 else s.dead,
         holding := if stop || zero then s.holding else s.holding + multiset{m.req},
         dropped := if m.Ask? && (stop || zero) then s.dropped + multiset{m.req} else s.dropped)
  }

  /** What receiving leaves alone. */
  lemma ReceivedFrame(cfg: Config, s: State)
    requires s.idle > 0 && s.chan != []
    ensures var s' := Received(cfg, s);
      && s'.chan == s.chan[1..] && s'.ahead == (if s.ahead > 0 then s.ahead - 1 else 0)
      && s'.idle == s.idle - 1 && s'.log == s.log
      && s'.subs == s.subs && s'.answered == s.answered && s'.ignored == s.ignored
      && s'.nils == s.nils && s'.quit == s.quit
  {
    hide IsStop, IsZero;
  }

  /** What receiving does with the request and the dispatcher. */
  lemma ReceivedParts(cfg: Config, s: State)
    requires s.idle > 0 && s.chan != []
    ensures var s' := Received(cfg, s); var m := s.chan[0];
      && (m.Ask? && Proper(m.req) ==> s'.holding == s.holding + multiset{m.req} && s'.dropped == s.dropped)
      && (m.Ask? && !Proper(m.req) ==> s'.holding == s.holding && s'.dropped == s.dropped + multiset{m.req})
      && (m.Nil? ==> s'.holding == s.holding && s'.dropped == s.dropped)
      && (!IsStop(m) ==> s'.passing == s.passing && s'.closed == s.closed)
      && (!IsStop(m) ==> s'.dead == s.dead + if IsZero(m) then 1 else 0)
      && (IsStop(m) ==> s'.dead + s'.passing == s.dead + s.passing + 1)
      && (m.Ask? && Proper(m.req) ==> !IsStop(m) && !IsZero(m))
      && (!IsStop(m) && !Proper(m.req) ==> IsZero(m))
      && (IsStop(m) && cfg.par == 1 ==> s'.passing == s.passing && s'.dead == s.dead + 1 && s'.closed)
      && (IsStop(m) && cfg.par != 1 ==> s'.passing == s.passing + 1 && s'.dead == s.dead && s'.closed == s.closed)
      && (s'.passing <= s.passing + 1 && s'.dead <= s.dead + 1)
  {
  }

  lemma SentParts(s: State, m: Msg)
    ensures var s' := Sent(s, m);
      && s'.chan == s.chan + [m] && s'.log == s.log + [m]
      && s'.ahead == (if Lead(s.log) == |s.log| && !IsStop(m) then s.ahead + 1 else s.ahead)
      && s'.subs == s.subs && s'.nils == s.nils && s'.quit == s.quit && s'.holding == s.holding
      && s'.idle == s.idle && s'.passing == s.passing && s'.dead == s.dead && s'.closed == s.closed
      && s'.answered == s.answered && s'.ignored == s.ignored && s'.dropped == s.dropped
  {
    hide Lead, IsStop;
  }

  function NilPassed(s: State): State
    requires s.passing > 0
  {
    s.(chan := s.chan + [Nil], passing := s.passing - 1, dead := s.dead + 1)
  }

  function Forwarded(s: State, r: Req): State
    requires r in s.holding && Route(r.hash) < |s.subs|
  {
    var w := Route(r.hash);
    s.(subs := s.subs[w := s.subs[w] + [Some(r)]], holding := s.holding - multiset{r}, idle := s.idle + 1)
  }

  /** A worker takes its first message: nil stops it, a request is answered if it says where. */
  function Worked(s: State, w: nat): State
    requires w < |s.subs| && s.subs[w] != []
  {
    var t := s.(subs := s.subs[w := s.subs[w][1..]]);
    match s.subs[w][0]
    case None => t.(quit := s.quit + {w})
    case Some(r) =>
      if r.hasRet then t.(answered := s.answered + multiset{(w, r)})
      else t.(ignored := s.ignored + multiset{r})
  }

  function NilSent(s: State): State
    requires s.nils < |s.subs|
  {
    s.(subs := s.subs[s.nils := s.subs[s.nils] + [None]], nils := s.nils + 1)
  }

  function Next(cfg: Config, s: State, step: Step): State {
    if !Enabled(cfg, s, step) then s
    else
      match step
      case Send(m) => Sent(s, m)
      case Receive => Received(cfg, s)
      case PassNil => NilPassed(s)
      case Forward(r) => Forwarded(s, r)
      case Work(w) => Worked(s, w)
      case HubNil => NilSent(s)
  }

  function NoSubs(): seq<seq<Option<Req>>> {
    seq(NUM_CACHE_DBS, _ => [])
  }

  function Init(cfg: Config): State {
    State([], false, cfg.par, multiset{}, 0, 0, NoSubs(), 0, {}, multiset{}, multiset{}, multiset{},
          [], 0)
  }

  function Run(cfg: Config, s: State, steps: seq<Step>): State {
    if steps == [] then s else Next(cfg, Run(cfg, s, steps[..|steps| - 1]), steps[|steps| - 1])
  }

  // ---------------------------------------------------------------------------
  // Dispatchers and workers
  // ---------------------------------------------------------------------------

  /** Requests for worker w only, and no nil. */
  ghost predicate OnlyRequests(q: seq<Option<Req>>, w: nat) {
    forall k :: 0 <= k < |q| ==> q[k].Some? && Proper(q[k].value) && Route(q[k].value.hash) == w
  }

  /** Before its nil a worker's channel holds requests; after it, requests with the nil last, until the
      worker has taken the nil and quit. */
  ghost predicate SubOk(q: seq<Option<Req>>, w: nat, told: bool, quit: bool) {
    && |q| <= SUB_CAP
    && (!told ==> !quit && OnlyRequests(q, w))
    && (told && quit ==> q == [])
    && (told && !quit ==> q != [] && q[|q| - 1].None? && OnlyRequests(q[..|q| - 1], w))
  }

  ghost predicate CrewOk(cfg: Config, s: State) {
    && s.idle + |s.holding| + s.passing + s.dead == cfg.par
    && |s.chan| <= cfg.cap
    && |s.subs| == NUM_CACHE_DBS
    && (s.nils > 0 ==> s.dead == cfg.par)
    && s.nils <= NUM_CACHE_DBS
    && (forall r :: r in s.holding ==> Proper(r))
    && (s.passing > 0 ==> cfg.par >= 2 && cfg.cap >= 1)
    && (s.closed ==> cfg.par == 1 && s.dead == 1)
  }

  ghost predicate WorkersOk(s: State) {
    && (forall w :: 0 <= w < |s.subs| ==> SubOk(s.subs[w], w, w < s.nils, w in s.quit))
    && (forall w :: w in s.quit ==> w < |s.subs|)
  }

  lemma SubsUpdated(s: State, s': State, w: nat, q: seq<Option<Req>>)
    requires WorkersOk(s) && w < |s.subs| && s'.subs == s.subs[w := q]
    requires forall v :: 0 <= v < |s.subs| && v != w ==> (v < s'.nils <==> v < s.nils) && (v in s'.quit <==> v in s.quit)
    requires SubOk(q, w, w < s'.nils, w in s'.quit)
    requires forall v :: v in s'.quit ==> v < |s.subs|
    ensures WorkersOk(s')
  {
    hide SubOk;
  }

  lemma ForwardKeepsWorkers(cfg: Config, s: State, r: Req)
    requires CrewOk(cfg, s) && WorkersOk(s) && Enabled(cfg, s, Forward(r))
    ensures CrewOk(cfg, Forwarded(s, r)) && WorkersOk(Forwarded(s, r))
  {
    hide Route;
    var w := Route(r.hash);
    assert SubOk(s.subs[w], w, w < s.nils, w in s.quit);
    SubsUpdated(s, Forwarded(s, r), w, s.subs[w] + [Some(r)]);
  }

  lemma SubPopped(q: seq<Option<Req>>, w: nat, told: bool)
    requires SubOk(q, w, told, false) && q != []
    ensures q[0].Some? ==> SubOk(q[1..], w, told, false) && Proper(q[0].value) && Route(q[0].value.hash) == w
    ensures q[0].None? ==> SubOk(q[1..], w, told, true)
  {
    hide Route, Proper;
    if told {
      var reqs := q[..|q| - 1];
      assert reqs != [] ==> q[0] == reqs[0] && q[1..][..|q| - 2] == reqs[1..];
    }
  }

  lemma WorkKeepsWorkers(cfg: Config, s: State, w: nat)
    requires CrewOk(cfg, s) && WorkersOk(s) && Enabled(cfg, s, Work(w))
    ensures CrewOk(cfg, Worked(s, w)) && WorkersOk(Worked(s, w))
  {
    hide Route, SubOk, Proper;
    SubPopped(s.subs[w], w, w < s.nils);
    SubsUpdated(s, Worked(s, w), w, s.subs[w][1..]);
  }

  lemma HubKeepsWorkers(cfg: Config, s: State)
    requires CrewOk(cfg, s) && WorkersOk(s) && Enabled(cfg, s, HubNil)
    ensures CrewOk(cfg, NilSent(s)) && WorkersOk(NilSent(s))
  {
    hide Route;
    var q := s.subs[s.nils];
    assert SubOk(q, s.nils, false, s.nils in s.quit);
    assert (q + [None])[..|q|] == q;
    SubsUpdated(s, NilSent(s), s.nils, q + [None]);
  }

  /** A closed channel has no dispatcher left to receive from it. */
  lemma ReceiveKeepsCrew(cfg: Config, s: State)
    requires CrewOk(cfg, s) && s.idle > 0 && (s.chan != [] || s.closed)
    ensures CrewOk(cfg, Received(cfg, s))
  {
    hide Received, IsZero, Proper;
    ReceivedFrame(cfg, s);
    ReceivedParts(cfg, s);
  }

  lemma SameWorkers(s: State, s': State)
    requires WorkersOk(s) && s'.subs == s.subs && s'.nils == s.nils && s'.quit == s.quit
    ensures WorkersOk(s')
  {
    hide SubOk;
  }

  lemma NextKeepsWorkers(cfg: Config, s: State, step: Step)
    requires CrewOk(cfg, s) && WorkersOk(s)
    ensures CrewOk(cfg, Next(cfg, s, step)) && WorkersOk(Next(cfg, s, step))
  {
    hide Route, WorkersOk, Received, Sent, Forwarded, Worked, NilSent, Proper;
    if Enabled(cfg, s, step) {
      match step
      case Send(m) =>
        SentParts(s, m);
        SameWorkers(s, Sent(s, m));
      case Receive =>
        ReceiveKeepsCrew(cfg, s);
        ReceivedFrame(cfg, s);
        SameWorkers(s, Received(cfg, s));
      case PassNil =>
        SameWorkers(s, NilPassed(s));
      case Forward(r) => ForwardKeepsWorkers(cfg, s, r);
      case Work(w) => WorkKeepsWorkers(cfg, s, w);
      case HubNil => HubKeepsWorkers(cfg, s);
    }
  }

  lemma ClosedReceived(cfg: Config, s: State)
    requires s.idle > 0 && s.chan == [] && s.closed
    ensures Received(cfg, s) == s.(idle := s.idle - 1, dead := s.dead + 1)
  {
  }

  // ---------------------------------------------------------------------------
  // Conservation
  // ---------------------------------------------------------------------------

  /** How often a request waits in its worker's channel. */
  function InSub(subs: seq<seq<Option<Req>>>, r: Req): nat {
    if Route(r.hash) < |subs| then multiset(subs[Route(r.hash)])[Some(r)] else 0
  }

  /** Where a request can be: in the channel, held, at its worker, answered by its worker, ignored for
      want of a return channel, or dropped with a dispatcher. */
  function Places(s: State, r: Req): nat {
    multiset(s.chan)[Ask(r)] + s.holding[r] + InSub(s.subs, r)
      + s.answered[(Route(r.hash), r)] + s.ignored[r] + s.dropped[r]
  }

  function SentCount(s: State, r: Req): nat {
    multiset(s.log)[Ask(r)]
  }

  ghost predicate Conserved(s: State) {
    forall r :: SentCount(s, r) == Places(s, r)
  }

  ghost predicate OutcomesOk(s: State) {
    && (forall w, r :: (w, r) in s.answered ==> w == Route(r.hash) && r.hasRet && Proper(r))
    && (forall r :: r in s.ignored ==> !r.hasRet)
    && (forall r :: r in s.dropped ==> !Proper(r))
  }

  lemma QueueCounts<T>(q: seq<T>, x: T)
    ensures multiset(q + [x]) == multiset(q) + multiset{x}
    ensures q != [] ==> multiset(q) == multiset{q[0]} + multiset(q[1..])
  {
    if q != [] {
      assert q == [q[0]] + q[1..];
    }
  }

  lemma SendConserves(s: State, m: Msg, r: Req)
    ensures Places(Sent(s, m), r) - Places(s, r) == SentCount(Sent(s, m), r) - SentCount(s, r)
  {
    hide Route, InSub, Sent;
    SentParts(s, m);
    QueueCounts(s.chan, m);
    QueueCounts(s.log, m);
  }

  lemma ReceiveConserves(cfg: Config, s: State, r: Req)
    requires s.idle > 0 && (s.chan != [] || s.closed)
    ensures Places(Received(cfg, s), r) == Places(s, r) && Received(cfg, s).log == s.log
  {
    if s.chan != [] {
      hide Route, InSub, Received, Proper;
      QueueCounts(s.chan, Nil);
      ReceivedFrame(cfg, s);
      ReceivedParts(cfg, s);
    }
  }

  lemma PassConserves(s: State, r: Req)
    requires s.passing > 0
    ensures Places(NilPassed(s), r) == Places(s, r)
  {
    hide Route, InSub;
    QueueCounts(s.chan, Nil);
  }

  /** Changing one worker's channel changes the count of its own requests only. */
  lemma InSubUpdated(subs: seq<seq<Option<Req>>>, w: nat, q: seq<Option<Req>>, r: Req)
    requires w < |subs|
    ensures InSub(subs[w := q], r) == if Route(r.hash) == w then multiset(q)[Some(r)] else InSub(subs, r)
    ensures Route(r.hash) == w ==> InSub(subs, r) == multiset(subs[w])[Some(r)]
  {
    hide Route;
  }

  lemma ForwardConserves(s: State, x: Req, r: Req)
    requires x in s.holding && Route(x.hash) < |s.subs|
    ensures Places(Forwarded(s, x), r) == Places(s, r)
  {
    hide Route, InSub;
    var w := Route(x.hash);
    QueueCounts(s.subs[w], Some(x));
    InSubUpdated(s.subs, w, s.subs[w] + [Some(x)], r);
  }

  lemma WorkConserves(s: State, w: nat, r: Req)
    requires w < |s.subs| && s.subs[w] != []
    requires s.subs[w][0].Some? ==> Route(s.subs[w][0].value.hash) == w
    ensures Places(Worked(s, w), r) == Places(s, r) && Worked(s, w).log == s.log
  {
    hide Route, InSub;
    QueueCounts(s.subs[w], None);
    InSubUpdated(s.subs, w, s.subs[w][1..], r);
  }

  lemma HubConserves(s: State, r: Req)
    requires s.nils < |s.subs|
    ensures Places(NilSent(s), r) == Places(s, r)
  {
    hide Route, InSub;
    QueueCounts(s.subs[s.nils], None);
    InSubUpdated(s.subs, s.nils, s.subs[s.nils] + [None], r);
  }

  /** No step creates or loses a request; only a client's send adds one. */
  lemma StepConserves(cfg: Config, s: State, step: Step, r: Req)
    requires WorkersOk(s)
    ensures var s' := Next(cfg, s, step); Places(s', r) - Places(s, r) == SentCount(s', r) - SentCount(s, r)
  {
    hide Route, InSub, Places, SubOk, Received, Sent, Worked;
    if Enabled(cfg, s, step) {
      match step
      case Send(m) => SendConserves(s, m, r);
      case Receive => ReceiveConserves(cfg, s, r);
      case PassNil => PassConserves(s, r);
      case Forward(x) => ForwardConserves(s, x, r);
      case Work(w) =>
        SubPopped(s.subs[w], w, w < s.nils);
        WorkConserves(s, w, r);
      case HubNil => HubConserves(s, r);
    }
  }

  lemma WorkKeepsOutcomes(s: State, w: nat)
    requires OutcomesOk(s) && w < |s.subs| && s.subs[w] != []
    requires s.subs[w][0].Some? ==> Proper(s.subs[w][0].value) && Route(s.subs[w][0].value.hash) == w
    ensures OutcomesOk(Worked(s, w))
  {
    hide Route, Proper;
  }

  lemma ReceiveKeepsOutcomes(cfg: Config, s: State)
    requires OutcomesOk(s) && s.idle > 0 && (s.chan != [] || s.closed)
    ensures OutcomesOk(Received(cfg, s))
  {
    if s.chan != [] {
      hide Route, Proper, Received;
      ReceivedFrame(cfg, s);
      ReceivedParts(cfg, s);
    }
  }

  lemma NextKeepsOutcomes(cfg: Config, s: State, step: Step)
    requires OutcomesOk(s) && WorkersOk(s)
    ensures OutcomesOk(Next(cfg, s, step))
  {
    hide Route, SubOk, Proper, Received, Worked;
    if Enabled(cfg, s, step) {
      match step
      case Send(m) =>
      case Receive => ReceiveKeepsOutcomes(cfg, s);
      case PassNil =>
      case Forward(r) =>
      case Work(w) =>
        SubPopped(s.subs[w], w, w < s.nils);
        WorkKeepsOutcomes(s, w);
      case HubNil =>
    }
  }

  lemma NextConserves(cfg: Config, s: State, step: Step)
    requires Conserved(s) && WorkersOk(s)
    ensures Conserved(Next(cfg, s, step))
  {
    hide Route, WorkersOk, Places, Next, SentCount;
    forall r
      ensures SentCount(Next(cfg, s, step), r) == Places(Next(cfg, s, step), r)
    {
      StepConserves(cfg, s, step, r);
    }
  }

  // ---------------------------------------------------------------------------
  // The order of requests before the first stop
  // ---------------------------------------------------------------------------

  lemma {:induction false} LeadSnoc(log: seq<Msg>, m: Msg)
    ensures Lead(log + [m]) == if Lead(log) == |log| && !IsStop(m) then |log| + 1 else Lead(log)
  {
    hide IsStop;
    if log == [] {
      assert [m][1..] == [];
    } else {
      LeadSnoc(log[1..], m);
      TailOfConcat(log, [m]);
    }
  }

  function Zeros(q: seq<Msg>): nat {
    if q == [] then 0 else (if IsZero(q[0]) then 1 else 0) + Zeros(q[1..])
  }

  lemma {:induction false} ZerosConcat(a: seq<Msg>, b: seq<Msg>)
    ensures Zeros(a + b) == Zeros(a) + Zeros(b)
  {
    hide IsZero;
    if a == [] {
      assert a + b == b;
    } else {
      ZerosConcat(a[1..], b);
      TailOfConcat(a, b);
    }
  }

  lemma ZerosOne(m: Msg)
    ensures Zeros([m]) == if IsZero(m) then 1 else 0
  {
    hide IsZero;
    assert [m][1..] == [];
  }

  /** The length of q up to and including its n-th request with offset 0, or its whole length when it
      has fewer. */
  function Cut(q: seq<Msg>, n: nat): (c: nat)
    ensures c <= |q|
  {
    if q == [] then 0
    else if !IsZero(q[0]) then 1 + Cut(q[1..], n)
    else if n <= 1 then 1
    else 1 + Cut(q[1..], n - 1)
  }

  lemma {:induction false} CutMeaning(q: seq<Msg>, n: nat)
    requires n >= 1
    ensures Zeros(q) < n ==> Cut(q, n) == |q|
    ensures Zeros(q) >= n ==> Cut(q, n) > 0 && IsZero(q[Cut(q, n) - 1]) && Zeros(q[..Cut(q, n)]) == n
  {
    hide IsZero;
    if q != [] {
      var c := Cut(q, n);
      if IsZero(q[0]) && n == 1 {
        assert q[..c] == [q[0]];
        ZerosOne(q[0]);
      } else {
        CutMeaning(q[1..], if IsZero(q[0]) then n - 1 else n);
        assert q[..c][1..] == q[1..][..c - 1];
      }
    }
  }

  /** While q is cut nowhere, a longer message list is cut nowhere before it, and right behind it when
      q already holds n requests with offset 0. */
  lemma {:induction false} CutExtended(q: seq<Msg>, more: seq<Msg>, n: nat)
    requires n >= 1 && Cut(q, n) == |q|
    ensures Zeros(q) <= n
    ensures Zeros(q) == n ==> Cut(q + more, n) == |q|
    ensures Zeros(q) < n && |more| == 1 ==> Cut(q + more, n) == |q| + 1
  {
    hide IsZero;
    if q == [] {
      assert q + more == more;
      if |more| == 1 {
        assert more[1..] == [];
      }
    } else {
      TailOfConcat(q, more);
      if IsZero(q[0]) && n == 1 {
        assert q[1..] == [];
      } else {
        CutExtended(q[1..], more, if IsZero(q[0]) then n - 1 else n);
      }
    }
  }

  /** The messages sent before the first stop, and those of them that dispatchers have taken. */
  function Early(s: State): seq<Msg> {
    s.log[..Lead(s.log)]
  }

  function Consumed(s: State): seq<Msg>
    requires s.ahead <= Lead(s.log)
  {
    s.log[..Lead(s.log) - s.ahead]
  }

  /** No stop has reached a dispatcher. */
  predicate Fresh(s: State) {
    s.ahead > 0 || Lead(s.log) == |s.log|
  }

  /** Until a stop reaches a dispatcher the channel holds what was sent, in order, and only requests
      with offset 0 have killed dispatchers; messages are taken only while one is left. */
  ghost predicate OrderOk(cfg: Config, s: State) {
    && s.ahead <= Lead(s.log)
    && Cut(Consumed(s), cfg.par) == |Consumed(s)|
    && (Fresh(s) ==>
          && s.chan == s.log[Lead(s.log) - s.ahead..]
          && s.passing == 0 && !s.closed && s.dead == Zeros(Consumed(s)))
  }

  /** Once the early messages are gone the channel holds at most what was sent later. */
  ghost predicate LateOk(s: State) {
    s.ahead == 0 ==> forall r :: multiset(s.chan)[Ask(r)] <= multiset(s.log[Lead(s.log)..])[Ask(r)]
  }

  lemma SendKeepsOrder(cfg: Config, s: State, m: Msg)
    requires OrderOk(cfg, s)
    ensures OrderOk(cfg, Sent(s, m))
  {
    hide Lead, IsStop, Zeros, Cut, Sent;
    SentParts(s, m);
    LeadSnoc(s.log, m);
    var s' := Sent(s, m);
    assert Consumed(s') == Consumed(s);
    if Fresh(s) {
      assert s'.log[Lead(s'.log) - s'.ahead..] == s.log[Lead(s.log) - s.ahead..] + [m];
    }
  }

  lemma SendKeepsLate(s: State, m: Msg)
    requires LateOk(s)
    ensures LateOk(Sent(s, m))
  {
    hide Lead, IsStop, Sent;
    SentParts(s, m);
    LeadSnoc(s.log, m);
    if Sent(s, m).ahead == 0 {
      var late := s.log[Lead(s.log)..];
      assert (s.log + [m])[Lead(s.log)..] == late + [m];
      QueueCounts(late, m);
      QueueCounts(s.chan, m);
    }
  }

  /** An early message is taken by a dispatcher that no request with offset 0 has killed. */
  lemma EarlyTaken(cfg: Config, s: State, s': State, m: Msg)
    requires cfg.par >= 1 && OrderOk(cfg, s) && s.ahead > 0 && s.dead < cfg.par
    requires m == s.chan[0] && s'.chan == s.chan[1..] && s'.log == s.log && s'.ahead == s.ahead - 1
    requires s'.passing == s.passing && s'.closed == s.closed
    requires s'.dead == s.dead + if IsZero(m) then 1 else 0
    ensures OrderOk(cfg, s')
  {
    hide Lead, IsStop, IsZero, Zeros, Cut;
    assert m == s.log[Lead(s.log) - s.ahead];
    assert Consumed(s') == Consumed(s) + [m];
    ZerosConcat(Consumed(s), [m]);
    ZerosOne(m);
    CutExtended(Consumed(s), [m], cfg.par);
    assert s.log[Lead(s.log) - s.ahead..][1..] == s.log[Lead(s.log) - s'.ahead..];
  }

  lemma ReceiveKeepsOrder(cfg: Config, s: State)
    requires cfg.par >= 1 && CrewOk(cfg, s) && OrderOk(cfg, s) && s.idle > 0 && s.chan != []
    ensures OrderOk(cfg, Received(cfg, s))
  {
    hide Lead, IsStop, IsZero, Zeros, Cut, Received, Proper;
    ReceivedFrame(cfg, s);
    if s.ahead > 0 {
      ReceivedParts(cfg, s);
      assert s.chan[0] == s.log[Lead(s.log) - s.ahead];
      EarlyTaken(cfg, s, Received(cfg, s), s.chan[0]);
    }
  }

  lemma ReceiveKeepsLate(cfg: Config, s: State)
    requires OrderOk(cfg, s) && LateOk(s) && s.idle > 0 && s.chan != []
    ensures LateOk(Received(cfg, s))
  {
    hide Lead, Zeros, Cut, Received;
    ReceivedFrame(cfg, s);
    QueueCounts(s.chan, Nil);
    if s.ahead == 1 {
      assert s.log[Lead(s.log) - 1..][1..] == s.log[Lead(s.log)..];
    }
  }

  lemma ClosedKeepsOrder(cfg: Config, s: State)
    requires OrderOk(cfg, s) && LateOk(s) && s.idle > 0 && s.chan == [] && s.closed
    ensures OrderOk(cfg, Received(cfg, s)) && LateOk(Received(cfg, s))
  {
    hide Received, Lead, Zeros, Cut;
    ClosedReceived(cfg, s);
  }

  lemma SameOrder(cfg: Config, s: State, s': State)
    requires OrderOk(cfg, s) && LateOk(s)
    requires s'.chan == s.chan && s'.log == s.log && s'.ahead == s.ahead
    requires s'.passing == s.passing && s'.closed == s.closed && s'.dead == s.dead
    ensures OrderOk(cfg, s') && LateOk(s')
  {
    hide Lead, Zeros, Cut;
  }

  lemma PassKeepsOrder(cfg: Config, s: State)
    requires OrderOk(cfg, s) && LateOk(s) && s.passing > 0
    ensures OrderOk(cfg, NilPassed(s)) && LateOk(NilPassed(s))
  {
    hide Lead, Zeros, Cut;
    QueueCounts(s.chan, Nil);
  }

  lemma NextKeepsOrder(cfg: Config, s: State, step: Step)
    requires cfg.par >= 1 && CrewOk(cfg, s) && OrderOk(cfg, s) && LateOk(s)
    ensures OrderOk(cfg, Next(cfg, s, step)) && LateOk(Next(cfg, s, step))
  {
    hide Route, Sent, Received, NilPassed, OrderOk, LateOk, CrewOk;
    if Enabled(cfg, s, step) {
      match step
      case Send(m) =>
        SendKeepsOrder(cfg, s, m);
        SendKeepsLate(s, m);
      case Receive =>
        if s.chan != [] {
          ReceiveKeepsOrder(cfg, s);
          ReceiveKeepsLate(cfg, s);
        } else {
          ClosedKeepsOrder(cfg, s);
        }
      case PassNil => PassKeepsOrder(cfg, s);
      case Forward(r) => SameOrder(cfg, s, Forwarded(s, r));
      case Work(w) => SameOrder(cfg, s, Worked(s, w));
      case HubNil => SameOrder(cfg, s, NilSent(s));
    }
  }

  // ---------------------------------------------------------------------------
  // Every run
  // ---------------------------------------------------------------------------

  ghost predicate Inv(cfg: Config, s: State) {
    CrewOk(cfg, s) && WorkersOk(s) && Conserved(s) && OutcomesOk(s) && OrderOk(cfg, s) && LateOk(s)
  }

  lemma NextKeepsInv(cfg: Config, s: State, step: Step)
    requires cfg.par >= 1 && Inv(cfg, s)
    ensures Inv(cfg, Next(cfg, s, step))
  {
    hide CrewOk, WorkersOk, Conserved, OutcomesOk, OrderOk, LateOk, Next;
    NextKeepsWorkers(cfg, s, step);
    NextConserves(cfg, s, step);
    NextKeepsOutcomes(cfg, s, step);
    NextKeepsOrder(cfg, s, step);
  }

  lemma {:induction false} RunKeepsInv(cfg: Config, s: State, steps: seq<Step>)
    requires cfg.par >= 1 && Inv(cfg, s)
    ensures Inv(cfg, Run(cfg, s, steps))
  {
    if steps != [] {
      hide Inv, Next;
      RunKeepsInv(cfg, s, steps[..|steps| - 1]);
      NextKeepsInv(cfg, Run(cfg, s, steps[..|steps| - 1]), steps[|steps| - 1]);
    }
  }

  lemma NothingQueued()
    ensures |NoSubs()| == NUM_CACHE_DBS
    ensures forall w :: 0 <= w < NUM_CACHE_DBS ==> NoSubs()[w] == []
  {
  }

  lemma InitialWorkers(cfg: Config)
    ensures CrewOk(cfg, Init(cfg)) && WorkersOk(Init(cfg))
  {
    hide NoSubs;
    NothingQueued();
  }

  lemma InitialPlaces(cfg: Config)
    ensures Conserved(Init(cfg)) && OutcomesOk(Init(cfg))
  {
    hide Route, NoSubs;
    NothingQueued();
  }

  lemma InitialInv(cfg: Config)
    ensures Inv(cfg, Init(cfg))
  {
    hide Route, NoSubs, CrewOk, WorkersOk, Conserved, OutcomesOk;
    InitialWorkers(cfg);
    InitialPlaces(cfg);
  }

  /** In every run each request is answered at most as often as it was sent, only by the worker its
      prefix names, and only if it says where; what was sent is answered, ignored, dropped with a
      dispatcher, or still on its way. */
  lemma RequestsAreConserved(cfg: Config, steps: seq<Step>, r: Req)
    requires cfg.par >= 1
    ensures var s := Run(cfg, Init(cfg), steps);
      && SentCount(s, r) == multiset(s.chan)[Ask(r)] + s.holding[r] + InSub(s.subs, r)
                      + s.answered[(Route(r.hash), r)] + s.ignored[r] + s.dropped[r]
      && (forall w :: (w, r) in s.answered ==> w == Route(r.hash) && r.hasRet && Proper(r))
      && (Proper(r) ==> s.dropped[r] == 0) && (r.hasRet ==> s.ignored[r] == 0)
  {
    hide Run, Route, InSub, Proper, CrewOk, WorkersOk, OrderOk, LateOk, SentCount;
    InitialInv(cfg);
    RunKeepsInv(cfg, Init(cfg), steps);
  }

  /** Worker w is the one named by the prefix of the hash. */
  ghost predicate OwnsPrefix(w: nat, hash: string) {
    |hash| >= 3 && Names(RootDBs(3), w, hash[..3])
  }

  ghost predicate Names(roots: seq<string>, w: nat, prefix: string) {
    w < |roots| && roots[w] == prefix
  }

  /** c is the lowercase hex digit d or its capital. */
  predicate SameDigit(c: char, d: char) {
    IsHexDigit(d) && (c == d || ('A' <= c <= 'F' && c as int + 32 == d as int))
  }

  /** A hash whose first three characters are hex digits in either case goes to the worker that owns
      them in lower case; any other goes to the first worker. */
  lemma RouteNames(hash: string, prefix: string)
    requires |hash| >= 3 && |prefix| == 3
    ensures (forall i :: 0 <= i < 3 ==> SameDigit(hash[i], prefix[i])) ==> Names(RootDBs(3), Route(hash), prefix)
    ensures !IsHex(ToLower(hash[..3])) ==> Route(hash) == 0
  {
    hide RootDBs, Word, PadInt, ParseDigits, IsHex;
    if forall i :: 0 <= i < 3 ==> SameDigit(hash[i], prefix[i]) {
      LowerDigits(hash, prefix);
      RootDBsInOrder(3);
      ThreeDigits();
      WordUnique(prefix, 3);
    }
  }

  lemma LowerDigits(hash: string, prefix: string)
    requires |hash| >= 3 && |prefix| == 3
    requires forall i :: 0 <= i < 3 ==> SameDigit(hash[i], prefix[i])
    ensures ToLower(hash[..3]) == prefix && IsHex(prefix)
  {
    forall i | 0 <= i < 3
      ensures ToLower(hash[..3])[i] == prefix[i] && IsHexDigit(prefix[i])
    {
      assert SameDigit(hash[i], prefix[i]) && hash[..3][i] == hash[i];
    }
  }

  /** The worker a lowercase hex hash is routed to is the one whose name is its prefix. */
  lemma RouteOwnsPrefix(hash: string)
    requires IsHash(hash)
    ensures OwnsPrefix(Route(hash), hash)
  {
    hide RootDBs, Route;
    assert forall i :: 0 <= i < 3 ==> SameDigit(hash[i], hash[..3][i]);
    RouteNames(hash, hash[..3]);
  }

  /** What the dispatchers make of a request: a hash of 64 characters or more with an offset other than 0
      is for a worker, with offset 0 it kills the dispatcher, and a shorter one stops it like a nil. */
  lemma RequestKinds(r: Req)
    ensures |r.hash| >= 64 && r.offset != 0 <==> Proper(r)
    ensures |r.hash| >= 64 && r.offset == 0 <==> IsZero(Ask(r))
    ensures |r.hash| < 64 <==> IsStop(Ask(r))
    ensures IsStop(Nil) && SUB_CAP == 16
  {
  }
}
