/** How the dispatchers and workers come to rest: the end of a shutdown, what it answers, the jam that
    late requests can cause, and the one reply of each request while the system runs. */
module Shutdown {
  import opened Strconv
  import opened Types
  import opened HistoryFile
  import opened HexPrefixes
  import opened Dispatch

  /** All dispatchers and all workers have quit. */
  ghost predicate Terminal(cfg: Config, s: State) {
    s.dead == cfg.par && forall w :: 0 <= w < |s.subs| ==> w in s.quit
  }

  // ---------------------------------------------------------------------------
  // Shutdown ends
  // ---------------------------------------------------------------------------

  predicate Internal(step: Step) {
    !step.Send?
  }

  ghost predicate NoStep(cfg: Config, s: State) {
    forall step :: Internal(step) ==> !Enabled(cfg, s, step)
  }

  ghost predicate SubsEmpty(s: State) {
    forall w :: 0 <= w < |s.subs| ==> s.subs[w] == []
  }

  /** Dispatchers wait for requests on an empty channel. */
  ghost predicate Waiting(s: State) {
    s.idle > 0 && s.chan == [] && !s.closed && |s.holding| == 0 && s.passing == 0 && SubsEmpty(s)
  }

  /** Every dispatcher left holds a nil it cannot put back, because clients have filled the channel. */
  ghost predicate Jammed(cfg: Config, s: State) {
    s.idle == 0 && s.passing > 0 && |s.chan| == cfg.cap && |s.holding| == 0 && SubsEmpty(s)
  }

  function SumLen(subs: seq<seq<Option<Req>>>): nat {
    if subs == [] then 0 else |subs[0]| + SumLen(subs[1..])
  }

  lemma {:induction false} SumLenUpdate(subs: seq<seq<Option<Req>>>, w: nat, q: seq<Option<Req>>)
    requires w < |subs|
    ensures SumLen(subs[w := q]) + |subs[w]| == SumLen(subs) + |q|
  {
    if w == 0 {
      assert subs[w := q][1..] == subs[1..];
    } else {
      SumLenUpdate(subs[1..], w - 1, q);
      assert subs[w := q][1..] == subs[1..][w - 1 := q];
    }
  }

  /** A bound on the steps left once clients stop sending. */
  function Measure(s: State): int {
    3 * |s.chan| + 3 * s.idle + 5 * |s.holding| + 5 * s.passing + SumLen(s.subs) + 2 * (NUM_CACHE_DBS - s.nils)
  }

  lemma ReceiveDecreases(cfg: Config, s: State)
    requires s.idle > 0 && s.chan != []
    ensures Measure(Received(cfg, s)) < Measure(s)
  {
    hide Received, SumLen, IsZero, Proper;
    ReceivedFrame(cfg, s);
    ReceivedParts(cfg, s);
  }

  /** Every step but a client's send decreases the measure. */
  lemma StepDecreases(cfg: Config, s: State, step: Step)
    requires Internal(step) && Enabled(cfg, s, step)
    ensures Measure(Next(cfg, s, step)) < Measure(s)
  {
    hide Route, SumLen, Received, IsZero, Proper, IsStop;
    match step
    case Receive =>
      if s.chan != [] {
        ReceiveDecreases(cfg, s);
      } else {
        ClosedReceived(cfg, s);
      }
    case PassNil =>
    case Forward(r) =>
      SumLenUpdate(s.subs, Route(r.hash), s.subs[Route(r.hash)] + [Some(r)]);
    case Work(w) =>
      SumLenUpdate(s.subs, w, s.subs[w][1..]);
    case HubNil =>
      SumLenUpdate(s.subs, s.nils, s.subs[s.nils] + [None]);
  }

  /** No step is left exactly when everything has quit, when there is nothing to do, or when the
      circulating nil is jammed. */
  lemma StuckExactly(cfg: Config, s: State)
    requires Inv(cfg, s)
    ensures NoStep(cfg, s) <==> Terminal(cfg, s) || Waiting(s) || Jammed(cfg, s)
  {
    hide Route, Conserved, OutcomesOk, OrderOk, LateOk;
    hide CrewOk, WorkersOk, Terminal, Waiting, Jammed;
    if NoStep(cfg, s) {
      NoStepIsStuck(cfg, s);
    }
    if Terminal(cfg, s) || Waiting(s) || Jammed(cfg, s) {
      StuckHasNoStep(cfg, s);
    }
  }

  lemma StuckHasNoStep(cfg: Config, s: State)
    requires CrewOk(cfg, s) && WorkersOk(s)
    requires Terminal(cfg, s) || Waiting(s) || Jammed(cfg, s)
    ensures NoStep(cfg, s)
  {
    hide Route;
    forall step | Internal(step)
      ensures !Enabled(cfg, s, step)
    {
      match step
      case Receive =>
      case PassNil =>
      case Forward(r) => assert |s.holding| == 0;
      case Work(w) => if w < |s.subs| { assert SubOk(s.subs[w], w, w < s.nils, w in s.quit); }
      case HubNil => if s.nils < |s.subs| { assert SubOk(s.subs[s.nils], s.nils, false, s.nils in s.quit); }
    }
  }

  lemma ForwardPossible(cfg: Config, s: State) returns (r: Req)
    requires |s.holding| > 0 && |s.subs| == NUM_CACHE_DBS && SubsEmpty(s)
    ensures Enabled(cfg, s, Forward(r))
  {
    hide Route;
    r :| r in s.holding;
  }

  lemma NoStepIsStuck(cfg: Config, s: State)
    requires CrewOk(cfg, s) && WorkersOk(s) && NoStep(cfg, s)
    ensures Terminal(cfg, s) || Waiting(s) || Jammed(cfg, s)
  {
    hide Route;
    forall w: nat | w < |s.subs|
      ensures s.subs[w] == [] && (w < s.nils ==> w in s.quit)
    {
      assert !Enabled(cfg, s, Work(w));
      assert SubOk(s.subs[w], w, w < s.nils, w in s.quit);
    }
    if |s.holding| > 0 {
      var r := ForwardPossible(cfg, s);
    }
    assert !Enabled(cfg, s, Receive) && !Enabled(cfg, s, PassNil) && !Enabled(cfg, s, HubNil);
  }

  /** All steps are internal and each is possible when its turn comes. */
  predicate AllTaken(cfg: Config, s: State, steps: seq<Step>) {
    steps == [] ||
    (AllTaken(cfg, s, steps[..|steps| - 1])
     && Internal(steps[|steps| - 1])
     && Enabled(cfg, Run(cfg, s, steps[..|steps| - 1]), steps[|steps| - 1]))
  }

  /** Steps without clients keep the invariant, send nothing, and number at most the measure. */
  lemma {:induction false} RunsAreShort(cfg: Config, s: State, steps: seq<Step>)
    requires cfg.par >= 1 && Inv(cfg, s) && AllTaken(cfg, s, steps)
    ensures var s' := Run(cfg, s, steps);
      Inv(cfg, s') && |steps| + Measure(s') <= Measure(s) && s'.log == s.log
  {
    if steps != [] {
      hide Measure, Next, Enabled, CrewOk, WorkersOk, Conserved, OutcomesOk, OrderOk, LateOk;
      var before := steps[..|steps| - 1];
      RunsAreShort(cfg, s, before);
      StepDecreases(cfg, Run(cfg, s, before), steps[|steps| - 1]);
      StepSendsNothing(cfg, Run(cfg, s, before), steps[|steps| - 1]);
      NextKeepsInv(cfg, Run(cfg, s, before), steps[|steps| - 1]);
    }
  }

  lemma StepSendsNothing(cfg: Config, s: State, step: Step)
    requires Internal(step)
    ensures Next(cfg, s, step).log == s.log
  {
    hide Route, Received;
    if Enabled(cfg, s, step) && step.Receive? {
      if s.chan != [] {
        ReceivedFrame(cfg, s);
      } else {
        ClosedReceived(cfg, s);
      }
    }
  }

  lemma MeasureNatural(cfg: Config, s: State)
    requires CrewOk(cfg, s)
    ensures Measure(s) >= 0
  {
    hide SumLen;
  }

  /** Every run can be continued to its end. */
  lemma {:induction false} RunsEnd(cfg: Config, s: State, before: seq<Step>) returns (all: seq<Step>)
    requires cfg.par >= 1 && Inv(cfg, s) && AllTaken(cfg, s, before)
    ensures before <= all && AllTaken(cfg, s, all) && NoStep(cfg, Run(cfg, s, all))
    decreases Measure(Run(cfg, s, before))
  {
    hide Measure, Next, Enabled, WorkersOk, Conserved, OutcomesOk, OrderOk, LateOk;
    all := before;
    if !NoStep(cfg, Run(cfg, s, before)) {
      var step :| Internal(step) && Enabled(cfg, Run(cfg, s, before), step);
      var longer := before + [step];
      assert longer[..|before|] == before;
      RunsAreShort(cfg, s, longer);
      MeasureNatural(cfg, Run(cfg, s, longer));
      StepDecreases(cfg, Run(cfg, s, before), step);
      all := RunsEnd(cfg, s, longer);
    }
  }

  // ---------------------------------------------------------------------------
  // How a run without clients ends
  // ---------------------------------------------------------------------------

  /** A stop is in the channel or in a dispatcher's hands, or has closed the channel. */
  ghost predicate StopUnderWay(s: State) {
    s.passing > 0 || s.closed || exists k :: 0 <= k < |s.chan| && IsStop(s.chan[k])
  }

  /** The messages taken for good while k dispatchers receive: a stop costs one of them and leaves a nil
      behind, a request with offset 0 costs one too, and other requests cost none. */
  function NonStops(q: seq<Msg>, k: int): (n: nat)
    ensures n <= |q|
  {
    if q == [] || k <= 0 then 0
    else if IsStop(q[0]) then NonStops(q[1..], k - 1)
    else 1 + NonStops(q[1..], if IsZero(q[0]) then k - 1 else k)
  }

  /** The messages and nils that remain when all dispatchers who can still receive have done so. */
  function Crowd(s: State): int {
    |s.chan| + s.passing - NonStops(s.chan, s.idle + |s.holding|)
  }

  /** The dispatchers left by the requests with offset 0 in the channel. */
  function Survivors(s: State): int {
    s.idle + |s.holding| - Zeros(s.chan)
  }

  /** What remains does not fit into the channel. A single dispatcher closes the channel instead of
      putting a nil back. */
  predicate WillJam(cfg: Config, s: State) {
    cfg.par >= 2 && Crowd(s) > cfg.cap
  }

  ghost predicate WillRest(s: State) {
    !StopUnderWay(s) && Survivors(s) > 0
  }

  lemma {:induction false} NonStopsNil(q: seq<Msg>, k: int)
    ensures NonStops(q + [Nil], k) == NonStops(q, k)
  {
    hide IsZero;
    if q == [] {
      assert (q + [Nil])[1..] == [];
    } else if k > 0 {
      TailOfConcat(q, [Nil]);
      NonStopsNil(q[1..], if IsStop(q[0]) || IsZero(q[0]) then k - 1 else k);
    }
  }

  lemma ReceiveKeepsCrowd(cfg: Config, s: State)
    requires cfg.par >= 2 && s.idle > 0 && s.chan != []
    ensures Crowd(Received(cfg, s)) == Crowd(s)
  {
    hide Received, NonStops, Proper;
    ReceivedFrame(cfg, s);
    ReceivedParts(cfg, s);
    NonStopsStep(s.chan, s.idle + |s.holding|);
  }

  lemma NonStopsStep(q: seq<Msg>, k: int)
    requires q != [] && k > 0
    ensures NonStops(q, k) == if IsStop(q[0]) then NonStops(q[1..], k - 1)
                              else 1 + NonStops(q[1..], if IsZero(q[0]) then k - 1 else k)
  {
    hide IsStop, IsZero;
  }

  /** No step without clients changes what will remain. */
  lemma StepKeepsCrowd(cfg: Config, s: State, step: Step)
    requires CrewOk(cfg, s) && cfg.par >= 2 && Internal(step) && Enabled(cfg, s, step)
    ensures Crowd(Next(cfg, s, step)) == Crowd(s)
  {
    hide Route, Received, NonStops;
    match step
    case Receive => ReceiveKeepsCrowd(cfg, s);
    case PassNil => NonStopsNil(s.chan, s.idle + |s.holding|);
    case Forward(r) =>
    case Work(w) =>
    case HubNil =>
  }

  lemma ReceiveKeepsStop(cfg: Config, s: State)
    requires CrewOk(cfg, s) && s.idle > 0 && s.chan != []
    ensures StopUnderWay(Received(cfg, s)) <==> StopUnderWay(s)
    ensures !StopUnderWay(s) ==> Survivors(Received(cfg, s)) == Survivors(s)
  {
    hide Received, Proper, IsZero;
    ReceivedFrame(cfg, s);
    ReceivedParts(cfg, s);
    assert !StopUnderWay(s) ==> !IsStop(s.chan[0]);
    assert forall k :: 1 <= k < |s.chan| ==> s.chan[1..][k - 1] == s.chan[k];
  }

  /** Without clients a stop comes from nowhere and gets nowhere, and without one only requests with
      offset 0 cost dispatchers. */
  lemma StepKeepsStop(cfg: Config, s: State, step: Step)
    requires CrewOk(cfg, s) && Internal(step) && Enabled(cfg, s, step)
    ensures StopUnderWay(Next(cfg, s, step)) <==> StopUnderWay(s)
    ensures !StopUnderWay(s) ==> Survivors(Next(cfg, s, step)) == Survivors(s)
  {
    hide Route, Received, Zeros;
    match step
    case Receive => ReceiveKeepsStop(cfg, s);
    case PassNil => assert NilPassed(s).chan[|s.chan|] == Nil;
    case Forward(r) =>
    case Work(w) =>
    case HubNil =>
  }

  lemma {:induction false} EndIsDecided(cfg: Config, s: State, steps: seq<Step>)
    requires cfg.par >= 1 && Inv(cfg, s) && AllTaken(cfg, s, steps)
    ensures var s' := Run(cfg, s, steps);
      (WillJam(cfg, s') <==> WillJam(cfg, s)) && (WillRest(s') <==> WillRest(s))
  {
    if steps != [] {
      hide StopUnderWay, Crowd, Survivors, Next, Enabled, CrewOk, WorkersOk, Conserved, OutcomesOk, OrderOk, LateOk;
      var before, step := steps[..|steps| - 1], steps[|steps| - 1];
      EndIsDecided(cfg, s, before);
      RunsAreShort(cfg, s, before);
      StepKeepsStop(cfg, Run(cfg, s, before), step);
      if cfg.par >= 2 {
        StepKeepsCrowd(cfg, Run(cfg, s, before), step);
      }
    }
  }

  lemma EndMeaning(cfg: Config, s: State)
    requires cfg.par >= 1 && CrewOk(cfg, s) && (Terminal(cfg, s) || Waiting(s) || Jammed(cfg, s))
    ensures Jammed(cfg, s) <==> WillJam(cfg, s)
    ensures Waiting(s) <==> WillRest(s)
    ensures Terminal(cfg, s) ==> !Jammed(cfg, s) && !Waiting(s)
    ensures Jammed(cfg, s) ==> !Waiting(s) && s.nils == 0 && s.dead < cfg.par
  {
    hide SubsEmpty, IsStop;
  }

  /** When clients stop in any reachable state, every run from there ends within the measure, and how it
      ends is decided by that state, whatever the order of steps: jammed, its workers never told to quit,
      exactly if more remains than the channel holds; at rest exactly if no stop is under way and the
      requests with offset 0 leave a dispatcher; and with all having quit exactly otherwise. */
  lemma ShutdownOutcome(cfg: Config, before: seq<Step>, after: seq<Step>)
    requires cfg.par >= 1 && AllTaken(cfg, Run(cfg, Init(cfg), before), after)
    ensures var s := Run(cfg, Init(cfg), before); var s' := Run(cfg, s, after);
      && |after| <= Measure(s)
      && (NoStep(cfg, s') ==>
            && (Jammed(cfg, s') <==> WillJam(cfg, s))
            && (Waiting(s') <==> WillRest(s))
            && (Terminal(cfg, s') <==> !WillJam(cfg, s) && !WillRest(s))
            && (Jammed(cfg, s') ==> s'.nils == 0 && s'.dead < cfg.par))
  {
    var s := Run(cfg, Init(cfg), before);
    hide Run, Measure, Enabled, Conserved, OutcomesOk, OrderOk, LateOk, AllTaken, NoStep, WorkersOk, CrewOk,
      WillJam, WillRest, Jammed, Waiting, Terminal;
    InitialInv(cfg);
    RunKeepsInv(cfg, Init(cfg), before);
    RunsAreShort(cfg, s, after);
    var s' := Run(cfg, s, after);
    MeasureNatural(cfg, s');
    if NoStep(cfg, s') {
      EndIsDecided(cfg, s, after);
      StuckExactly(cfg, s');
      EndMeaning(cfg, s');
    }
  }

  /** With a stop under way and room in the channel for the nils in circulation every shutdown ends well. */
  lemma RoomSuffices(cfg: Config, s: State)
    requires StopUnderWay(s) && |s.chan| + s.passing <= cfg.cap
    ensures !WillJam(cfg, s) && !WillRest(s)
  {
  }

  // ---------------------------------------------------------------------------
  // The jam
  // ---------------------------------------------------------------------------

  lemma RunSnoc(cfg: Config, s: State, steps: seq<Step>, step: Step)
    ensures Run(cfg, s, steps + [step]) == Next(cfg, Run(cfg, s, steps), step)
  {
    hide Next;
    assert (steps + [step])[..|steps|] == steps;
  }

  /** A nil goes round n dispatchers and stops each. */
  function NilRounds(n: nat): seq<Step> {
    if n == 0 then [Send(Nil)] else NilRounds(n - 1) + [Receive] + [PassNil]
  }

  lemma SendNext(cfg: Config, t: State, m: Msg)
    requires |t.chan| < cfg.cap && !t.closed
    ensures Next(cfg, t, Send(m)) == Sent(t, m)
    ensures var s := Sent(t, m);
      && s.chan == t.chan + [m] && s.log == t.log + [m] && s.closed == t.closed && s.holding == t.holding
      && s.idle == t.idle && s.passing == t.passing && s.dead == t.dead && s.subs == t.subs && s.quit == t.quit
  {
    hide Lead;
  }

  lemma NilRound(cfg: Config, t: State)
    requires t.idle > 0 && t.chan == [Nil] && t.passing == 0 && t.ahead == 0 && cfg.par >= 2 && cfg.cap >= 1
    ensures Next(cfg, t, Receive) == t.(chan := [], idle := t.idle - 1, passing := 1)
    ensures Next(cfg, Next(cfg, t, Receive), PassNil) == t.(idle := t.idle - 1, dead := t.dead + 1)
  {
    assert [Nil][1..] == [];
    assert [] + [Nil] == [Nil];
  }

  lemma FirstNil(cfg: Config)
    requires cfg.cap >= 1
    ensures Run(cfg, Init(cfg), [Send(Nil)]) == Init(cfg).(chan := [Nil], log := [Nil])
  {
    hide NoSubs;
    var none: seq<Step> := [];
    RunSnoc(cfg, Init(cfg), none, Send(Nil));
    assert none + [Send(Nil)] == [Send(Nil)];
  }

  lemma {:induction false} AfterNilRounds(cfg: Config, n: nat)
    requires n < cfg.par && cfg.par >= 2 && cfg.cap >= 1
    ensures Run(cfg, Init(cfg), NilRounds(n)) == Init(cfg).(chan := [Nil], log := [Nil], idle := cfg.par - n, dead := n)
  {
    hide NoSubs;
    if n == 0 {
      FirstNil(cfg);
    } else {
      hide Next, Run;
      AfterNilRounds(cfg, n - 1);
      NilRound(cfg, Run(cfg, Init(cfg), NilRounds(n - 1)));
      RunSnoc(cfg, Init(cfg), NilRounds(n - 1), Receive);
      RunSnoc(cfg, Init(cfg), NilRounds(n - 1) + [Receive], PassNil);
    }
  }

  /** The last dispatcher takes the nil, and clients fill the channel before it can put it back. */
  function JamRun(par: nat, late: nat, r: Req): seq<Step>
    requires par >= 1
  {
    if late == 0 then NilRounds(par - 1) + [Receive] else JamRun(par, late - 1, r) + [Send(Ask(r))]
  }

  lemma {:induction false} AfterJamRun(cfg: Config, late: nat, r: Req)
    requires cfg.par >= 2 && late <= cfg.cap && cfg.cap >= 1
    ensures var s := Run(cfg, Init(cfg), JamRun(cfg.par, late, r));
      && s.idle == 0 && s.passing == 1 && s.holding == multiset{} && !s.closed
      && |s.chan| == late && s.subs == NoSubs() && s.quit == {}
  {
    hide NoSubs, Lead;
    if late == 0 {
      hide Next, Run;
      AfterNilRounds(cfg, cfg.par - 1);
      NilRound(cfg, Run(cfg, Init(cfg), NilRounds(cfg.par - 1)));
      RunSnoc(cfg, Init(cfg), NilRounds(cfg.par - 1), Receive);
    } else {
      hide Next, Run;
      AfterJamRun(cfg, late - 1, r);
      SendNext(cfg, Run(cfg, Init(cfg), JamRun(cfg.par, late - 1, r)), Ask(r));
      RunSnoc(cfg, Init(cfg), JamRun(cfg.par, late - 1, r), Send(Ask(r)));
    }
  }

  /** The jam is real: with any two or more dispatchers and any room in the channel, one nil and as
      many late requests as the channel holds end in it. One late request does when the room is one. */
  lemma JamReachable(cfg: Config, r: Req)
    requires cfg.par >= 2 && cfg.cap >= 1
    ensures Jammed(cfg, Run(cfg, Init(cfg), JamRun(cfg.par, cfg.cap, r)))
    ensures NoStep(cfg, Run(cfg, Init(cfg), JamRun(cfg.par, cfg.cap, r)))
  {
    hide Run, JamRun, Conserved, OutcomesOk, OrderOk, LateOk, WorkersOk, CrewOk, NoStep;
    AfterJamRun(cfg, cfg.cap, r);
    InitialInv(cfg);
    RunKeepsInv(cfg, Init(cfg), JamRun(cfg.par, cfg.cap, r));
    StuckExactly(cfg, Run(cfg, Init(cfg), JamRun(cfg.par, cfg.cap, r)));
  }

  // ---------------------------------------------------------------------------
  // One reply each
  // ---------------------------------------------------------------------------

  lemma AnsweredAtRest(cfg: Config, s: State, r: Req)
    requires Inv(cfg, s) && Waiting(s) && Proper(r) && r.hasRet
    ensures s.answered[(Route(r.hash), r)] == SentCount(s, r)
  {
    hide Route, Proper, CrewOk, OrderOk, LateOk, WorkersOk;
    NothingWaiting(s, r);
    assert SentCount(s, r) == Places(s, r);
  }

  lemma NothingWaiting(s: State, r: Req)
    requires SubsEmpty(s)
    ensures InSub(s.subs, r) == 0
  {
    hide Route;
  }

  /** Whenever the system is at rest every proper request with a return channel has been answered
      exactly as often as it was sent, by the worker named by its prefix if its hash is lowercase hex. */
  lemma AnsweredWhenWaiting(cfg: Config, steps: seq<Step>, r: Req)
    requires cfg.par >= 1 && Waiting(Run(cfg, Init(cfg), steps)) && Proper(r) && r.hasRet
    ensures var s := Run(cfg, Init(cfg), steps); s.answered[(Route(r.hash), r)] == SentCount(s, r)
    ensures IsHash(r.hash) ==> OwnsPrefix(Route(r.hash), r.hash)
  {
    hide Run, Waiting, Route, Proper, OwnsPrefix, IsHex;
    InitialInv(cfg);
    RunKeepsInv(cfg, Init(cfg), steps);
    AnsweredAtRest(cfg, Run(cfg, Init(cfg), steps), r);
    if IsHash(r.hash) {
      RouteOwnsPrefix(r.hash);
    }
  }

  /** The running system comes to rest: when no stop and fewer requests with offset 0 than dispatchers
      were sent, every run without further requests ends within the measure, and when it can go no
      further every proper request with a return channel has had exactly one reply. */
  lemma RunningSystemAnswers(cfg: Config, before: seq<Step>, after: seq<Step>, r: Req)
    requires cfg.par >= 1 && Proper(r) && r.hasRet
    requires var s := Run(cfg, Init(cfg), before);
      && Lead(s.log) == |s.log| && Zeros(s.log) < cfg.par
      && AllTaken(cfg, s, after)
    ensures var s := Run(cfg, Init(cfg), before); var s' := Run(cfg, s, after);
      && |after| <= Measure(s)
      && (NoStep(cfg, s') ==> Waiting(s') && s'.answered[(Route(r.hash), r)] == SentCount(s, r))
  {
    var s := Run(cfg, Init(cfg), before);
    hide Run, Measure, Enabled, Conserved, OutcomesOk, AllTaken, NoStep, WorkersOk, SubsEmpty, Route, Proper, Zeros, Lead, Cut;
    InitialInv(cfg);
    RunKeepsInv(cfg, Init(cfg), before);
    RunsAreShort(cfg, s, after);
    var s' := Run(cfg, s, after);
    MeasureNatural(cfg, s');
    ZerosConcat(Consumed(s'), s'.log[Lead(s'.log) - s'.ahead..]);
    assert s'.log == Consumed(s') + s'.log[Lead(s'.log) - s'.ahead..];
    if NoStep(cfg, s') {
      StuckExactly(cfg, s');
      AnsweredAtRest(cfg, s', r);
    }
  }

  // ---------------------------------------------------------------------------
  // What shutdown answers
  // ---------------------------------------------------------------------------

  lemma TerminalPlaces(cfg: Config, s: State, r: Req)
    requires Inv(cfg, s) && Terminal(cfg, s) && Proper(r) && r.hasRet
    ensures SentCount(s, r) == multiset(s.chan)[Ask(r)] + s.answered[(Route(r.hash), r)]
  {
    hide Route, Proper, OrderOk, LateOk, SubOk;
    forall w | 0 <= w < |s.subs|
      ensures s.subs[w] == []
    {
      QuitIsEmpty(s, w);
    }
    NothingWaiting(s, r);
    assert SentCount(s, r) == Places(s, r);
    assert |s.holding| == 0;
  }

  lemma QuitIsEmpty(s: State, w: nat)
    requires WorkersOk(s) && w < |s.subs| && w in s.quit
    ensures s.subs[w] == []
  {
    hide Route;
    assert SubOk(s.subs[w], w, w < s.nils, w in s.quit);
  }

  /** When everything has quit, the early messages taken are those up to the par-th request with
      offset 0. */
  lemma TakenUpToCut(cfg: Config, s: State)
    requires cfg.par >= 1 && OrderOk(cfg, s) && s.dead == cfg.par
    ensures Cut(Early(s), cfg.par) == |Early(s)| - s.ahead
    ensures s.ahead > 0 ==> s.chan == Early(s)[|Early(s)| - s.ahead..] + s.log[Lead(s.log)..]
  {
    hide Lead, Zeros, Cut;
    if s.ahead > 0 {
      var rest := Early(s)[|Early(s)| - s.ahead..];
      assert Early(s) == Consumed(s) + rest;
      CutExtended(Consumed(s), rest, cfg.par);
      assert s.log[Lead(s.log) - s.ahead..] == rest + s.log[Lead(s.log)..];
    } else {
      assert Early(s) == Consumed(s);
    }
  }

  lemma SplitCount(q: seq<Msg>, k: nat, r: Req)
    requires k <= |q|
    ensures multiset(q)[Ask(r)] == multiset(q[..k])[Ask(r)] + multiset(q[k..])[Ask(r)]
  {
    assert q == q[..k] + q[k..];
  }

  /** Short of all having quit, everything sent before the first stop has been taken when no step is
      left, and at most what was sent later is still in the channel. */
  lemma NothingEarlyLeft(cfg: Config, s: State, r: Req)
    requires Inv(cfg, s) && (Waiting(s) || Jammed(cfg, s)) && Proper(r) && r.hasRet
    ensures Cut(Early(s), cfg.par) == |Early(s)|
    ensures s.answered[(Route(r.hash), r)] >= multiset(Early(s))[Ask(r)]
    ensures s.answered[(Route(r.hash), r)] <= SentCount(s, r)
  {
    hide Route, Proper, WorkersOk, CrewOk, Cut, Zeros, Lead;
    NothingWaiting(s, r);
    assert SentCount(s, r) == Places(s, r);
    SplitCount(s.log, Lead(s.log), r);
    assert s.ahead == 0;
    assert Consumed(s) == Early(s);
  }

  /** What a proper request with a return channel can expect when no step is left: it is answered as
      often as it was sent before the first stop if and only if none of those messages stands behind the
      par-th request with offset 0; if there are messages behind that, only those before it are answered. */
  lemma ShutdownDrains(cfg: Config, steps: seq<Step>, r: Req)
    requires cfg.par >= 1 && NoStep(cfg, Run(cfg, Init(cfg), steps)) && Proper(r) && r.hasRet
    ensures var s := Run(cfg, Init(cfg), steps);
      var early, answered := Early(s), s.answered[(Route(r.hash), r)];
      var cut := Cut(early, cfg.par);
      && (multiset(early)[Ask(r)] <= answered <==> Ask(r) !in early[cut..])
      && (cut < |early| ==> answered == multiset(early[..cut])[Ask(r)])
      && answered <= SentCount(s, r)
  {
    hide Run, Route, NoStep, Terminal, Waiting, Jammed, Lead, Cut, CrewOk, WorkersOk, Conserved, OutcomesOk, OrderOk, LateOk;
    InitialInv(cfg);
    RunKeepsInv(cfg, Init(cfg), steps);
    var s := Run(cfg, Init(cfg), steps);
    StuckExactly(cfg, s);
    if Terminal(cfg, s) {
      DrainedState(cfg, s, r);
    } else {
      NothingEarlyLeft(cfg, s, r);
      assert Early(s)[|Early(s)|..] == [];
    }
  }

  lemma DrainedState(cfg: Config, s: State, r: Req)
    requires cfg.par >= 1 && Inv(cfg, s) && Terminal(cfg, s) && Proper(r) && r.hasRet
    ensures var early, answered := Early(s), s.answered[(Route(r.hash), r)];
      var cut := Cut(early, cfg.par);
      && (multiset(early)[Ask(r)] <= answered <==> Ask(r) !in early[cut..])
      && (cut < |early| ==> answered == multiset(early[..cut])[Ask(r)])
      && answered <= SentCount(s, r)
  {
    hide Route, Proper, WorkersOk, CrewOk, Conserved, OutcomesOk, Cut, Zeros, Lead;
    var early := Early(s);
    var cut := Cut(early, cfg.par);
    TerminalPlaces(cfg, s, r);
    TakenUpToCut(cfg, s);
    SplitCount(s.log, Lead(s.log), r);
    SplitCount(early, cut, r);
    if s.ahead > 0 {
      SplitCount(s.chan, |early[cut..]|, r);
      assert s.chan[..|early[cut..]|] == early[cut..];
      assert s.chan[|early[cut..]|..] == s.log[Lead(s.log)..];
    } else {
      assert early[cut..] == [];
    }
  }

  lemma InTail(q: seq<Msg>, cut: nat)
    requires cut <= |q|
    ensures forall m :: m in q[cut..] <==> exists k :: cut <= k < |q| && q[k] == m
  {
    assert forall k :: cut <= k < |q| ==> q[k] == q[cut..][k - cut];
  }

  /** When no step is left, all proper requests with a return channel sent before the first stop have
      been answered if and only if none of them stands behind the par-th request with offset 0. */
  lemma AllDrained(cfg: Config, steps: seq<Step>)
    requires cfg.par >= 1 && NoStep(cfg, Run(cfg, Init(cfg), steps))
    ensures var s := Run(cfg, Init(cfg), steps); var early := Early(s);
      (forall r :: Proper(r) && r.hasRet ==> multiset(early)[Ask(r)] <= s.answered[(Route(r.hash), r)])
      <==> (forall k :: Cut(early, cfg.par) <= k < |early| && early[k].Ask? ==> !(Proper(early[k].req) && early[k].req.hasRet))
  {
    hide Run, Route, Proper, Cut, Lead, NoStep;
    var s := Run(cfg, Init(cfg), steps);
    var early := Early(s);
    var cut := Cut(early, cfg.par);
    forall r | Proper(r) && r.hasRet
      ensures multiset(early)[Ask(r)] <= s.answered[(Route(r.hash), r)] <==> Ask(r) !in early[cut..]
    {
      ShutdownDrains(cfg, steps, r);
    }
    InTail(early, cut);
  }

  // ---------------------------------------------------------------------------
  // Requests with offset 0 strand what is behind them
  // ---------------------------------------------------------------------------

  /** With every dispatcher gone, what is in the channel stays there. */
  lemma {:induction false} NobodyReceives(cfg: Config, s: State, steps: seq<Step>)
    requires s.idle == 0 && s.passing == 0 && |s.holding| == 0
    ensures var s' := Run(cfg, s, steps);
      s'.idle == 0 && s'.passing == 0 && |s'.holding| == 0 && s.chan <= s'.chan
  {
    if steps != [] {
      hide Route, Lead;
      NobodyReceives(cfg, s, steps[..|steps| - 1]);
      var t := Run(cfg, s, steps[..|steps| - 1]);
      assert forall r :: r !in t.holding;
    }
  }

  /** n requests with offset 0, each taken by a dispatcher. */
  function ZeroRounds(zero: Req, n: nat): seq<Step> {
    if n == 0 then [] else ZeroRounds(zero, n - 1) + [Send(Ask(zero))] + [Receive]
  }

  lemma ZeroRound(cfg: Config, t: State, zero: Req)
    requires t.idle > 0 && t.chan == [] && !t.closed && cfg.cap >= 1
    requires |zero.hash| >= HASH_LEN && zero.offset == 0
    ensures var s := Next(cfg, Next(cfg, t, Send(Ask(zero))), Receive);
      && s.idle == t.idle - 1 && s.passing == t.passing && s.holding == t.holding && s.chan == [] && !s.closed
      && s.log == t.log + [Ask(zero)]
  {
    hide Sent, Lead;
    SendNext(cfg, t, Ask(zero));
    assert ([] + [Ask(zero)])[1..] == [];
  }

  lemma {:induction false} AfterZeroRounds(cfg: Config, zero: Req, n: nat)
    requires n <= cfg.par && cfg.cap >= 1
    requires |zero.hash| >= HASH_LEN && zero.offset == 0
    ensures var s := Run(cfg, Init(cfg), ZeroRounds(zero, n));
      && s.idle == cfg.par - n && s.passing == 0 && s.holding == multiset{} && s.chan == [] && !s.closed
      && Lead(s.log) == |s.log|
  {
    hide NoSubs, Lead, Next, Run;
    if n == 0 {
      NoRound(cfg);
    } else {
      AfterZeroRounds(cfg, zero, n - 1);
      var t := Run(cfg, Init(cfg), ZeroRounds(zero, n - 1));
      ZeroRound(cfg, t, zero);
      RunSnoc(cfg, Init(cfg), ZeroRounds(zero, n - 1), Send(Ask(zero)));
      RunSnoc(cfg, Init(cfg), ZeroRounds(zero, n - 1) + [Send(Ask(zero))], Receive);
      LeadSnoc(t.log, Ask(zero));
    }
  }

  lemma NoRound(cfg: Config)
    ensures Run(cfg, Init(cfg), []) == Init(cfg) && Lead([]) == 0
  {
    hide NoSubs;
  }

  /** For any number of dispatchers and any room in the channel: as many requests with offset 0 as there
      are dispatchers kill them all without a word, and a proper request behind them, sent before any
      stop, is never answered, whatever happens afterwards. */
  lemma ZeroOffsetsStrand(cfg: Config, zero: Req, r: Req, after: seq<Step>)
    requires cfg.par >= 1 && cfg.cap >= 1
    requires |zero.hash| >= HASH_LEN && zero.offset == 0 && Proper(r)
    ensures var s := Run(cfg, Init(cfg), ZeroRounds(zero, cfg.par) + [Send(Ask(r))]);
      var s' := Run(cfg, s, after);
      && Lead(s.log) == |s.log| && Ask(r) in s.log
      && Ask(r) in s'.chan && s'.answered[(Route(r.hash), r)] < SentCount(s', r)
  {
    hide Run, Route, ZeroRounds, Lead, InSub, CrewOk, WorkersOk, OrderOk, LateOk, OutcomesOk, NoSubs;
    var rounds := ZeroRounds(zero, cfg.par);
    AfterZeroRounds(cfg, zero, cfg.par);
    var t := Run(cfg, Init(cfg), rounds);
    RunSnoc(cfg, Init(cfg), rounds, Send(Ask(r)));
    LeadSnoc(t.log, Ask(r));
    var s := Run(cfg, Init(cfg), rounds + [Send(Ask(r))]);
    assert s.chan == [Ask(r)] && s.log == t.log + [Ask(r)];
    InitialInv(cfg);
    RunKeepsInv(cfg, Init(cfg), rounds + [Send(Ask(r))]);
    RunKeepsInv(cfg, s, after);
    NobodyReceives(cfg, s, after);
    var s' := Run(cfg, s, after);
    assert s'.chan[0] == Ask(r);
    assert SentCount(s', r) == Places(s', r);
  }
}
