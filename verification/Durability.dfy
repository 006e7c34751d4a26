/** Which lines a step of the history keeps: nothing accepted is lost but by a crash, a flush puts all of
    it into the file, and what is in the file is reported for ever and reads back as it was written. */
module Durability {
  import opened Strconv
  import opened Types
  import opened OffsetText
  import opened HistoryFile
  import opened IndexedHistory
  import opened SearchExactness

  // ---------------------------------------------------------------------------
  // One step
  // ---------------------------------------------------------------------------

  /** A failed insert and a clean stop empty the buffer into the file. */
  predicate Flushes(s: State, step: Step) {
    (step.IndexFailed? && CanIndex(s, step.o)) || (step == Restart(false) && s.pending.None?)
  }

  /** Appending accepts the pending line behind all others, a crash loses what the file does not hold,
      and every other step keeps exactly the accepted lines; no step takes a line out of the file, and
      one that flushes leaves none outside it. */
  lemma StepKeepsAccepted(cfg: Config, s: State, step: Step)
    requires LogOk(cfg, s)
    ensures var view, view' := s.view, Next(cfg, s, step).view;
      && view'.Accepted() == (if step.AppendLine? && s.pending.Some? then view.Accepted() + [s.pending.value]
                              else if step == Restart(true) then view.onDisk
                              else view.Accepted())
      && view.onDisk <= view'.onDisk
      && (Flushes(s, step) ==> view' == LogView(view.Accepted(), []))
  {
    hide FormatLine, LinesText, LineWritten, LineAccepted, Inserted, OffsetsOf, AllStorable, CanIndex;
    match step
    case IndexLine(o, now) =>
    case IndexFailed(o, stored) =>
    case AppendLine =>
      if s.pending.Some? {
        WriteKeepsLines(cfg.header, s.view, s.file, cfg.bufmax, s.pending.value);
      }
    case BeginSearch(id, hash, dbOk) =>
      SearchKeepsLog(cfg, s, step);
    case ReadOffset(id) =>
      SearchKeepsLog(cfg, s, step);
    case Restart(crash) =>
  }

  predicate Indexes(s: State, step: Step) {
    (step.IndexLine? || (step.IndexFailed? && step.stored)) && CanIndex(s, step.o)
  }

  /** The index only grows, by the offset of the next line under the key of its hash, whether or not the
      line is then written. */
  lemma StepIndexes(cfg: Config, s: State, step: Step, hash: string, offset: int)
    requires Inv(cfg, s)
    ensures HasOffset(Next(cfg, s, step).rows, hash, offset)
       <==> HasOffset(s.rows, hash, offset)
            || (Indexes(s, step) && |hash| >= KEY_LEN && Key(hash) == Key(step.o.hash) && offset == s.file.offset)
  {
    hide FormatLine, LinesText, LineWritten, LineAccepted, Inserted, OffsetsOf, HasOffset, Key, IsHash, SearchesOk, Covers;
    OffsetIsEnd(cfg, s);
    if step.BeginSearch? || step.ReadOffset? {
      SearchKeepsLog(cfg, s, step);
    } else if (step.IndexLine? || step.IndexFailed?) && CanIndex(s, step.o) {
      InsertedHas(s.rows, step.o.hash, s.file.offset);
    }
  }

  predicate Begins(s: State, step: Step) {
    step.BeginSearch? && step.id !in s.searches && IsHash(step.hash)
  }

  predicate Restarts(s: State, step: Step) {
    step.Restart? && (step.crash || s.pending.None?)
  }

  /** Every search gets at most one reply, and only a restart ends one without: a step that begins a
      search opens or answers it, one that reads for it keeps it open or answers it, a restart drops all
      open searches, and replies given stay given. A search the database fails is told to retry. */
  lemma StepAnswers(cfg: Config, s: State, step: Step)
    ensures var s' := Next(cfg, s, step);
      && s.replies <= s'.replies
      && (Restarts(s, step) ==> s'.searches == map[] && s'.replies == s.replies)
      && (Begins(s, step) ==> |s'.replies| + |s'.searches| == |s.replies| + |s.searches| + 1)
      && (Begins(s, step) && !step.dbOk ==>
            s'.replies == s.replies + [Reply(step.hash, CaseRetry, false, s.view.onDisk, s.view.onDisk)])
      && (!Restarts(s, step) && !Begins(s, step) ==> |s'.replies| + |s'.searches| == |s.replies| + |s.searches|)
  {
    hide FormatLine, LinesText, LineWritten, LineAccepted, Inserted, OffsetsOf, IsHash, CanIndex, SearchRead, SearchBegun;
    if Begins(s, step) {
      BeginAnswers(s, step.id, step.hash, step.dbOk);
    } else if step.ReadOffset? && step.id in s.searches && s.searches[step.id].todo != [] {
      ReadAnswers(s, step.id);
    }
  }

  lemma BeginAnswers(s: State, id: nat, hash: string, dbOk: bool)
    requires id !in s.searches && IsHash(hash)
    ensures var s' := SearchBegun(s, id, hash, dbOk);
      && s.replies <= s'.replies && |s'.replies| + |s'.searches| == |s.replies| + |s.searches| + 1
      && (!dbOk ==> s'.replies == s.replies + [Reply(hash, CaseRetry, false, s.view.onDisk, s.view.onDisk)])
  {
    hide OffsetsOf, IsHex;
    var offsets := OffsetsOf(s.rows, Key(hash));
    var q := Search(hash, |offsets| == 1, offsets, s.view.onDisk);
    assert s.searches[id := q].Keys == s.searches.Keys + {id};
  }

  lemma ReadAnswers(s: State, id: nat)
    requires id in s.searches && s.searches[id].todo != []
    ensures var s' := SearchRead(s, id);
      s.replies <= s'.replies && |s'.replies| + |s'.searches| == |s.replies| + |s.searches|
  {
    hide FseekHistoryMessageHash;
    var q := s.searches[id];
    assert (s.searches - {id}).Keys == s.searches.Keys - {id};
    assert s.searches[id := q.(todo := q.todo[1..])].Keys == s.searches.Keys;
  }

  // ---------------------------------------------------------------------------
  // Whole runs
  // ---------------------------------------------------------------------------

  predicate NoCrash(steps: seq<Step>) {
    forall i :: 0 <= i < |steps| ==> steps[i] != Restart(true)
  }

  lemma ExecLonger(cfg: Config, before: seq<Step>, after: seq<Step>)
    requires after != []
    ensures Exec(cfg, before + after)
         == Next(cfg, Exec(cfg, before + after[..|after| - 1]), after[|after| - 1])
  {
    hide Next;
    assert (before + after)[..|before + after| - 1] == before + after[..|after| - 1];
  }

  /** Over any further steps the file keeps its lines, and without a crash among them every accepted line
      stays accepted. */
  lemma {:induction false} AcceptedUntilCrash(cfg: Config, before: seq<Step>, after: seq<Step>)
    requires |cfg.header| == HEADER_LEN
    ensures var view, view' := Exec(cfg, before).view, Exec(cfg, before + after).view;
      view.onDisk <= view'.onDisk && (NoCrash(after) ==> view.Accepted() <= view'.Accepted())
  {
    if after == [] {
      assert before + after == before;
    } else {
      hide Exec, Next, IndexOk, SearchesOk, LogOk;
      var shorter := after[..|after| - 1];
      assert forall i :: 0 <= i < |shorter| ==> shorter[i] == after[i];
      AcceptedUntilCrash(cfg, before, shorter);
      Reachable(cfg, before + shorter);
      ExecLonger(cfg, before, after);
      AcceptedOneMore(cfg, Exec(cfg, before + shorter), after[|after| - 1]);
    }
  }

  lemma AcceptedOneMore(cfg: Config, s: State, step: Step)
    requires LogOk(cfg, s)
    ensures var view, view' := s.view, Next(cfg, s, step).view;
      view.onDisk <= view'.onDisk && (step != Restart(true) ==> view.Accepted() <= view'.Accepted())
  {
    hide Next, LogOk;
    StepKeepsAccepted(cfg, s, step);
  }

  lemma CarriesMore(lines: seq<HistoryObject>, more: seq<HistoryObject>, hash: string)
    requires lines <= more && Carries(lines, hash)
    ensures Carries(more, hash)
  {
    var n :| 0 <= n < |lines| && lines[n].hash == hash;
    assert more[n] == lines[n];
  }

  /** A hash once reported as a duplicate is reported for ever, whatever happens, crashes included. */
  lemma ReportedForEver(cfg: Config, before: seq<Step>, after: seq<Step>, hash: string)
    requires |cfg.header| == HEADER_LEN && IsHash(hash)
    requires VerdictIn(Exec(cfg, before), hash) == CaseDupes
    ensures VerdictIn(Exec(cfg, before + after), hash) == CaseDupes
  {
    hide Exec, VerdictIn, IsHash, Carries;
    SearchIsExact(cfg, before, hash);
    SearchIsExact(cfg, before + after, hash);
    AcceptedUntilCrash(cfg, before, after);
    CarriesMore(Exec(cfg, before).view.onDisk, Exec(cfg, before + after).view.onDisk, hash);
  }

  /** After a failed insert or a clean stop every line accepted before is in the file, and a search for
      its hash answers duplicate, then and ever after. */
  lemma FlushedIsReported(cfg: Config, before: seq<Step>, flush: Step, after: seq<Step>, hash: string)
    requires |cfg.header| == HEADER_LEN && IsHash(hash)
    requires var s := Exec(cfg, before); Flushes(s, flush) && Carries(s.view.Accepted(), hash)
    ensures Carries(Exec(cfg, before + [flush]).view.onDisk, hash)
    ensures VerdictIn(Exec(cfg, before + [flush] + after), hash) == CaseDupes
  {
    hide Exec, Next, VerdictIn, IsHash, Carries, IndexOk, SearchesOk, LogOk, Flushes;
    Reachable(cfg, before);
    StepKeepsAccepted(cfg, Exec(cfg, before), flush);
    ExecLonger(cfg, before, [flush]);
    assert before + [flush][..0] == before;
    SearchIsExact(cfg, before + [flush], hash);
    ReportedForEver(cfg, before + [flush], after, hash);
  }

  // ---------------------------------------------------------------------------
  // The writer's calls are the machine's steps
  // ---------------------------------------------------------------------------

  /** What handling an object does to a state: index and append, or fail to index. */
  function Handled(cfg: Config, s: State, o: HistoryObject, now: int, dbOk: bool): State {
    if dbOk then Next(cfg, Next(cfg, s, IndexLine(o, now)), AppendLine) else Next(cfg, s, IndexFailed(o, false))
  }

  lemma HandledParts(cfg: Config, s: State, o: HistoryObject, now: int, dbOk: bool)
    requires CanIndex(s, o)
    ensures var s' := Handled(cfg, s, o, now, dbOk);
      && s'.rows == (if dbOk then Inserted(s.rows, Key(o.hash), s.file.offset) else s.rows)
      && s'.file == (if dbOk then LineWritten(s.file, cfg.bufmax, FormatLine(WithArrival(o, now))) else Flushed(s.file))
      && s'.pending == None
  {
    hide FormatLine, LineWritten, LineAccepted, Inserted, Key;
  }

  /** From the file and index of a state, the writer answers an object the index step accepts, and leaves
      the file and index of the state after the machine's steps. */
  method WriteAsSteps(worker: HashDBWorker, cfg: Config, ghost s: State, o: HistoryObject, now: int, dbOk: bool)
    returns (outcome: WriterOutcome, ghost s': State)
    requires worker.file.Valid() && worker.file.bufmax == cfg.bufmax
    requires worker.file.State() == s.file && worker.store.rows == s.rows
    requires CanIndex(s, o) && s.file.offset > 0
    modifies worker.store, worker.file
    ensures worker.file.Valid()
    ensures outcome == Answered(if dbOk then CaseAdded else CaseRetry)
    ensures s' == Handled(cfg, s, o, now, dbOk)
    ensures worker.file.State() == s'.file && worker.store.rows == s'.rows
  {
    hide FormatLine, LineWritten, LineAccepted, Inserted, Key, Handled, Next;
    HandledParts(cfg, s, o, now, dbOk);
    outcome := worker.WriteObject(o, now, dbOk);
    s' := Handled(cfg, s, o, now, dbOk);
  }

  // ---------------------------------------------------------------------------
  // What was handed to the writer reads back
  // ---------------------------------------------------------------------------

  lemma LastLine(lines: seq<HistoryObject>, o: HistoryObject)
    ensures LineStart(lines + [o], |lines|) == LineStart(lines, |lines|)
  {
    hide LinesText;
    assert (lines + [o])[..|lines|] == lines == lines[..|lines|];
  }

  /** Handling an object and stopping cleanly leaves a file of all accepted lines with its own last. */
  lemma HandledAndStopped(cfg: Config, s: State, o: HistoryObject, now: int)
    requires Inv(cfg, s) && CanIndex(s, o)
    ensures var stopped := Next(cfg, Handled(cfg, s, o, now, true), Restart(false));
      LogOk(cfg, stopped) && stopped.view == LogView(s.view.Accepted() + [WithArrival(o, now)], [])
  {
    hide Next, LogOk, IndexOk, SearchesOk, FormatLine, CanIndex, Inserted, LineWritten;
    var indexed := Next(cfg, s, IndexLine(o, now));
    var appended := Next(cfg, indexed, AppendLine);
    IndexedPending(cfg, s, o, now);
    NextKeepsInv(cfg, s, IndexLine(o, now));
    NextKeepsInv(cfg, indexed, AppendLine);
    NextKeepsInv(cfg, appended, Restart(false));
    StepKeepsAccepted(cfg, s, IndexLine(o, now));
    StepKeepsAccepted(cfg, indexed, AppendLine);
    HandledParts(cfg, s, o, now, true);
    StepKeepsAccepted(cfg, appended, Restart(false));
  }

  /** The line of an object handed to the writer, read after a clean stop at the offset it was indexed
      under, holds the object's fields; a missing arrival is the time of the call. */
  lemma WrittenReadsBack(cfg: Config, steps: seq<Step>, o: HistoryObject, now: int)
    requires |cfg.header| == HEADER_LEN && IsHash(o.hash) && PlainToken(o.token)
    requires Exec(cfg, steps).pending.None? && IsInt64(Exec(cfg, steps).file.offset)
    requires IsInt64(o.arrival) && IsInt64(o.expires) && IsInt64(o.date) && IsInt64(now)
    ensures var s := Exec(cfg, steps);
      var stopped := Next(cfg, Handled(cfg, s, o, now, true), Restart(false));
      var text := FseekHistoryLine(stopped.file.disk, s.file.offset);
      && text.Some?
      && HoldsFields(text.value, o.hash, o.token, if o.arrival == 0 then now else o.arrival, o.expires, o.date)
  {
    hide Exec, Next, Handled, FormatLine, LinesText, LineStart, FseekHistoryLine, HoldsFields, IndexOk, SearchesOk, IsHash;
    var s := Exec(cfg, steps);
    var stopped := Next(cfg, Handled(cfg, s, o, now, true), Restart(false));
    var all := s.view.Accepted();
    Reachable(cfg, steps);
    HandledAndStopped(cfg, s, o, now);
    OffsetIsEnd(cfg, s);
    OffsetIsEnd(cfg, stopped);
    LastLine(all, WithArrival(o, now));
    LineReadsBack(cfg.header, all + [WithArrival(o, now)], |all|);
  }

  lemma IndexedPending(cfg: Config, s: State, o: HistoryObject, now: int)
    requires CanIndex(s, o)
    ensures Next(cfg, s, IndexLine(o, now)).pending == Some(WithArrival(o, now))
  {
    hide FormatLine, Inserted;
  }
}
