/** What the machine of IndexedHistory promises its clients, over every run. */
module SearchExactness {
  import opened Strconv
  import opened Types
  import opened OffsetText
  import opened HistoryFile
  import opened IndexedHistory

  ghost function VerdictIn(s: State, hash: string): Case
    requires IsHash(hash)
  {
    Verdict(s.file.disk, OffsetsOf(s.rows, Key(hash)), hash)
  }

  /** In any run, with lines of any lengths and any crashes, an undisturbed search answers duplicate
      exactly when a line in the file carries the hash, and asks for a retry exactly when the only
      offset under the key is misaligned; otherwise it passes. */
  lemma SearchIsExact(cfg: Config, steps: seq<Step>, hash: string)
    requires |cfg.header| == HEADER_LEN && IsHash(hash)
    ensures var s := Exec(cfg, steps); var offsets := OffsetsOf(s.rows, Key(hash));
      && (VerdictIn(s, hash) == CaseDupes <==> Carries(s.view.onDisk, hash))
      && (VerdictIn(s, hash) == CaseRetry <==> |offsets| == 1 && Misaligned(s.file.disk, offsets[0]))
      && VerdictIn(s, hash) in {CasePass, CaseDupes, CaseRetry}
  {
    hide FormatLine, LinesText, Exec, FseekHistoryMessageHash, Misaligned, OffsetsOf, SearchesOk, IsHex;
    var s := Exec(cfg, steps);
    Reachable(cfg, steps);
    var offsets := OffsetsOf(s.rows, Key(hash));
    OnDiskCovered(cfg, s);
    if Carries(s.view.onDisk, hash) {
      var n, i := StoredOffset(s, s.view.onDisk, hash);
      ReadMeansLine(cfg, s, offsets[i], hash);
    }
    if Found(s.file.disk, offsets, hash) {
      var i :| 0 <= i < |offsets| && FseekHistoryMessageHash(s.file.disk, offsets[i]) == ReadHash(hash);
      assert HasOffset(s.rows, hash, offsets[i]);
      ReadMeansLine(cfg, s, offsets[i], hash);
    }
    if |offsets| == 1 {
      assert HasOffset(s.rows, hash, offsets[0]);
      ReadExact(cfg.header, s.view.onDisk, offsets[0], hash);
      assert Found(s.file.disk, offsets, hash) <==> FseekHistoryMessageHash(s.file.disk, offsets[0]) == ReadHash(hash);
    }
  }

  /** Every reply of every run: a search interleaved with inserts, flushes and other searches reports
      a duplicate only if the line is in the file when it answers, and always if it was when it began. */
  lemma RepliesAreRight(cfg: Config, steps: seq<Step>, i: nat)
    requires |cfg.header| == HEADER_LEN && i < |Exec(cfg, steps).replies|
    ensures var r := Exec(cfg, steps).replies[i];
      && r.startLines <= r.endLines
      && (r.dbOk && r.code == CaseDupes ==> Carries(r.endLines, r.hash))
      && (r.dbOk && Carries(r.startLines, r.hash) ==> r.code == CaseDupes)
  {
    Reachable(cfg, steps);
    hide Exec;
    assert ReplyOk(Exec(cfg, steps).replies[i]);
  }

  // ---------------------------------------------------------------------------
  // Lines of one length
  // ---------------------------------------------------------------------------

  predicate UniformSteps(steps: seq<Step>, len: nat) {
    forall i :: 0 <= i < |steps| && steps[i].IndexLine? ==>
      |FormatLine(WithArrival(steps[i].o, steps[i].now))| == len
  }

  function GridOffset(len: nat, k: nat): int {
    HEADER_LEN + len * k
  }

  ghost predicate OnGrid(offset: int, len: nat) {
    exists k: nat :: offset == GridOffset(len, k)
  }

  ghost predicate GridLog(s: State, len: nat) {
    && Uniform(s.view.Accepted(), len)
    && (s.pending.Some? ==> |FormatLine(s.pending.value)| == len)
    && (forall hash, offset :: HasOffset(s.rows, hash, offset) ==> OnGrid(offset, len))
  }

  ghost predicate GridSearches(s: State, len: nat) {
    && (forall id, i :: id in s.searches && 0 <= i < |s.searches[id].todo| ==> OnGrid(s.searches[id].todo[i], len))
    && (forall i :: 0 <= i < |s.replies| && s.replies[i].dbOk ==> s.replies[i].code in {CasePass, CaseDupes})
  }

  lemma UniformParts(a: seq<HistoryObject>, b: seq<HistoryObject>, len: nat)
    requires Uniform(a + b, len)
    ensures Uniform(a, len) && Uniform(b, len)
  {
    hide FormatLine;
    assert forall i :: 0 <= i < |a| ==> a[i] == (a + b)[i];
    assert forall i :: 0 <= i < |b| ==> b[i] == (a + b)[|a| + i];
  }

  lemma EndOnGrid(cfg: Config, s: State, len: nat)
    requires LogOk(cfg, s) && Uniform(s.view.Accepted(), len)
    ensures s.file.offset == GridOffset(len, |s.view.Accepted()|)
    ensures |s.file.disk| == GridOffset(len, |s.view.onDisk|)
  {
    hide FormatLine, LinesText;
    OffsetIsEnd(cfg, s);
    UniformParts(s.view.onDisk, s.view.inBuf, len);
    UniformLength(s.view.Accepted(), len);
    UniformLength(s.view.onDisk, len);
    assert s.view.Accepted()[..|s.view.Accepted()|] == s.view.Accepted();
  }

  lemma GridMonotone(len: nat, j: nat, k: nat)
    requires j <= k
    ensures GridOffset(len, j) <= GridOffset(len, k)
  {
    assert len * j <= len * k;
  }

  /** An offset on the grid is the start of a line or not before the end of the file, where a read
      cannot fail. */
  lemma GridRead(cfg: Config, s: State, len: nat, offset: int)
    requires LogOk(cfg, s) && Uniform(s.view.Accepted(), len) && OnGrid(offset, len)
    ensures offset >= |s.file.disk| || exists n: nat :: StartsLine(s.view.onDisk, offset, n)
    ensures FseekHistoryMessageHash(s.file.disk, offset) != ReadError
  {
    hide FormatLine, LinesText, Storable;
    EndOnGrid(cfg, s, len);
    OffsetIsEnd(cfg, s);
    var k: nat :| offset == GridOffset(len, k);
    var lines := s.view.onDisk;
    if k < |lines| {
      UniformParts(lines, s.view.inBuf, len);
      assert Uniform(lines[..k], len);
      UniformLength(lines[..k], len);
      ReadNthHash(cfg.header, lines, k);
      assert StartsLine(lines, offset, k);
    } else {
      GridMonotone(len, |lines|, k);
    }
  }

  lemma NextKeepsGridLog(cfg: Config, s: State, step: Step, len: nat)
    requires Inv(cfg, s) && GridLog(s, len)
    requires step.IndexLine? ==> |FormatLine(WithArrival(step.o, step.now))| == len
    ensures GridLog(Next(cfg, s, step), len)
  {
    hide FormatLine, LinesText, LineStart, LineWritten, LineAccepted, HasOffset, Inserted, OffsetsOf, SearchesOk, OnGrid,
      SearchRead, SearchBegun, AllStorable, FseekHistoryMessageHash, Covers;
    EndOnGrid(cfg, s, len);
    match step
    case IndexLine(o, now) =>
      if CanIndex(s, o) {
        InsertedHas(s.rows, o.hash, s.file.offset);
        GridPoint(len, |s.view.Accepted()|);
      }
    case IndexFailed(o, stored) =>
      if CanIndex(s, o) {
        InsertedHas(s.rows, o.hash, s.file.offset);
        GridPoint(len, |s.view.Accepted()|);
        assert ViewFlushed(s.view).Accepted() == s.view.Accepted();
      }
    case AppendLine =>
      if s.pending.Some? {
        WriteKeepsLines(cfg.header, s.view, s.file, cfg.bufmax, s.pending.value);
      }
    case BeginSearch(id, hash, dbOk) =>
      SearchKeepsLog(cfg, s, step);
    case ReadOffset(id) =>
      SearchKeepsLog(cfg, s, step);
    case Restart(crash) =>
      UniformParts(s.view.onDisk, s.view.inBuf, len);
      assert LogView(s.view.Accepted(), []).Accepted() == s.view.Accepted();
      assert LogView(s.view.onDisk, []).Accepted() == s.view.onDisk;
  }

  lemma GridPoint(len: nat, k: nat)
    ensures OnGrid(GridOffset(len, k), len)
  {
  }

  lemma SearchKeepsLog(cfg: Config, s: State, step: Step)
    requires step.BeginSearch? || step.ReadOffset?
    ensures var s' := Next(cfg, s, step);
      s'.file == s.file && s'.rows == s.rows && s'.pending == s.pending && s'.view == s.view
  {
    hide OffsetsOf, FseekHistoryMessageHash, IsHex;
  }

  lemma NextKeepsGridSearches(cfg: Config, s: State, step: Step, len: nat)
    requires Inv(cfg, s) && GridLog(s, len) && GridSearches(s, len)
    ensures GridSearches(Next(cfg, s, step), len)
  {
    hide FormatLine, LinesText, LineWritten, LineAccepted, Inserted, OffsetsOf, OnGrid,
      AllStorable, FseekHistoryMessageHash, Covers, Represents, IsHex;
    match step
    case IndexLine(o, now) =>
    case IndexFailed(o, stored) =>
    case AppendLine =>
    case BeginSearch(id, hash, dbOk) =>
      if id !in s.searches && IsHash(hash) {
        forall i | 0 <= i < |OffsetsOf(s.rows, Key(hash))|
          ensures OnGrid(OffsetsOf(s.rows, Key(hash))[i], len)
        {
          assert HasOffset(s.rows, hash, OffsetsOf(s.rows, Key(hash))[i]);
        }
      }
    case ReadOffset(id) =>
      if id in s.searches {
        assert SearchOk(s.searches[id], s.view.onDisk);
        GridRead(cfg, s, len, s.searches[id].todo[0]);
      }
    case Restart(crash) =>
  }

  lemma {:induction false} GridReachable(cfg: Config, steps: seq<Step>, len: nat)
    requires |cfg.header| == HEADER_LEN && UniformSteps(steps, len)
    ensures GridLog(Exec(cfg, steps), len) && GridSearches(Exec(cfg, steps), len)
  {
    if steps == [] {
      InitialGrid(cfg, len);
    } else {
      hide Next, Inv, GridLog, GridSearches, FormatLine;
      var before := steps[..|steps| - 1];
      assert forall i :: 0 <= i < |before| ==> before[i] == steps[i];
      GridReachable(cfg, before, len);
      Reachable(cfg, before);
      NextKeepsGridLog(cfg, Exec(cfg, before), steps[|steps| - 1], len);
      NextKeepsGridSearches(cfg, Exec(cfg, before), steps[|steps| - 1], len);
    }
  }

  /** With lines of one length every indexed offset, however many crashes left it behind, is the start of
      a line in the file or not before its end. */
  lemma IndexedOffsets(cfg: Config, steps: seq<Step>, len: nat, hash: string, offset: int)
    requires |cfg.header| == HEADER_LEN && UniformSteps(steps, len)
    requires HasOffset(Exec(cfg, steps).rows, hash, offset)
    ensures var s := Exec(cfg, steps);
      offset >= |s.file.disk| || exists n: nat :: StartsLine(s.view.onDisk, offset, n)
  {
    hide Exec, UniformSteps, HasOffset, FormatLine, LinesText, OnGrid, StartsLine, FseekHistoryMessageHash, IndexOk, SearchesOk;
    Reachable(cfg, steps);
    GridReachable(cfg, steps, len);
    GridRead(cfg, Exec(cfg, steps), len, offset);
  }

  lemma InitialGrid(cfg: Config, len: nat)
    ensures GridLog(Init(cfg), len) && GridSearches(Init(cfg), len)
  {
    hide FormatLine, OnGrid, Split, Positives;
  }

  /** With lines of one length, every stale offset left by a crash is past the end of the file or the
      start of some line, so a search answers duplicate when the file carries the hash and pass when
      it does not: never retry, however many hashes share the key. */
  lemma UniformSearchIsExact(cfg: Config, steps: seq<Step>, len: nat, hash: string)
    requires |cfg.header| == HEADER_LEN && UniformSteps(steps, len) && IsHash(hash)
    ensures var s := Exec(cfg, steps);
      VerdictIn(s, hash) == if Carries(s.view.onDisk, hash) then CaseDupes else CasePass
  {
    hide FormatLine, LinesText, Exec, OnGrid, FseekHistoryMessageHash, OffsetsOf, Misaligned, Found, IsHex;
    var s := Exec(cfg, steps);
    var offsets := OffsetsOf(s.rows, Key(hash));
    SearchIsExact(cfg, steps, hash);
    Reachable(cfg, steps);
    GridReachable(cfg, steps, len);
    if |offsets| == 1 {
      assert HasOffset(s.rows, hash, offsets[0]);
      GridRead(cfg, s, len, offsets[0]);
    }
  }

  /** The same for the replies of interleaved searches: none of them is a retry. */
  lemma UniformRepliesAreExact(cfg: Config, steps: seq<Step>, len: nat, i: nat)
    requires |cfg.header| == HEADER_LEN && UniformSteps(steps, len)
    requires i < |Exec(cfg, steps).replies| && Exec(cfg, steps).replies[i].dbOk
    ensures var r := Exec(cfg, steps).replies[i];
      && r.code in {CasePass, CaseDupes}
      && (r.startLines == r.endLines ==> r.code == if Carries(r.endLines, r.hash) then CaseDupes else CasePass)
  {
    hide Exec, UniformSteps, GridLog, OnGrid, Carries;
    GridReachable(cfg, steps, len);
    RepliesAreRight(cfg, steps, i);
  }

  /** An offset of a line still in the buffer is not before the end of the file. */
  lemma BufferedPastEnd(cfg: Config, s: State, n: nat)
    requires LogOk(cfg, s) && |s.view.onDisk| <= n < |s.view.Accepted()|
    ensures HEADER_LEN + LineStart(s.view.Accepted(), n) >= |s.file.disk|
  {
    hide LinesText, Storable;
    var ahead := s.view.inBuf[..n - |s.view.onDisk|];
    assert s.view.Accepted()[..n] == s.view.onDisk + ahead;
    LinesTextConcat(s.view.onDisk, ahead);
  }

  /** A hash that only buffered lines carry is never told to retry: if one offset is stored under its
      key, that is the offset of its line. */
  lemma BufferedIsPassed(cfg: Config, steps: seq<Step>, hash: string)
    requires |cfg.header| == HEADER_LEN && IsHash(hash)
    requires var s := Exec(cfg, steps); Carries(s.view.Accepted(), hash) && !Carries(s.view.onDisk, hash)
    ensures VerdictIn(Exec(cfg, steps), hash) == CasePass
  {
    hide Exec, LineStart, OffsetsOf, VerdictIn, IsHex, Storable, SearchesOk, Represents;
    var s := Exec(cfg, steps);
    Reachable(cfg, steps);
    SearchIsExact(cfg, steps, hash);
    var n, i := StoredOffset(s, s.view.Accepted(), hash);
    assert forall k :: 0 <= k < |s.view.onDisk| ==> s.view.Accepted()[k] == s.view.onDisk[k];
    BufferedPastEnd(cfg, s, n);
  }

  /** A search passes an accepted hash exactly when all its lines are still in the buffer, for lines of
      any lengths: that is when a client that searches first adds the same hash again. */
  lemma PassedThoughAccepted(cfg: Config, steps: seq<Step>, hash: string)
    requires |cfg.header| == HEADER_LEN && IsHash(hash)
    ensures var s := Exec(cfg, steps);
      VerdictIn(s, hash) == CasePass && Carries(s.view.Accepted(), hash)
      <==> Carries(s.view.inBuf, hash) && !Carries(s.view.onDisk, hash)
  {
    hide Exec, VerdictIn, IsHash;
    var view := Exec(cfg, steps).view;
    SearchIsExact(cfg, steps, hash);
    assert forall i :: 0 <= i < |view.inBuf| ==> view.Accepted()[|view.onDisk| + i] == view.inBuf[i];
    if Carries(view.inBuf, hash) && !Carries(view.onDisk, hash) {
      BufferedIsPassed(cfg, steps, hash);
    }
  }

  // ---------------------------------------------------------------------------
  // How long a line can wait
  // ---------------------------------------------------------------------------

  /** Lines enter the buffer one at a time and leave it together. */
  lemma BufferChanges(cfg: Config, s: State, step: Step)
    ensures var view' := Next(cfg, s, step).view;
      if step.AppendLine? && s.pending.Some? then view' == LineAccepted(s.view, cfg.bufmax, s.pending.value)
      else view'.inBuf == s.view.inBuf || view'.inBuf == []
  {
    hide Inserted, OffsetsOf, SearchRead, SearchBegun, LineAccepted, LineWritten, CanIndex;
    if step.BeginSearch? || step.ReadOffset? {
      SearchKeepsLog(cfg, s, step);
    }
  }

  lemma {:induction false} FewPending(cfg: Config, steps: seq<Step>, len: nat, buflines: int)
    requires |cfg.header| == HEADER_LEN && UniformSteps(steps, len) && cfg.bufmax == len * buflines
    ensures |Exec(cfg, steps).view.inBuf| <= MaxPending(buflines)
  {
    if steps != [] {
      hide UniformSteps, Next, GridLog, FormatLine, LineAccepted, MaxPending, Inv;
      var before := steps[..|steps| - 1];
      var s, step := Exec(cfg, before), steps[|steps| - 1];
      UniformBefore(steps, len);
      FewPending(cfg, before, len, buflines);
      AtLeastOnePending(buflines);
      BufferChanges(cfg, s, step);
      if step.AppendLine? && s.pending.Some? {
        GridReachable(cfg, before, len);
        PendingLength(s, len);
        PendingBound(s.view, len, buflines, s.pending.value);
      }
    }
  }

  lemma UniformBefore(steps: seq<Step>, len: nat)
    requires steps != [] && UniformSteps(steps, len)
    ensures UniformSteps(steps[..|steps| - 1], len)
  {
    hide FormatLine;
    assert forall i :: 0 <= i < |steps| - 1 ==> steps[..|steps| - 1][i] == steps[i];
  }

  lemma AtLeastOnePending(buflines: int)
    ensures MaxPending(buflines) >= 1
  {
  }

  lemma PendingLength(s: State, len: nat)
    requires GridLog(s, len) && s.pending.Some?
    ensures Uniform(s.view.inBuf, len) && |FormatLine(s.pending.value)| == len
  {
    hide FormatLine, OnGrid, HasOffset;
    UniformParts(s.view.onDisk, s.view.inBuf, len);
  }

  /** A line followed by as many accepted lines as the buffer can hold back is reported as a
      duplicate: nine of them with the default buffer of ten 102-byte lines. */
  lemma SoonReported(cfg: Config, steps: seq<Step>, len: nat, buflines: int, n: nat)
    requires |cfg.header| == HEADER_LEN && UniformSteps(steps, len) && cfg.bufmax == len * buflines
    requires n + MaxPending(buflines) < |Exec(cfg, steps).view.Accepted()|
    ensures IsHash(Exec(cfg, steps).view.Accepted()[n].hash)
    ensures VerdictIn(Exec(cfg, steps), Exec(cfg, steps).view.Accepted()[n].hash) == CaseDupes
    ensures MaxPending(10) == 9
  {
    hide Exec, UniformSteps, FormatLine, Verdict, OffsetsOf, Represents, IndexOk, SearchesOk, IsHex;
    FewPending(cfg, steps, len, buflines);
    Reachable(cfg, steps);
    var s := Exec(cfg, steps);
    var o := s.view.Accepted()[n];
    assert Storable(o);
    assert s.view.onDisk[n] == o;
    SearchIsExact(cfg, steps, o.hash);
  }

  /** Fewer bytes than the buffer size wait, or a single line of any length. */
  ghost predicate FewBytes(cfg: Config, view: LogView) {
    |LinesText(view.inBuf)| < cfg.bufmax || |view.inBuf| <= 1
  }

  lemma AcceptKeepsFewBytes(cfg: Config, view: LogView, o: HistoryObject)
    ensures FewBytes(cfg, LineAccepted(view, cfg.bufmax, o))
  {
    hide FormatLine, LinesText;
    NoLines();
    LinesTextSnoc(view.inBuf, o);
  }

  lemma {:induction false} FewBytesPending(cfg: Config, steps: seq<Step>)
    ensures FewBytes(cfg, Exec(cfg, steps).view)
  {
    if steps != [] {
      hide Next, LinesText;
      NoLines();
      var before, step := steps[..|steps| - 1], steps[|steps| - 1];
      var s := Exec(cfg, before);
      FewBytesPending(cfg, before);
      BufferChanges(cfg, s, step);
      if step.AppendLine? && s.pending.Some? {
        AcceptKeepsFewBytes(cfg, s.view, s.pending.value);
      }
    }
  }

  lemma BufferTail(view: LogView, n: nat)
    requires |view.onDisk| <= n <= |view.Accepted()|
    ensures |LinesText(view.Accepted()[n..])| <= |LinesText(view.inBuf)|
  {
    hide FormatLine, LinesText;
    var k := n - |view.onDisk|;
    LinesTextConcat(view.inBuf[..k], view.inBuf[k..]);
    assert view.inBuf == view.inBuf[..k] + view.inBuf[k..];
    assert view.Accepted()[n..] == view.inBuf[k..];
  }

  /** A line that is not the last is reported as a duplicate as soon as it and the lines accepted after
      it fill the buffer, whatever their lengths. */
  lemma ReportedOnceBufferFilled(cfg: Config, steps: seq<Step>, n: nat)
    requires |cfg.header| == HEADER_LEN
    requires n + 1 < |Exec(cfg, steps).view.Accepted()|
    requires |LinesText(Exec(cfg, steps).view.Accepted()[n..])| >= cfg.bufmax
    ensures IsHash(Exec(cfg, steps).view.Accepted()[n].hash)
    ensures VerdictIn(Exec(cfg, steps), Exec(cfg, steps).view.Accepted()[n].hash) == CaseDupes
  {
    hide Exec, FormatLine, LinesText, Verdict, OffsetsOf, Represents, IndexOk, SearchesOk, IsHex;
    var s := Exec(cfg, steps);
    var view := s.view;
    FewBytesPending(cfg, steps);
    if n >= |view.onDisk| {
      BufferTail(view, n);
      assert false;
    }
    Reachable(cfg, steps);
    var o := view.Accepted()[n];
    assert Storable(o);
    assert view.onDisk[n] == o;
    SearchIsExact(cfg, steps, o.hash);
  }
}
