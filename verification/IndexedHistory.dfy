/** The append-only history file together with its truncated-key index: the worker that answers
    searches and inserts, the writer loop, and every interleaving of the two with crashes. */
module IndexedHistory {
  import opened Strconv
  import opened Types
  import opened OffsetText
  import opened HistoryFile

  /** What becomes of an object handed to the writer: it stops the writer, it is answered, or the
      writer waits for an answer that never comes. */
  datatype WriterOutcome = Stopped | Answered(code: Case) | Waits

  const KEY_LEN := 10
  const FLAG_SEARCH := -1

  function Key(hash: string): (key: string)
    requires |hash| >= KEY_LEN
    ensures |key| == KEY_LEN
  {
    hash[..KEY_LEN]
  }

  ghost predicate Found(disk: string, offsets: seq<int>, hash: string) {
    exists i :: 0 <= i < |offsets| && FseekHistoryMessageHash(disk, offsets[i]) == ReadHash(hash)
  }

  /** The answer to a search that finds these offsets under its key. With one offset a failed read
      asks the client to retry; with several it is skipped. */
  ghost function Verdict(disk: string, offsets: seq<int>, hash: string): Case {
    if |offsets| > 1 then if Found(disk, offsets, hash) then CaseDupes else CasePass
    else if |offsets| == 1 then
      match FseekHistoryMessageHash(disk, offsets[0])
      case ReadError => CaseRetry
      case ReadHash(h) => if h == hash then CaseDupes else CasePass
    else CasePass
  }

  class HashDBWorker {
    const store: SQLStore
    const file: HistoryDat

    constructor (store: SQLStore, file: HistoryDat)
      ensures this.store == store && this.file == file
    {
      this.store, this.file := store, file;
    }

    /** One request taken from the worker's channel; dbOk says whether the database answers. */
    method Handle(hash: string, offset: int, dbOk: bool) returns (reply: Case)
      modifies store
      ensures |hash| < KEY_LEN ==> reply == CaseError && store.rows == old(store.rows)
      ensures |hash| >= KEY_LEN && offset == FLAG_SEARCH ==>
        && store.rows == old(store.rows)
        && reply == if dbOk then Verdict(file.disk, OffsetsOf(store.rows, Key(hash)), hash) else CaseRetry
      ensures |hash| >= KEY_LEN && offset > 0 ==>
        && store.rows == (if dbOk then Inserted(old(store.rows), Key(hash), offset) else old(store.rows))
        && reply == if dbOk then CaseAdded else CaseRetry
      ensures |hash| >= KEY_LEN && offset <= 0 && offset != FLAG_SEARCH ==>
        reply == CaseError && store.rows == old(store.rows)
    {
      hide OffsetsOf, Inserted, FseekHistoryMessageHash;
      if |hash| < KEY_LEN {
        return CaseError;
      }
      var fullKey := hash[..KEY_LEN];
      if offset == FLAG_SEARCH {
        if !dbOk {
          return CaseRetry;
        }
        var offsets := store.GetOffsets(fullKey);
        if |offsets| > 1 {
          var found := false;
          var i := 0;
          while i < |offsets| && !found
            invariant 0 <= i <= |offsets|
            invariant !found ==> !Found(file.disk, offsets[..i], hash)
            invariant found ==> Found(file.disk, offsets, hash)
            invariant store.rows == old(store.rows)
          {
            var hashFromFile := FseekHistoryMessageHash(file.disk, offsets[i]);
            if hashFromFile == ReadHash(hash) {
              found := true;
            }
            assert forall j :: 0 <= j < i + 1 ==> offsets[..i + 1][j] == if j < i then offsets[..i][j] else offsets[i];
            i := i + 1;
          }
          assert !found ==> offsets[..i] == offsets;
          return if found then CaseDupes else CasePass;
        } else if |offsets| == 1 {
          var hashFromFile := FseekHistoryMessageHash(file.disk, offsets[0]);
          if hashFromFile.ReadError? {
            return CaseRetry;
          }
          return if hashFromFile.hash == hash then CaseDupes else CasePass;
        } else {
          return CasePass;
        }
      } else if offset > 0 {
        if !dbOk {
          return CaseRetry;
        }
        store.InsertOffset(fullKey, offset);
        return CaseAdded;
      } else {
        return CaseError;
      }
    }

    /** The client's call: a short hash is an error, and any offset that is not positive searches. */
    method IndexQuery(hash: string, offset: int, dbOk: bool) returns (reply: Case, ok: bool)
      modifies store
      ensures ok <==> |hash| >= HASH_LEN
      ensures !ok ==> reply == Invalid && store.rows == old(store.rows)
      ensures ok && offset > 0 && dbOk ==> reply == CaseAdded && store.rows == Inserted(old(store.rows), Key(hash), offset)
      ensures ok && offset <= 0 && dbOk ==> reply == Verdict(file.disk, OffsetsOf(store.rows, Key(hash)), hash)
      ensures ok && (offset <= 0 || !dbOk) ==> store.rows == old(store.rows)
      ensures ok && !dbOk ==> reply == CaseRetry
    {
      hide Inserted, OffsetsOf, Verdict;
      if |hash| < HASH_LEN {
        return Invalid, false;
      }
      reply := Handle(hash, if offset > 0 then offset else FLAG_SEARCH, dbOk);
      ok := true;
    }

    /** The writer loop's body: an object without hash or token stops the writer. Any other has its
        line indexed at the current offset and then appended; when the index answers retry, the buffer
        is flushed instead. A hash of less than 64 characters and an offset of 0 are not answered by
        the index, on which the writer waits for ever. */
    method WriteObject(hobj: HistoryObject, now: int, dbOk: bool) returns (outcome: WriterOutcome)
      requires file.Valid()
      modifies store, file
      ensures file.Valid()
      ensures outcome == Stopped <==> hobj.hash == "" || hobj.token == ""
      ensures outcome == Waits <==>
        hobj.hash != "" && hobj.token != "" && (|hobj.hash| < HASH_LEN || old(file.offset) == 0)
      ensures !outcome.Answered? ==> store.rows == old(store.rows) && file.State() == old(file.State())
      ensures outcome.Answered? ==> outcome.code == if dbOk then CaseAdded else CaseRetry
      ensures outcome.Answered? && dbOk ==>
        && store.rows == Inserted(old(store.rows), Key(hobj.hash), old(file.offset))
        && file.State() == LineWritten(old(file.State()), file.bufmax, FormatLine(WithArrival(hobj, now)))
      ensures outcome.Answered? && !dbOk ==> store.rows == old(store.rows) && file.State() == Flushed(old(file.State()))
    {
      hide Inserted, OffsetsOf, LineWritten, FormatLine;
      if hobj.hash == "" || hobj.token == "" {
        return Stopped;
      }
      var o := hobj;
      if o.arrival == 0 {
        o := o.(arrival := now);
      }
      if |o.hash| < HASH_LEN || file.offset == 0 {
        return Waits;
      }
      var isDup := Handle(o.hash, file.offset, dbOk);
      if isDup == CaseRetry {
        file.Flush();
      } else {
        file.WriteHistoryLine(o, false);
      }
      outcome := Answered(isDup);
    }
  }

  function WithArrival(o: HistoryObject, now: int): HistoryObject {
    if o.arrival == 0 then o.(arrival := now) else o
  }

  // ---------------------------------------------------------------------------
  // All interleavings
  // ---------------------------------------------------------------------------

  datatype Config = Config(header: string, bufmax: int)

  /** A search under way: the offsets it still has to read, and the lines that were in the file when
      it asked the database. */
  datatype Search = Search(hash: string, single: bool, todo: seq<int>, startLines: seq<HistoryObject>)

  /** An answered search with the lines that were in the file when it began and when it was answered. */
  datatype Reply = Reply(hash: string, code: Case, dbOk: bool,
                         startLines: seq<HistoryObject>, endLines: seq<HistoryObject>)

  /** pending is the line whose offset is indexed but which the writer has not yet appended. The view
      records which lines the file and the buffer are made of. */
  datatype State = State(file: FileState, rows: Rows, pending: Option<HistoryObject>,
                         searches: map<nat, Search>, replies: seq<Reply>, view: LogView)

  datatype Step =
    | IndexLine(o: HistoryObject, now: int)
    | IndexFailed(o: HistoryObject, stored: bool)
    | AppendLine
    | BeginSearch(id: nat, hash: string, dbOk: bool)
    | ReadOffset(id: nat)
    | Restart(crash: bool)

  predicate CanIndex(s: State, o: HistoryObject) {
    s.pending.None? && Storable(o) && IsInt64(s.file.offset)
  }

  function Replied(s: State, hash: string, code: Case, dbOk: bool, startLines: seq<HistoryObject>): State {
    s.(replies := s.replies + [Reply(hash, code, dbOk, startLines, s.view.onDisk)])
  }

  /** One read of a search, on the file as it is now. */
  function SearchRead(s: State, id: nat): State
    requires id in s.searches && s.searches[id].todo != []
  {
    var q := s.searches[id];
    var result := FseekHistoryMessageHash(s.file.disk, q.todo[0]);
    var done := s.(searches := s.searches - {id});
    if result == ReadHash(q.hash) then Replied(done, q.hash, CaseDupes, true, q.startLines)
    else if q.single then
      Replied(done, q.hash, if result.ReadError? then CaseRetry else CasePass, true, q.startLines)
    else if |q.todo| == 1 then Replied(done, q.hash, CasePass, true, q.startLines)
    else s.(searches := s.searches[id := q.(todo := q.todo[1..])])
  }

  function SearchBegun(s: State, id: nat, hash: string, dbOk: bool): State
    requires IsHash(hash)
  {
    var offsets := OffsetsOf(s.rows, Key(hash));
    if !dbOk then Replied(s, hash, CaseRetry, false, s.view.onDisk)
    else if offsets == [] then Replied(s, hash, CasePass, true, s.view.onDisk)
    else s.(searches := s.searches[id := Search(hash, |offsets| == 1, offsets, s.view.onDisk)])
  }

  /** Stopping flushes the buffer, crashing loses it; either way the file is reopened at its size
      while the index keeps all it was told. */
  function Restarted(s: State, crash: bool): State {
    var disk := if crash then s.file.disk else s.file.disk + s.file.buf;
    var lines := if crash then s.view.onDisk else s.view.Accepted();
    State(FileState(disk, "", |disk|), s.rows, None, map[], s.replies, LogView(lines, []))
  }

  /** A step that is not possible in a state leaves the state as it is. */
  function Next(cfg: Config, s: State, step: Step): State {
    match step
    case IndexLine(o, now) =>
      if CanIndex(s, o) then
        s.(rows := Inserted(s.rows, Key(o.hash), s.file.offset), pending := Some(WithArrival(o, now)))
      else s
    case IndexFailed(o, stored) =>
      if CanIndex(s, o) then
        s.(rows := if stored then Inserted(s.rows, Key(o.hash), s.file.offset) else s.rows,
           file := Flushed(s.file), view := ViewFlushed(s.view))
      else s
    case AppendLine =>
      if s.pending.Some? then
        s.(file := LineWritten(s.file, cfg.bufmax, FormatLine(s.pending.value)),
           view := LineAccepted(s.view, cfg.bufmax, s.pending.value), pending := None)
      else s
    case BeginSearch(id, hash, dbOk) =>
      if id !in s.searches && IsHash(hash) then SearchBegun(s, id, hash, dbOk) else s
    case ReadOffset(id) =>
      if id in s.searches && s.searches[id].todo != [] then SearchRead(s, id) else s
    case Restart(crash) =>
      if crash || s.pending.None? then Restarted(s, crash) else s
  }

  function Init(cfg: Config): State {
    State(FileState(cfg.header, "", |cfg.header|), map[], None, map[], [], LogView([], []))
  }

  function Exec(cfg: Config, steps: seq<Step>): State {
    if steps == [] then Init(cfg)
    else Next(cfg, Exec(cfg, steps[..|steps| - 1]), steps[|steps| - 1])
  }

  /** A search read to its end with nothing in between. */
  function Finished(s: State, id: nat): State
    requires id in s.searches && s.searches[id].todo != []
    decreases |s.searches[id].todo|
  {
    var s' := SearchRead(s, id);
    if id in s'.searches then Finished(s', id) else s'
  }

  lemma {:induction false} FinishedReply(s: State, id: nat)
    requires id in s.searches && s.searches[id].todo != []
    ensures var q := s.searches[id];
      Finished(s, id).replies == s.replies + [Reply(q.hash,
        if q.single then Verdict(s.file.disk, q.todo[..1], q.hash)
        else if Found(s.file.disk, q.todo, q.hash) then CaseDupes else CasePass,
        true, q.startLines, s.view.onDisk)]
    decreases |s.searches[id].todo|
  {
    hide FseekHistoryMessageHash;
    var q := s.searches[id];
    var result := FseekHistoryMessageHash(s.file.disk, q.todo[0]);
    if result != ReadHash(q.hash) && !q.single {
      var rest := q.todo[1..];
      assert Found(s.file.disk, q.todo, q.hash) <==> Found(s.file.disk, rest, q.hash) by {
        assert forall i :: 0 <= i < |rest| ==> rest[i] == q.todo[i + 1];
      }
      if |q.todo| > 1 {
        FinishedReply(SearchRead(s, id), id);
      }
    }
  }

  /** The machine's searches are the worker's: begun and read with nothing in between, a search is
      answered with the worker's verdict. */
  lemma UndisturbedSearch(cfg: Config, s: State, id: nat, hash: string)
    requires IsHash(hash) && id !in s.searches
    ensures var begun := Next(cfg, s, BeginSearch(id, hash, true));
      var done := if id in begun.searches && begun.searches[id].todo != [] then Finished(begun, id) else begun;
      done.replies == s.replies + [Reply(hash, Verdict(s.file.disk, OffsetsOf(s.rows, Key(hash)), hash), true,
                                         s.view.onDisk, s.view.onDisk)]
  {
    hide FseekHistoryMessageHash, OffsetsOf, Found, IsHex, Finished;
    var offsets := OffsetsOf(s.rows, Key(hash));
    if offsets != [] {
      FinishedReply(SearchBegun(s, id, hash, true), id);
      assert |offsets| == 1 ==> offsets[..1] == offsets;
    }
  }

  // ---------------------------------------------------------------------------
  // The invariant
  // ---------------------------------------------------------------------------

  ghost predicate Carries(lines: seq<HistoryObject>, hash: string) {
    exists n :: 0 <= n < |lines| && lines[n].hash == hash
  }

  ghost predicate HasOffset(rows: Rows, hash: string, offset: int) {
    |hash| >= KEY_LEN && offset in OffsetsOf(rows, Key(hash))
  }

  /** Every line can be found through its key. */
  ghost predicate Covers(rows: Rows, lines: seq<HistoryObject>) {
    forall n :: 0 <= n < |lines| ==> HasOffset(rows, lines[n].hash, HEADER_LEN + LineStart(lines, n))
  }

  ghost predicate PastHeader(rows: Rows) {
    forall hash, offset :: HasOffset(rows, hash, offset) ==> offset >= HEADER_LEN
  }

  /** A search that began when its hash was in the file still has a line with it to read. */
  ghost predicate SearchOk(q: Search, onDisk: seq<HistoryObject>) {
    && IsHash(q.hash) && q.todo != [] && (q.single ==> |q.todo| == 1)
    && q.startLines <= onDisk
    && (forall i :: 0 <= i < |q.todo| ==> q.todo[i] >= HEADER_LEN)
    && (Carries(q.startLines, q.hash) ==> StillToRead(q))
  }

  ghost predicate StillToRead(q: Search) {
    exists n: nat, i :: 0 <= i < |q.todo| && StartsLine(q.startLines, q.todo[i], n) && q.startLines[n].hash == q.hash
  }

  /** A duplicate is reported only if its line is in the file at the answer, and always if it was
      when the search began. */
  ghost predicate ReplyOk(r: Reply) {
    && r.startLines <= r.endLines
    && (!r.dbOk ==> r.code == CaseRetry)
    && (r.dbOk ==>
          && r.code in {CasePass, CaseDupes, CaseRetry}
          && (r.code == CaseDupes ==> Carries(r.endLines, r.hash))
          && (Carries(r.startLines, r.hash) ==> r.code == CaseDupes))
  }

  ghost predicate LogOk(cfg: Config, s: State) {
    && |cfg.header| == HEADER_LEN
    && Represents(cfg.header, s.view, s.file)
    && AllStorable(s.view.Accepted())
    && (s.pending.Some? ==> Storable(s.pending.value))
  }

  ghost predicate IndexOk(s: State) {
    && WellFormed(s.rows)
    && Covers(s.rows, s.view.Accepted())
    && PastHeader(s.rows)
    && (s.pending.Some? ==> HasOffset(s.rows, s.pending.value.hash, s.file.offset))
  }

  ghost predicate SearchesOk(s: State) {
    && (forall id :: id in s.searches ==> SearchOk(s.searches[id], s.view.onDisk))
    && (forall i :: 0 <= i < |s.replies| ==> ReplyOk(s.replies[i]))
  }

  ghost predicate Inv(cfg: Config, s: State) {
    LogOk(cfg, s) && IndexOk(s) && SearchesOk(s)
  }

  /** The offset of the next line is where the text of the accepted lines ends. */
  lemma OffsetIsEnd(cfg: Config, s: State)
    requires LogOk(cfg, s)
    ensures s.file.offset == HEADER_LEN + LineStart(s.view.Accepted(), |s.view.Accepted()|)
    ensures AllStorable(s.view.onDisk)
  {
    hide FormatLine, LinesText;
    var all := s.view.Accepted();
    LinesTextConcat(s.view.onDisk, s.view.inBuf);
    assert all[..|all|] == all;
    assert forall i :: 0 <= i < |s.view.onDisk| ==> s.view.onDisk[i] == all[i];
  }

  /** An index insert adds one offset, for every hash that shares the key. */
  lemma InsertedHas(rows: Rows, hash: string, offset: int)
    requires WellFormed(rows) && IsHash(hash) && IsInt64(offset) && offset > 0
    ensures WellFormed(Inserted(rows, Key(hash), offset))
    ensures forall h, p :: HasOffset(Inserted(rows, Key(hash), offset), h, p)
              <==> HasOffset(rows, h, p) || (|h| >= KEY_LEN && Key(h) == Key(hash) && p == offset)
  {
    hide OffsetsOf, Inserted;
    InsertedOffsets(rows, Key(hash), offset, Key(hash));
    forall h, p | |h| >= KEY_LEN
      ensures HasOffset(Inserted(rows, Key(hash), offset), h, p)
         <==> HasOffset(rows, h, p) || (Key(h) == Key(hash) && p == offset)
    {
      InsertedOffsets(rows, Key(hash), offset, Key(h));
    }
  }

  /** Indexing one more offset past the header keeps every offset already there. */
  lemma InsertKeepsIndex(rows: Rows, lines: seq<HistoryObject>, hash: string, offset: int)
    requires WellFormed(rows) && Covers(rows, lines) && PastHeader(rows)
    requires IsHash(hash) && IsInt64(offset) && offset >= HEADER_LEN
    ensures var rows' := Inserted(rows, Key(hash), offset);
      WellFormed(rows') && Covers(rows', lines) && PastHeader(rows') && HasOffset(rows', hash, offset)
  {
    hide OffsetsOf, Inserted, LineStart, HasOffset;
    InsertedHas(rows, hash, offset);
  }

  lemma CoversPrefix(rows: Rows, lines: seq<HistoryObject>, prefix: seq<HistoryObject>)
    requires Covers(rows, lines) && prefix <= lines
    ensures Covers(rows, prefix)
  {
    hide OffsetsOf, LinesText;
    forall n | 0 <= n < |prefix|
      ensures HasOffset(rows, prefix[n].hash, HEADER_LEN + LineStart(prefix, n))
    {
      assert prefix[..n] == lines[..n] && prefix[n] == lines[n];
      assert HasOffset(rows, lines[n].hash, HEADER_LEN + LineStart(lines, n));
    }
  }

  lemma CoversSnoc(rows: Rows, lines: seq<HistoryObject>, o: HistoryObject)
    requires Covers(rows, lines) && HasOffset(rows, o.hash, HEADER_LEN + LineStart(lines, |lines|))
    ensures Covers(rows, lines + [o])
  {
    hide OffsetsOf, LinesText;
    var all := lines + [o];
    forall n | 0 <= n < |all|
      ensures HasOffset(rows, all[n].hash, HEADER_LEN + LineStart(all, n))
    {
      assert all[..n] == lines[..n];
    }
  }

  lemma SearchesGrow(s: State, onDisk: seq<HistoryObject>)
    requires SearchesOk(s) && s.view.onDisk <= onDisk
    ensures forall id :: id in s.searches ==> SearchOk(s.searches[id], onDisk)
  {
    hide StillToRead, IsHash;
  }

  lemma AppendKeepsInv(cfg: Config, s: State)
    requires Inv(cfg, s) && s.pending.Some?
    ensures Inv(cfg, Next(cfg, s, AppendLine))
  {
    hide FormatLine, LineAccepted, LineWritten, LinesText, OffsetsOf, SearchOk, ReplyOk, Storable;
    var o := s.pending.value;
    var s' := Next(cfg, s, AppendLine);
    WriteKeepsLines(cfg.header, s.view, s.file, cfg.bufmax, o);
    OffsetIsEnd(cfg, s);
    CoversSnoc(s.rows, s.view.Accepted(), o);
    SearchesGrow(s, s'.view.onDisk);
  }

  lemma IndexKeepsInv(cfg: Config, s: State, o: HistoryObject, now: int)
    requires Inv(cfg, s) && CanIndex(s, o)
    ensures Inv(cfg, Next(cfg, s, IndexLine(o, now)))
  {
    hide FormatLine, LinesText, OffsetsOf, Inserted, SearchOk, ReplyOk;
    OffsetIsEnd(cfg, s);
    InsertKeepsIndex(s.rows, s.view.Accepted(), o.hash, s.file.offset);
  }

  lemma FailedIndexKeepsInv(cfg: Config, s: State, o: HistoryObject, stored: bool)
    requires Inv(cfg, s) && CanIndex(s, o)
    ensures Inv(cfg, Next(cfg, s, IndexFailed(o, stored)))
  {
    hide FormatLine, LinesText, OffsetsOf, Inserted, SearchOk, ReplyOk;
    OffsetIsEnd(cfg, s);
    InsertKeepsIndex(s.rows, s.view.Accepted(), o.hash, s.file.offset);
    FlushKeepsLines(cfg.header, s.view, s.file);
    SearchesGrow(s, s.view.Accepted());
    assert ViewFlushed(s.view).Accepted() == s.view.Accepted();
  }

  lemma RestartKeepsInv(cfg: Config, s: State, crash: bool)
    requires Inv(cfg, s)
    ensures Inv(cfg, Restarted(s, crash))
  {
    hide FormatLine, LinesText, OffsetsOf, ReplyOk, Storable;
    var s' := Restarted(s, crash);
    NoLines();
    OffsetIsEnd(cfg, s);
    FlushKeepsLines(cfg.header, s.view, s.file);
    CoversPrefix(s.rows, s.view.Accepted(), s.view.onDisk);
    assert s'.view.Accepted() == if crash then s.view.onDisk else s.view.Accepted();
  }

  /** Every line in the file is among the offsets stored under its key. */
  lemma StoredOffset(s: State, lines: seq<HistoryObject>, hash: string) returns (n: nat, i: nat)
    requires Covers(s.rows, lines) && Carries(lines, hash) && |hash| >= KEY_LEN
    ensures i < |OffsetsOf(s.rows, Key(hash))|
    ensures StartsLine(lines, OffsetsOf(s.rows, Key(hash))[i], n) && lines[n].hash == hash
  {
    hide OffsetsOf, LineStart;
    n :| n < |lines| && lines[n].hash == hash;
    assert HasOffset(s.rows, lines[n].hash, HEADER_LEN + LineStart(lines, n));
    i :| 0 <= i < |OffsetsOf(s.rows, Key(hash))| && OffsetsOf(s.rows, Key(hash))[i] == HEADER_LEN + LineStart(lines, n);
  }

  lemma OnDiskCovered(cfg: Config, s: State)
    requires LogOk(cfg, s) && IndexOk(s)
    ensures Covers(s.rows, s.view.onDisk) && AllStorable(s.view.onDisk)
  {
    hide OffsetsOf, LinesText, Storable, FormatLine;
    OffsetIsEnd(cfg, s);
    CoversPrefix(s.rows, s.view.Accepted(), s.view.onDisk);
  }

  lemma BeginKeepsInv(cfg: Config, s: State, id: nat, hash: string, dbOk: bool)
    requires Inv(cfg, s) && IsHash(hash) && id !in s.searches
    ensures Inv(cfg, SearchBegun(s, id, hash, dbOk))
  {
    hide FormatLine, LinesText, LineStart, OffsetsOf, Represents, AllStorable, WellFormed;
    OnDiskCovered(cfg, s);
    var offsets := OffsetsOf(s.rows, Key(hash));
    if Carries(s.view.onDisk, hash) {
      var n, i := StoredOffset(s, s.view.onDisk, hash);
    }
    forall i | 0 <= i < |offsets|
      ensures offsets[i] >= HEADER_LEN
    {
      assert HasOffset(s.rows, hash, offsets[i]);
    }
  }

  /** A read that does not match was not the read of a line with the hash. */
  lemma ReadMeansLine(cfg: Config, s: State, offset: int, hash: string)
    requires LogOk(cfg, s) && offset >= HEADER_LEN && IsHash(hash)
    ensures FseekHistoryMessageHash(s.file.disk, offset) == ReadHash(hash)
       <==> exists n: nat :: StartsLine(s.view.onDisk, offset, n) && s.view.onDisk[n].hash == hash
  {
    hide FormatLine, LinesText, Storable, FseekHistoryMessageHash;
    OffsetIsEnd(cfg, s);
    ReadExact(cfg.header, s.view.onDisk, offset, hash);
  }

  /** A search whose next read does not match still has its line, if any, among its later reads. */
  lemma MissKeepsSearch(cfg: Config, s: State, q: Search)
    requires LogOk(cfg, s) && SearchOk(q, s.view.onDisk)
    requires FseekHistoryMessageHash(s.file.disk, q.todo[0]) != ReadHash(q.hash)
    ensures |q.todo| == 1 ==> !Carries(q.startLines, q.hash)
    ensures |q.todo| > 1 && !q.single ==> SearchOk(q.(todo := q.todo[1..]), s.view.onDisk)
  {
    hide FormatLine, LinesText, FseekHistoryMessageHash, LogOk, IsHash;
    ReadMeansLine(cfg, s, q.todo[0], q.hash);
    if Carries(q.startLines, q.hash) {
      var n: nat, i :| 0 <= i < |q.todo| && StartsLine(q.startLines, q.todo[i], n) && q.startLines[n].hash == q.hash;
      assert q.startLines[..n] == s.view.onDisk[..n];
      assert StartsLine(s.view.onDisk, q.todo[i], n);
      assert q.todo[1..][i - 1] == q.todo[i];
    }
  }

  lemma ReadKeepsInv(cfg: Config, s: State, id: nat)
    requires Inv(cfg, s) && id in s.searches
    ensures Inv(cfg, SearchRead(s, id))
  {
    hide FormatLine, LinesText, LineStart, FseekHistoryMessageHash, OffsetsOf, Represents, AllStorable, WellFormed, IsHash, StillToRead;
    var q := s.searches[id];
    assert SearchOk(q, s.view.onDisk);
    ReadMeansLine(cfg, s, q.todo[0], q.hash);
    if FseekHistoryMessageHash(s.file.disk, q.todo[0]) != ReadHash(q.hash) {
      MissKeepsSearch(cfg, s, q);
    }
  }

  lemma NextKeepsInv(cfg: Config, s: State, step: Step)
    requires Inv(cfg, s)
    ensures Inv(cfg, Next(cfg, s, step))
  {
    hide LogOk, IndexOk, CanIndex, SearchRead, SearchBegun, Restarted, Inserted, LineWritten, LineAccepted, IsHash;
    match step
    case IndexLine(o, now) =>
      if CanIndex(s, o) { IndexKeepsInv(cfg, s, o, now); }
    case IndexFailed(o, stored) =>
      if CanIndex(s, o) { FailedIndexKeepsInv(cfg, s, o, stored); }
    case AppendLine =>
      if s.pending.Some? { AppendKeepsInv(cfg, s); }
    case BeginSearch(id, hash, dbOk) =>
      if id !in s.searches && IsHash(hash) { BeginKeepsInv(cfg, s, id, hash, dbOk); }
    case ReadOffset(id) =>
      if id in s.searches { ReadKeepsInv(cfg, s, id); }
    case Restart(crash) =>
      RestartKeepsInv(cfg, s, crash);
  }

  lemma InitialInv(cfg: Config)
    requires |cfg.header| == HEADER_LEN
    ensures Inv(cfg, Init(cfg))
  {
    hide FormatLine, LinesText, SearchOk, ReplyOk, Storable, Split, Positives;
    NoLines();
    assert cfg.header + "" == cfg.header;
  }

  /** In every reachable state the file and buffer are whole lines, every accepted line is indexed,
      and every reply given so far is right. */
  lemma {:induction false} Reachable(cfg: Config, steps: seq<Step>)
    requires |cfg.header| == HEADER_LEN
    ensures Inv(cfg, Exec(cfg, steps))
  {
    if steps == [] {
      InitialInv(cfg);
    } else {
      hide Next, Inv;
      var before := steps[..|steps| - 1];
      Reachable(cfg, before);
      NextKeepsInv(cfg, Exec(cfg, before), steps[|steps| - 1]);
    }
  }
}
