/** Two runs in which the history answers otherwise than its purpose suggests. Lines of different
    lengths can, after a crash, leave an offset that points into the middle of a line, and a search for
    a hash that is not in the file then asks the client to retry. And a line still in the buffer is not
    seen by a search, so a client that searches before it adds can still add the same hash twice. */
module ConcreteRuns {
  import opened Strconv
  import opened Types
  import opened OffsetText
  import opened HistoryFile
  import opened IndexedHistory
  import opened SearchExactness

  const LONG_HASH := Repeat('a', HASH_LEN)
  const LOST_HASH := Repeat('b', HASH_LEN)
  const LONG := HistoryObject(LONG_HASH, Repeat('F', 51), 1, 0, 1)
  const LOST := HistoryObject(LOST_HASH, "F", 1, 0, 1)
  const SHORT := HistoryObject(LONG_HASH, "F", 1, 0, 1)
  const STALE := HEADER_LEN + 152

  function Cfg(): Config {
    Config(Repeat('0', HEADER_LEN), 1020)
  }

  /** A long line is buffered, the next line's offset is indexed, the process crashes, two short
      lines are written and the process is stopped cleanly. */
  function Run(): seq<Step> {
    [IndexLine(LONG, 1), AppendLine, IndexLine(LOST, 1), Restart(true),
     IndexLine(SHORT, 1), AppendLine, IndexLine(SHORT, 1), AppendLine, Restart(false)]
  }

  lemma Lengths()
    ensures Storable(LONG) && Storable(LOST) && Storable(SHORT)
    ensures |FormatLine(LONG)| == 152 && |FormatLine(SHORT)| == 102
    ensures FormatLine(SHORT)[50] == 'a'
    ensures Key(LONG_HASH) != Key(LOST_HASH)
  {
    LineIs102(SHORT);
    LineShape(SHORT);
    assert FormatLine(SHORT)[50] == FormatLine(SHORT)[1..HASH_LEN + 1][49];
    SameButToken();
    assert Key(LONG_HASH)[0] != Key(LOST_HASH)[0];
  }

  lemma SameButToken()
    ensures |FormatLine(LONG)| == |FormatLine(SHORT)| + 50
  {
    hide PadInt;
    assert Fields(LONG) == Fields(SHORT);
  }

  lemma ExecSnoc(cfg: Config, steps: seq<Step>, step: Step)
    ensures Exec(cfg, steps + [step]) == Next(cfg, Exec(cfg, steps), step)
  {
    hide Next;
    assert (steps + [step])[..|steps|] == steps;
  }

  /** A line that fits goes to the buffer. */
  lemma Buffered(view: LogView, o: HistoryObject)
    requires |LinesText(view.inBuf)| + |FormatLine(o)| < 1020
    ensures LineAccepted(view, 1020, o) == LogView(view.onDisk, view.inBuf + [o])
  {
    hide FormatLine, LinesText;
  }

  lemma OneLine(o: HistoryObject)
    ensures LinesText([o]) == FormatLine(o) && LinesText([]) == ""
  {
    hide FormatLine;
    assert [o][1..] == [];
  }

  /** Indexing and appending a line in a reachable state with room in the buffer. */
  lemma Added(steps: seq<Step>, o: HistoryObject)
    requires var s := Exec(Cfg(), steps);
      && CanIndex(s, o) && o.arrival != 0
      && |LinesText(s.view.inBuf)| + |FormatLine(o)| < 1020
    ensures var s := Exec(Cfg(), steps); var s' := Exec(Cfg(), steps + [IndexLine(o, 1), AppendLine]);
      && s'.view == LogView(s.view.onDisk, s.view.inBuf + [o])
      && s'.pending == None
      && s'.rows == Inserted(s.rows, Key(o.hash), s.file.offset)
      && s'.file.offset == s.file.offset + |FormatLine(o)|
  {
    hide Exec, FormatLine, LinesText, Inserted, CanIndex, IsHex;
    ExecSnoc(Cfg(), steps, IndexLine(o, 1));
    ExecSnoc(Cfg(), steps + [IndexLine(o, 1)], AppendLine);
    assert steps + [IndexLine(o, 1)] + [AppendLine] == steps + [IndexLine(o, 1), AppendLine];
    Buffered(Exec(Cfg(), steps).view, o);
  }

  lemma StaleOffsets(p: int, q: int)
    requires IsInt64(p) && IsInt64(q)
    ensures var rows := Inserted(Inserted(map[], Key(LONG_HASH), HEADER_LEN), Key(LOST_HASH), STALE);
      OffsetsOf(Inserted(Inserted(rows, Key(LONG_HASH), p), Key(LONG_HASH), q), Key(LOST_HASH)) == [STALE]
  {
    hide Inserted, FormatLine;
    Lengths();
    var a, b := Key(LONG_HASH), Key(LOST_HASH);
    var none: Rows := map[];
    EmptyRows(b);
    InsertedOffsets(none, a, HEADER_LEN, b);
    InsertedOffsets(Inserted(none, a, HEADER_LEN), b, STALE, b);
    var rows := Inserted(Inserted(none, a, HEADER_LEN), b, STALE);
    InsertedOffsets(rows, a, p, b);
    InsertedOffsets(Inserted(rows, a, p), a, q, b);
  }

  lemma EmptyRows(key: string)
    requires |key| >= 3
    ensures OffsetsOf(map[], key) == []
  {
  }

  /** Everything up to the crash and the restart. */
  lemma AfterCrash()
    ensures var s := Exec(Cfg(), Run()[..4]);
      && s.view == LogView([], []) && s.pending == None && s.file.offset == HEADER_LEN
      && s.rows == Inserted(Inserted(map[], Key(LONG_HASH), HEADER_LEN), Key(LOST_HASH), STALE)
  {
    hide FormatLine, LinesText, Inserted, Exec, Key;
    Lengths();
    OneLine(LONG);
    ExecNone(Cfg());
    Added([], LONG);
    var two := [] + [IndexLine(LONG, 1), AppendLine];
    ExecSnoc(Cfg(), two, IndexLine(LOST, 1));
    ExecSnoc(Cfg(), two + [IndexLine(LOST, 1)], Restart(true));
    Reachable(Cfg(), two + [IndexLine(LOST, 1)]);
    assert Run()[..4] == two + [IndexLine(LOST, 1)] + [Restart(true)];
  }

  lemma ExecNone(cfg: Config)
    ensures Exec(cfg, []) == Init(cfg)
  {
  }

  lemma AtTheEnd()
    ensures var s := Exec(Cfg(), Run());
      && s.view == LogView([SHORT, SHORT], [])
      && OffsetsOf(s.rows, Key(LOST_HASH)) == [STALE]
  {
    hide FormatLine, LinesText, Inserted, Exec, Key, OffsetsOf;
    Lengths();
    OneLine(SHORT);
    AfterCrash();
    var pair := [IndexLine(SHORT, 1), AppendLine];
    var four := Run()[..4];
    Added(four, SHORT);
    var none: seq<HistoryObject> := [];
    assert none + [SHORT] == [SHORT];
    Added(four + pair, SHORT);
    ExecSnoc(Cfg(), four + pair + pair, Restart(false));
    assert Run() == four + pair + pair + [Restart(false)];
    assert [] + [SHORT] + [SHORT] == [SHORT, SHORT] && [] + [SHORT, SHORT] == [SHORT, SHORT];
    StaleOffsets(HEADER_LEN, HEADER_LEN + 102);
  }

  /** In this run a search for a hash that no line in the file carries asks for a retry. */
  lemma RetryWithoutLine()
    ensures var s := Exec(Cfg(), Run());
      !Carries(s.view.onDisk, LOST_HASH) && VerdictIn(s, LOST_HASH) == CaseRetry
  {
    hide FormatLine, LinesText, Exec, OffsetsOf, Run, VerdictIn;
    Lengths();
    AtTheEnd();
    SearchIsExact(Cfg(), Run(), LOST_HASH);
    Reachable(Cfg(), Run());
    var s := Exec(Cfg(), Run());
    assert LONG_HASH[0] != LOST_HASH[0];
    StaleIsMisaligned(Cfg().header);
    assert s.view.onDisk == [SHORT, SHORT];
  }

  /** The stale offset falls on the hash of the second short line. */
  lemma StaleIsMisaligned(header: string)
    requires |header| == HEADER_LEN
    ensures Misaligned(header + LinesText([SHORT, SHORT]), STALE)
  {
    hide FormatLine, LinesText;
    Lengths();
    LineShape(SHORT);
    OneLine(SHORT);
    LineAt([SHORT, SHORT], 1);
    assert [SHORT, SHORT][..1] == [SHORT] && [SHORT, SHORT][2..] == [];
    var disk := header + LinesText([SHORT, SHORT]);
    var line := FormatLine(SHORT);
    assert disk == header + line + line;
    assert disk[STALE] == line[50];
    assert disk[HEADER_LEN + 102 + 66] == line[66];
  }

  /** Search, add, and search and add again. */
  function Twice(): seq<Step> {
    [BeginSearch(0, LONG_HASH, true), IndexLine(SHORT, 1), AppendLine,
     BeginSearch(1, LONG_HASH, true), ReadOffset(1), IndexLine(SHORT, 1), AppendLine]
  }

  lemma FirstSearch()
    ensures var s := Exec(Cfg(), [BeginSearch(0, LONG_HASH, true)]);
      && s == Init(Cfg()).(replies := [Reply(LONG_HASH, CasePass, true, [], [])])
      && CanIndex(s, SHORT)
  {
    hide FormatLine, OffsetsOf;
    Lengths();
    EmptyRows(Key(LONG_HASH));
    ExecNone(Cfg());
    var none: seq<Step> := [];
    var step := BeginSearch(0, LONG_HASH, true);
    ExecSnoc(Cfg(), none, step);
    assert none + [step] == [step];
  }

  /** A search for the buffered line reads past the end of the file. */
  lemma SecondSearch(s: State)
    requires s.file.disk == Cfg().header && s.searches == map[] && s.view.onDisk == []
    requires OffsetsOf(s.rows, Key(LONG_HASH)) == [HEADER_LEN]
    ensures var s' := Next(Cfg(), Next(Cfg(), s, BeginSearch(1, LONG_HASH, true)), ReadOffset(1));
      && s'.replies == s.replies + [Reply(LONG_HASH, CasePass, true, [], [])]
      && s'.file == s.file && s'.rows == s.rows && s'.pending == s.pending && s'.view == s.view
  {
    hide OffsetsOf;
    Lengths();
    assert FseekHistoryMessageHash(s.file.disk, HEADER_LEN) == ReadHash(EOF_HASH);
    assert Storable(SHORT);
  }

  lemma OneOffset()
    ensures OffsetsOf(Inserted(map[], Key(LONG_HASH), HEADER_LEN), Key(LONG_HASH)) == [HEADER_LEN]
  {
    hide Inserted;
    EmptyRows(Key(LONG_HASH));
    var none: Rows := map[];
    InsertedOffsets(none, Key(LONG_HASH), HEADER_LEN, Key(LONG_HASH));
  }

  lemma AddedFrame(steps: seq<Step>, o: HistoryObject)
    ensures var s := Exec(Cfg(), steps); var s' := Exec(Cfg(), steps + [IndexLine(o, 1), AppendLine]);
      s'.replies == s.replies && s'.searches == s.searches
  {
    hide Exec, FormatLine, LineWritten, LineAccepted, Inserted;
    ExecSnoc(Cfg(), steps, IndexLine(o, 1));
    ExecSnoc(Cfg(), steps + [IndexLine(o, 1)], AppendLine);
    assert steps + [IndexLine(o, 1)] + [AppendLine] == steps + [IndexLine(o, 1), AppendLine];
  }

  /** In this run both searches pass and the hash is accepted twice. */
  lemma DuplicateAccepted()
    ensures var s := Exec(Cfg(), Twice());
      && |s.replies| == 2 && s.replies[0].code == CasePass && s.replies[1].code == CasePass
      && s.view.Accepted() == [SHORT, SHORT]
  {
    hide Exec, FormatLine, LinesText, Inserted, OffsetsOf, CanIndex, Key;
    Lengths();
    OneLine(SHORT);
    FirstSearch();
    var one := [BeginSearch(0, LONG_HASH, true)];
    var add := [IndexLine(SHORT, 1), AppendLine];
    Added(one, SHORT);
    AddedFrame(one, SHORT);
    var three := one + add;
    var none: seq<HistoryObject> := [];
    assert none + [SHORT] == [SHORT] && none + [SHORT, SHORT] == [SHORT, SHORT] && none + [SHORT] + [SHORT] == [SHORT, SHORT];
    var s := Exec(Cfg(), three);
    Reachable(Cfg(), three);
    OneOffset();
    assert Cfg().header + LinesText(none) == Cfg().header;
    SecondSearch(s);
    ExecSnoc(Cfg(), three, BeginSearch(1, LONG_HASH, true));
    ExecSnoc(Cfg(), three + [BeginSearch(1, LONG_HASH, true)], ReadOffset(1));
    var five := three + [BeginSearch(1, LONG_HASH, true)] + [ReadOffset(1)];
    StillCanIndex(Exec(Cfg(), five));
    Added(five, SHORT);
    AddedFrame(five, SHORT);
    assert Twice() == five + add;
  }

  lemma StillCanIndex(s: State)
    requires s.pending == None && 0 <= s.file.offset <= HEADER_LEN + 102
    ensures CanIndex(s, SHORT)
  {
    hide FormatLine;
    Lengths();
  }
}
