/** history.dat: the line format, the buffered writer that appends to it, and the two readers
    that seek into it. A file is its text; one character stands for one byte. */
module HistoryFile {
  import opened Strconv
  import opened Types

  const ZERO_PAD_LEN := 0xFFF
  const HEADER_LEN := 4096
  const DEF_EXPIRES := "----------"
  const EOF_HASH := "EOF"

  datatype HistoryObject = HistoryObject(hash: string, token: string, arrival: int, expires: int, date: int)

  /** A lowercase hex sha256 sum. */
  predicate IsHash(hash: string) {
    |hash| == HASH_LEN && IsHex(hash)
  }

  /** What the writer is handed: a sha256 hash and a storage token. The brace that opens a line must
      not occur in the token; the documented tokens are F, M and X. */
  predicate Storable(o: HistoryObject) {
    IsHash(o.hash) && o.token != "" && '{' !in o.token
  }

  predicate AllStorable(lines: seq<HistoryObject>) {
    forall i :: 0 <= i < |lines| ==> Storable(lines[i])
  }

  function ExpiresStr(expires: int): (s: string)
    ensures |s| >= 10
    ensures forall c :: c in s ==> c == '-' || IsHexDigit(c)
  {
    if expires > 0 then PadInt(expires, Dec, 10) else DEF_EXPIRES
  }

  function Fields(o: HistoryObject): string {
    PadInt(o.arrival, Dec, 10) + "~" + ExpiresStr(o.expires) + "~" + PadInt(o.date, Dec, 10)
  }

  function FormatLine(o: HistoryObject): (line: string)
    ensures |line| > 0
  {
    "{" + o.hash + "}\t" + Fields(o) + "\t" + o.token + "\n"
  }

  function LinesText(lines: seq<HistoryObject>): string {
    if lines == [] then "" else FormatLine(lines[0]) + LinesText(lines[1..])
  }

  /** Where line n of a file starts, counted from the end of the header. */
  function LineStart(lines: seq<HistoryObject>, n: nat): nat
    requires n <= |lines|
  {
    |LinesText(lines[..n])|
  }

  // ---------------------------------------------------------------------------
  // Readers
  // ---------------------------------------------------------------------------

  /** The first position of c at or after from, or the length of s. */
  function IndexFrom(s: string, c: char, from: nat): (i: nat)
    requires from <= |s|
    ensures from <= i <= |s|
    ensures i < |s| ==> s[i] == c
    ensures forall j :: from <= j < i ==> s[j] != c
    decreases |s| - from
  {
    if from == |s| || s[from] == c then from else IndexFrom(s, c, from + 1)
  }

  /** What FseekHistoryMessageHash leaves in the caller's empty string, or its error. */
  datatype ReadResult = ReadHash(hash: string) | ReadError

  function FseekHistoryMessageHash(disk: string, offset: int): ReadResult {
    if offset <= 0 then ReadError
    else if offset >= |disk| then ReadHash(EOF_HASH)
    else
      var tab := IndexFrom(disk, '\t', offset);
      if tab == |disk| then ReadHash(EOF_HASH)
      else
        var result := disk[offset..tab];
        if result == "" then ReadHash("")
        else if result[0] != '{' || result[|result| - 1] != '}' then ReadError
        else if |result| - 2 == HASH_LEN then ReadHash(result[1..|result| - 1])
        else ReadHash("")
  }

  function FseekHistoryLine(disk: string, offset: int): Option<string> {
    if offset < 0 || offset >= |disk| then None
    else
      var newline := IndexFrom(disk, '\n', offset);
      if newline == |disk| then None
      else if offset > 0 && disk[offset] != '{' then None
      else Some(disk[offset..newline])
  }

  /** What the hash reader can answer: an offset that is not positive is an error, one at or past the end
      reads EOF, and any other answer is a 64-character hash, EOF or nothing. */
  lemma HashReaderEdges(disk: string, offset: int)
    ensures offset <= 0 ==> FseekHistoryMessageHash(disk, offset) == ReadError
    ensures offset > 0 && offset >= |disk| ==> FseekHistoryMessageHash(disk, offset) == ReadHash("EOF")
    ensures match FseekHistoryMessageHash(disk, offset)
      case ReadError => offset < |disk| || offset <= 0
      case ReadHash(h) => |h| == 64 || h == "EOF" || h == ""
  {
  }

  /** The line reader has no line before or past the file, and at offset 0 reads the header's line, which
      need not open with a brace. */
  lemma LineReaderEdges(disk: string, offset: int, newline: nat)
    requires newline < |disk| && disk[newline] == '\n' && '\n' !in disk[..newline]
    ensures offset < 0 || offset >= |disk| ==> FseekHistoryLine(disk, offset) == None
    ensures FseekHistoryLine(disk, 0) == Some(disk[..newline])
  {
    var k := IndexFrom(disk, '\n', 0);
    assert forall i :: 0 <= i < newline ==> disk[i] == disk[..newline][i];
    assert k == newline;
  }

  lemma {:induction false} LinesTextConcat(a: seq<HistoryObject>, b: seq<HistoryObject>)
    ensures LinesText(a + b) == LinesText(a) + LinesText(b)
  {
    hide FormatLine;
    if a == [] {
      assert a + b == b;
    } else {
      LinesTextConcat(a[1..], b);
      TailOfConcat(a, b);
      ConcatAssoc(FormatLine(a[0]), LinesText(a[1..]), LinesText(b));
    }
  }

  lemma LinesTextSnoc(a: seq<HistoryObject>, o: HistoryObject)
    ensures LinesText(a + [o]) == LinesText(a) + FormatLine(o)
  {
    hide FormatLine;
    LinesTextConcat(a, [o]);
    assert [o][1..] == [];
  }

  lemma LineAt(lines: seq<HistoryObject>, n: nat)
    requires n < |lines|
    ensures LinesText(lines) == LinesText(lines[..n]) + FormatLine(lines[n]) + LinesText(lines[n + 1..])
    ensures LineStart(lines, n + 1) == LineStart(lines, n) + |FormatLine(lines[n])| <= |LinesText(lines)|
  {
    hide FormatLine, LinesText;
    LinesTextSnoc(lines[..n], lines[n]);
    assert lines[..n + 1] == lines[..n] + [lines[n]];
    LinesTextConcat(lines[..n + 1], lines[n + 1..]);
    assert lines == lines[..n + 1] + lines[n + 1..];
  }

  /** The shape of a line: one brace at its start, its first tab right after the hash. */
  lemma LineShape(o: HistoryObject)
    requires Storable(o)
    ensures var line := FormatLine(o);
      && |line| > HASH_LEN + 3
      && line[0] == '{' && line[HASH_LEN + 1] == '}' && line[HASH_LEN + 2] == '\t'
      && line[1..HASH_LEN + 1] == o.hash
      && (forall i :: 1 <= i < |line| ==> line[i] != '{')
      && (forall i :: 0 <= i < HASH_LEN + 2 ==> line[i] != '\t')
  {
    hide PadInt, ExpiresStr;
    var line := FormatLine(o);
    var tail := Fields(o) + "\t" + o.token + "\n";
    assert line == "{" + o.hash + "}\t" + tail;
    assert forall i :: 1 <= i < HASH_LEN + 1 ==> line[i] == o.hash[i - 1];
    assert '{' !in tail by {
      assert forall c :: c in Fields(o) ==> c == '-' || c == '~' || IsHexDigit(c);
    }
    assert forall i :: HASH_LEN + 3 <= i < |line| ==> line[i] == tail[i - HASH_LEN - 3];
  }

  /** A brace in the body of a file opens a line. */
  lemma {:induction false} BraceOpensLine(lines: seq<HistoryObject>, p: nat) returns (n: nat)
    requires AllStorable(lines)
    requires p < |LinesText(lines)| && LinesText(lines)[p] == '{'
    ensures n < |lines| && LineStart(lines, n) == p
  {
    hide FormatLine;
    var first := FormatLine(lines[0]);
    LineShape(lines[0]);
    if p < |first| {
      n := 0;
      assert lines[..0] == [];
    } else {
      var m := BraceOpensLine(lines[1..], p - |first|);
      n := m + 1;
      assert lines[..n] == [lines[0]] + lines[1..][..m];
    }
  }

  lemma ReadAtLine(pre: string, o: HistoryObject, rest: string)
    requires pre != "" && Storable(o)
    ensures FseekHistoryMessageHash(pre + FormatLine(o) + rest, |pre|) == ReadHash(o.hash)
  {
    hide FormatLine;
    var disk := pre + FormatLine(o) + rest;
    var p := |pre|;
    LineShape(o);
    assert forall i :: 0 <= i < |FormatLine(o)| ==> disk[p + i] == FormatLine(o)[i];
    assert IndexFrom(disk, '\t', p) == p + HASH_LEN + 2 by {
      assert forall j :: p <= j < p + HASH_LEN + 2 ==> disk[j] == FormatLine(o)[j - p];
    }
    var result := disk[p..p + HASH_LEN + 2];
    assert result == FormatLine(o)[..HASH_LEN + 2];
    assert result[1..|result| - 1] == o.hash;
  }

  /** Seeking to the start of line n reads the hash of line n, whatever the lengths of the lines. */
  lemma ReadNthHash(header: string, lines: seq<HistoryObject>, n: nat)
    requires |header| == HEADER_LEN && AllStorable(lines) && n < |lines|
    ensures FseekHistoryMessageHash(header + LinesText(lines), HEADER_LEN + LineStart(lines, n))
         == ReadHash(lines[n].hash)
  {
    hide FormatLine, LinesText, FseekHistoryMessageHash;
    LineAt(lines, n);
    var pre := header + LinesText(lines[..n]);
    assert header + LinesText(lines) == pre + FormatLine(lines[n]) + LinesText(lines[n + 1..]);
    ReadAtLine(pre, lines[n], LinesText(lines[n + 1..]));
  }

  ghost predicate StartsLine(lines: seq<HistoryObject>, offset: int, n: nat) {
    n < |lines| && offset == HEADER_LEN + LineStart(lines, n)
  }

  /** An offset between line starts, on a character other than a tab, with a tab still to come:
      the source's BAD line. */
  predicate Misaligned(disk: string, offset: int) {
    && 0 < offset < |disk|
    && disk[offset] != '{' && disk[offset] != '\t'
    && IndexFrom(disk, '\t', offset) < |disk|
  }

  lemma BraceAtStart(header: string, lines: seq<HistoryObject>, n: nat)
    requires |header| == HEADER_LEN && AllStorable(lines) && n < |lines|
    ensures var p := HEADER_LEN + LineStart(lines, n);
      p < |header + LinesText(lines)| && (header + LinesText(lines))[p] == '{'
  {
    hide FormatLine, LinesText;
    LineAt(lines, n);
    LineShape(lines[n]);
    assert LinesText(lines)[LineStart(lines, n)] == FormatLine(lines[n])[0];
  }

  /** Seeking anywhere past the header finds a 64-character hash exactly when the offset is the start
      of a line carrying it, and fails exactly when the offset is misaligned. */
  lemma ReadExact(header: string, lines: seq<HistoryObject>, offset: int, hash: string)
    requires |header| == HEADER_LEN && AllStorable(lines) && offset >= HEADER_LEN && |hash| == HASH_LEN
    ensures var disk := header + LinesText(lines);
      && (FseekHistoryMessageHash(disk, offset) == ReadHash(hash)
          <==> exists n: nat :: StartsLine(lines, offset, n) && lines[n].hash == hash)
      && (FseekHistoryMessageHash(disk, offset) == ReadError <==> Misaligned(disk, offset))
  {
    hide FormatLine, LinesText;
    var disk := header + LinesText(lines);
    if offset < |disk| && disk[offset] == '{' {
      var m := BraceOpensLine(lines, offset - HEADER_LEN);
      assert StartsLine(lines, offset, m);
      ReadNthHash(header, lines, m);
      forall n: nat | StartsLine(lines, offset, n)
        ensures lines[n].hash == lines[m].hash
      {
        ReadNthHash(header, lines, n);
      }
    } else {
      forall n: nat | StartsLine(lines, offset, n)
        ensures false
      {
        BraceAtStart(header, lines, n);
      }
    }
  }

  /** Seeking to the start of line n with the line reader gives that line without its newline. */
  lemma ReadNthLine(header: string, lines: seq<HistoryObject>, n: nat)
    requires |header| == HEADER_LEN && AllStorable(lines) && n < |lines|
    requires '\n' !in lines[n].token
    ensures var line := FormatLine(lines[n]);
      FseekHistoryLine(header + LinesText(lines), HEADER_LEN + LineStart(lines, n)) == Some(line[..|line| - 1])
  {
    hide FormatLine, LinesText, FseekHistoryLine;
    LineAt(lines, n);
    var pre := header + LinesText(lines[..n]);
    assert header + LinesText(lines) == pre + FormatLine(lines[n]) + LinesText(lines[n + 1..]);
    LineShape(lines[n]);
    NewlineEndsLine(lines[n]);
    ReadLineAt(pre, FormatLine(lines[n]), LinesText(lines[n + 1..]));
  }

  lemma ReadLineAt(pre: string, line: string, rest: string)
    requires line != "" && line[0] == '{' && line[|line| - 1] == '\n'
    requires forall i :: 0 <= i < |line| - 1 ==> line[i] != '\n'
    ensures FseekHistoryLine(pre + line + rest, |pre|) == Some(line[..|line| - 1])
  {
    var disk, p := pre + line + rest, |pre|;
    assert forall i :: 0 <= i < |line| ==> disk[p + i] == line[i];
    assert IndexFrom(disk, '\n', p) == p + |line| - 1 by {
      assert forall j :: p <= j < p + |line| - 1 ==> disk[j] == line[j - p];
      assert disk[p + |line| - 1] == '\n';
    }
    assert disk[p..p + |line| - 1] == line[..|line| - 1];
  }

  lemma NewlineEndsLine(o: HistoryObject)
    requires Storable(o) && '\n' !in o.token
    ensures var line := FormatLine(o);
      && line[|line| - 1] == '\n'
      && forall i :: 0 <= i < |line| - 1 ==> line[i] != '\n'
  {
    hide PadInt, ExpiresStr;
    var body := "{" + o.hash + "}\t" + Fields(o) + "\t" + o.token;
    assert FormatLine(o) == body + "\n";
    assert '\n' !in o.hash;
    assert forall c :: c in Fields(o) ==> c == '-' || c == '~' || IsHexDigit(c);
    assert '\n' !in body;
  }

  /** The line reader past the header answers a line exactly at the start of a line. */
  lemma LineReadExact(header: string, lines: seq<HistoryObject>, offset: int)
    requires |header| == HEADER_LEN && AllStorable(lines) && offset >= HEADER_LEN
    ensures FseekHistoryLine(header + LinesText(lines), offset).Some? <==> exists n: nat :: StartsLine(lines, offset, n)
  {
    hide FormatLine, LinesText;
    var disk := header + LinesText(lines);
    if offset < |disk| && disk[offset] == '{' {
      var m := BraceOpensLine(lines, offset - HEADER_LEN);
      assert StartsLine(lines, offset, m);
      LineEnds(header, lines, m);
    } else {
      forall n: nat | StartsLine(lines, offset, n)
        ensures false
      {
        BraceAtStart(header, lines, n);
      }
    }
  }

  lemma LineEnds(header: string, lines: seq<HistoryObject>, n: nat)
    requires |header| == HEADER_LEN && AllStorable(lines) && n < |lines|
    ensures var disk := header + LinesText(lines); var p := HEADER_LEN + LineStart(lines, n);
      p <= |disk| && IndexFrom(disk, '\n', p) < |disk|
  {
    hide FormatLine, LinesText;
    LineAt(lines, n);
    EndsInNewline(lines[n]);
    var disk := header + LinesText(lines);
    assert disk[HEADER_LEN + LineStart(lines, n) + |FormatLine(lines[n])| - 1] == '\n';
  }

  lemma EndsInNewline(o: HistoryObject)
    ensures FormatLine(o)[|FormatLine(o)| - 1] == '\n'
  {
    hide PadInt, ExpiresStr;
  }

  // ---------------------------------------------------------------------------
  // What a reader gets back
  // ---------------------------------------------------------------------------

  /** The documented tokens F, M and X, and any other text that does not break a line. */
  predicate PlainToken(token: string) {
    token != "" && '{' !in token && '\t' !in token && '\n' !in token
  }

  /** A line without its newline, split at tabs and its middle at '~', holds these fields; a line that
      never expires has ten dashes, which are no number. */
  ghost predicate HoldsFields(text: string, hash: string, token: string, arrival: int, expires: int, date: int) {
    var parts := Split(text, '\t');
    && |parts| == 3 && parts[0] == "{" + hash + "}" && parts[2] == token
    && HoldsTimes(Split(parts[1], '~'), arrival, expires, date)
  }

  ghost predicate HoldsTimes(times: seq<string>, arrival: int, expires: int, date: int) {
    && |times| == 3
    && ParseInt(times[0], Dec) == Some(arrival)
    && ParseInt(times[1], Dec) == (if expires > 0 then Some(expires) else None)
    && (expires <= 0 ==> times[1] == "----------")
    && ParseInt(times[2], Dec) == Some(date)
  }

  lemma DashesAreNoNumber()
    ensures ParseInt("----------", Dec) == None
  {
    var digits := "----------"[1..];
    assert DigitValue(digits[|digits| - 1]) == 99;
    assert ParseDigits(digits, Dec) == None;
  }

  lemma TimesReadBack(o: HistoryObject)
    requires IsInt64(o.arrival) && IsInt64(o.expires) && IsInt64(o.date)
    ensures HoldsTimes(Split(Fields(o), '~'), o.arrival, o.expires, o.date)
  {
    hide PadInt, ParseInt, Split;
    var a, e, d := PadInt(o.arrival, Dec, 10), ExpiresStr(o.expires), PadInt(o.date, Dec, 10);
    ParsePadded(o.arrival, Dec, 10);
    ParsePadded(o.expires, Dec, 10);
    ParsePadded(o.date, Dec, 10);
    DashesAreNoNumber();
    assert '~' !in a && '~' !in e && '~' !in d;
    SplitWhole(d, '~');
    SplitFirst(e, d, '~');
    SplitFirst(a, e + "~" + d, '~');
    assert Fields(o) == a + ['~'] + (e + "~" + d);
  }

  lemma FieldsReadBack(o: HistoryObject)
    requires IsHash(o.hash) && PlainToken(o.token)
    requires IsInt64(o.arrival) && IsInt64(o.expires) && IsInt64(o.date)
    ensures HoldsFields(FormatLine(o)[..|FormatLine(o)| - 1], o.hash, o.token, o.arrival, o.expires, o.date)
  {
    hide PadInt, ParseInt, Split, ExpiresStr, HoldsTimes;
    var head := "{" + o.hash + "}";
    TimesReadBack(o);
    assert '\t' !in head && '\t' !in Fields(o) by {
      assert forall c :: c in Fields(o) ==> c == '-' || c == '~' || IsHexDigit(c);
      assert '\t' !in o.hash;
    }
    SplitWhole(o.token, '\t');
    SplitFirst(Fields(o), o.token, '\t');
    SplitFirst(head, Fields(o) + "\t" + o.token, '\t');
    assert FormatLine(o)[..|FormatLine(o)| - 1] == head + ['\t'] + (Fields(o) + "\t" + o.token);
  }

  /** Reading a line at its start gives text that holds every field the line was written with. */
  lemma LineReadsBack(header: string, lines: seq<HistoryObject>, n: nat)
    requires |header| == HEADER_LEN && AllStorable(lines) && n < |lines|
    requires PlainToken(lines[n].token)
    requires IsInt64(lines[n].arrival) && IsInt64(lines[n].expires) && IsInt64(lines[n].date)
    ensures var o := lines[n]; var text := FseekHistoryLine(header + LinesText(lines), HEADER_LEN + LineStart(lines, n));
      text.Some? && HoldsFields(text.value, o.hash, o.token, o.arrival, o.expires, o.date)
  {
    hide FormatLine, LinesText, FseekHistoryLine, HoldsFields, IsHash;
    ReadNthLine(header, lines, n);
    FieldsReadBack(lines[n]);
  }

  // ---------------------------------------------------------------------------
  // Fixed-length lines
  // ---------------------------------------------------------------------------

  predicate FitsTenDigits(n: int) {
    -1_000_000_000 < n < 10_000_000_000
  }

  lemma TenDigits(n: int)
    ensures |PadInt(n, Dec, 10)| == 10 <==> FitsTenDigits(n)
  {
    hide PadInt;
    PadIntWidth(n, Dec, 10);
    assert Dec.Power(4) == 10_000;
    assert Dec.Power(8) == 100_000_000;
    assert Dec.Power(9) == 1_000_000_000;
  }

  /** A sha256 line is the documented 102 bytes exactly when its token is one character and every
      field fits ten digits. */
  lemma LineIs102(o: HistoryObject)
    requires Storable(o)
    ensures |FormatLine(o)| == 102 <==>
      && |o.token| == 1
      && FitsTenDigits(o.arrival) && FitsTenDigits(o.date)
      && (o.expires > 0 ==> FitsTenDigits(o.expires))
  {
    hide PadInt;
    TenDigits(o.arrival);
    TenDigits(o.date);
    TenDigits(o.expires);
    assert |FormatLine(o)| == HASH_LEN + 5 + |Fields(o)| + |o.token|;
    assert |Fields(o)| == |PadInt(o.arrival, Dec, 10)| + |ExpiresStr(o.expires)| + |PadInt(o.date, Dec, 10)| + 2;
  }

  /** All lines have length len. */
  predicate Uniform(lines: seq<HistoryObject>, len: nat) {
    forall i :: 0 <= i < |lines| ==> |FormatLine(lines[i])| == len
  }

  lemma {:induction false} UniformLength(lines: seq<HistoryObject>, len: nat)
    requires Uniform(lines, len)
    ensures |LinesText(lines)| == len * |lines|
  {
    hide FormatLine;
    if lines != [] {
      UniformLength(lines[1..], len);
      assert len * |lines| == len + len * (|lines| - 1);
    }
  }

  /** With 102-byte lines, line n is found at 4096 + 102 n by both readers. */
  lemma NthLineAt102(header: string, lines: seq<HistoryObject>, n: nat)
    requires |header| == HEADER_LEN && AllStorable(lines) && Uniform(lines, 102) && n < |lines|
    ensures var disk := header + LinesText(lines);
      && FseekHistoryMessageHash(disk, 4096 + 102 * n) == ReadHash(lines[n].hash)
      && ('\n' !in lines[n].token ==>
           FseekHistoryLine(disk, 4096 + 102 * n) == Some(FormatLine(lines[n])[..101]))
  {
    hide FormatLine, LinesText, FseekHistoryMessageHash, FseekHistoryLine;
    UniformLength(lines[..n], 102);
    ReadNthHash(header, lines, n);
    if '\n' !in lines[n].token {
      ReadNthLine(header, lines, n);
    }
  }

  // ---------------------------------------------------------------------------
  // The buffered writer
  // ---------------------------------------------------------------------------

  /** What is in the file, what bufio still holds, and the offset the next line is indexed under. */
  datatype FileState = FileState(disk: string, buf: string, offset: int)

  /** bufio.NewWriterSize replaces a size that is not positive by its default. */
  function BufSize(bufmax: int): nat {
    if bufmax <= 0 then 4096 else bufmax
  }

  function Flushed(s: FileState): FileState {
    FileState(s.disk + s.buf, "", s.offset)
  }

  function Checked(s: FileState, bufmax: int, lenline: nat): FileState {
    if |s.buf| + lenline >= bufmax then Flushed(s) else s
  }

  /** One line through the buffer: after the check it fits, or it is too long for an empty buffer
      and goes to the file directly. */
  function LineWritten(s: FileState, bufmax: int, line: string): (r: FileState)
    ensures r.disk + r.buf == s.disk + s.buf + line
    ensures |s.buf| <= BufSize(bufmax) ==> |r.buf| <= BufSize(bufmax)
  {
    var c := Checked(s, bufmax, |line|);
    if |c.buf| + |line| <= BufSize(bufmax) then
      assert c.disk + (c.buf + line) == c.disk + c.buf + line;
      FileState(c.disk, c.buf + line, c.offset + |line|)
    else
      assert c.buf == "";
      FileState(c.disk + line, "", c.offset + |line|)
  }

  lemma Rendered(o: HistoryObject)
    ensures FormatLine(o) == "{" + o.hash + "}\t" + PadInt(o.arrival, Dec, 10) + "~" + ExpiresStr(o.expires) + "~"
                             + PadInt(o.date, Dec, 10) + "\t" + o.token + "\n"
  {
    hide PadInt, ExpiresStr;
  }

  class HistoryDat {
    const bufmax: int
    var disk: string
    var buf: string
    var offset: int

    ghost predicate Valid()
      reads this
    {
      |buf| <= BufSize(bufmax) && offset >= 0
    }

    ghost function State(): FileState
      reads this
    {
      FileState(disk, buf, offset)
    }

    /** Opens the file; the writer takes its size as the next offset. */
    constructor (bufmax: int, existing: string)
      ensures Valid() && this.bufmax == bufmax
      ensures State() == FileState(existing, "", |existing|)
    {
      this.bufmax := bufmax;
      disk, buf, offset := existing, "", |existing|;
    }

    method Flush()
      modifies this
      ensures State() == Flushed(old(State()))
      ensures disk == old(disk) + old(buf) && buf == "" && offset == old(offset)
    {
      disk := disk + buf;
      buf := "";
    }

    /** bufio.Writer.WriteString: fill and flush while the text does not fit, but hand it to the file
        directly when nothing is buffered. */
    method WriteString(text: string) returns (wb: nat)
      requires Valid()
      modifies this
      ensures Valid() && wb == |text| && offset == old(offset)
      ensures disk + buf == old(disk) + old(buf) + text
      ensures |old(buf)| + |text| <= (if bufmax > 0 then bufmax else 4096) ==> disk == old(disk) && buf == old(buf) + text
      ensures old(buf) == "" && |text| > (if bufmax > 0 then bufmax else 4096) ==> disk == old(disk) + text && buf == ""
    {
      var rest := text;
      wb := 0;
      while |rest| > BufSize(bufmax) - |buf|
        invariant Valid() && wb + |rest| == |text| && offset == old(offset)
        invariant disk + buf + rest == old(disk) + old(buf) + text
        invariant || (disk == old(disk) && buf == old(buf) && rest == text)
                  || (buf == "" && |old(buf)| + |text| > BufSize(bufmax)
                      && (old(buf) == "" ==> rest == "" && disk == old(disk) + text))
        decreases |rest|, |buf|
      {
        var n;
        if |buf| == 0 {
          n := |rest|;
          assert disk + rest + "" + "" == disk + buf + rest;
          disk := disk + rest;
        } else {
          n := BufSize(bufmax) - |buf|;
          assert disk + (buf + rest[..n]) + "" + rest[n..] == disk + buf + rest;
          buf := buf + rest[..n];
          Flush();
        }
        wb := wb + n;
        rest := rest[n..];
      }
      assert disk + (buf + rest) == disk + buf + rest;
      assert rest == "" ==> buf + rest == buf;
      buf := buf + rest;
      wb := wb + |rest|;
    }

    method CheckBufioWriteBuffer(lenline: nat)
      modifies this
      ensures State() == Checked(old(State()), bufmax, lenline)
      ensures |old(buf)| + lenline >= bufmax ==> disk == old(disk) + old(buf) && buf == ""
      ensures |old(buf)| + lenline < bufmax ==> disk == old(disk) && buf == old(buf)
    {
      if |buf| + lenline >= bufmax {
        Flush();
      }
    }

    method WriteHistoryLine(hobj: HistoryObject, flush: bool)
      requires Valid()
      modifies this
      ensures Valid()
      ensures var written := LineWritten(old(State()), bufmax, FormatLine(hobj));
        State() == if flush then Flushed(written) else written
    {
      hide FormatLine, PadInt;
      var expiresStr := DEF_EXPIRES;
      if hobj.expires > 0 {
        expiresStr := PadInt(hobj.expires, Dec, 10);
      }
      var line := "{" + hobj.hash + "}\t" + PadInt(hobj.arrival, Dec, 10) + "~" + expiresStr + "~"
        + PadInt(hobj.date, Dec, 10) + "\t" + hobj.token + "\n";
      Rendered(hobj);
      CheckBufioWriteBuffer(|line|);
      var wb := WriteString(line);
      offset := offset + wb;
      if flush {
        Flush();
      }
    }

    /** The header is accepted only at its padded length; it is written and flushed with a newline. */
    method WriteHistoryHeader(data: string, flush: bool) returns (ok: bool)
      requires Valid()
      modifies this
      ensures Valid() && (ok <==> |data| == ZERO_PAD_LEN)
      ensures !ok ==> State() == old(State())
      ensures ok ==> disk + buf == old(disk + buf) + data + "\n" && offset == old(offset) + HEADER_LEN
      ensures ok && flush ==> buf == ""
    {
      if |data| != ZERO_PAD_LEN {
        return false;
      }
      var wb := WriteString(data + "\n");
      if flush {
        Flush();
      }
      offset := offset + wb;
      return true;
    }
  }

  // ---------------------------------------------------------------------------
  // The file as a list of lines
  // ---------------------------------------------------------------------------

  /** The accepted lines: those wholly in the file, and those wholly in the buffer. */
  datatype LogView = LogView(onDisk: seq<HistoryObject>, inBuf: seq<HistoryObject>) {
    function Accepted(): seq<HistoryObject> {
      onDisk + inBuf
    }
  }

  ghost predicate Represents(header: string, view: LogView, s: FileState) {
    && s.disk == header + LinesText(view.onDisk)
    && s.buf == LinesText(view.inBuf)
    && s.offset == |s.disk| + |s.buf|
  }

  function ViewFlushed(view: LogView): LogView {
    LogView(view.Accepted(), [])
  }

  function LineAccepted(view: LogView, bufmax: int, o: HistoryObject): LogView {
    var len := |FormatLine(o)|;
    var checked := if |LinesText(view.inBuf)| + len >= bufmax then ViewFlushed(view) else view;
    if |LinesText(checked.inBuf)| + len <= BufSize(bufmax)
    then LogView(checked.onDisk, checked.inBuf + [o])
    else LogView(checked.onDisk + [o], checked.inBuf)
  }

  lemma NoLines()
    ensures LinesText([]) == ""
  {
  }

  lemma FlushKeepsLines(header: string, view: LogView, s: FileState)
    requires Represents(header, view, s)
    ensures Represents(header, ViewFlushed(view), Flushed(s))
  {
    hide LinesText;
    NoLines();
    LinesTextConcat(view.onDisk, view.inBuf);
    assert header + LinesText(view.Accepted()) == s.disk + s.buf;
  }

  /** Neither the flush in the length check nor the write that follows ever splits a line, for lines
      and buffers of any length; the new line is accepted behind all others. */
  lemma WriteKeepsLines(header: string, view: LogView, s: FileState, bufmax: int, o: HistoryObject)
    requires Represents(header, view, s)
    ensures var view' := LineAccepted(view, bufmax, o);
      && Represents(header, view', LineWritten(s, bufmax, FormatLine(o)))
      && view'.Accepted() == view.Accepted() + [o]
      && view.onDisk <= view'.onDisk
  {
    hide FormatLine, LinesText;
    var line := FormatLine(o);
    var c := Checked(s, bufmax, |line|);
    var checked := if |s.buf| + |line| >= bufmax then ViewFlushed(view) else view;
    NoLines();
    FlushKeepsLines(header, view, s);
    assert Represents(header, checked, c);
    assert checked.Accepted() == view.Accepted();
    LinesTextSnoc(checked.inBuf, o);
    LinesTextSnoc(checked.onDisk, o);
    assert checked.inBuf + [o] == [o] || checked.inBuf != [];
    if |c.buf| + |line| > BufSize(bufmax) {
      assert checked.inBuf == [];
      assert checked.onDisk + [o] + [] == checked.Accepted() + [o];
    }
  }

  function WriteAll(s: FileState, bufmax: int, lines: seq<HistoryObject>): FileState {
    if lines == [] then s
    else LineWritten(WriteAll(s, bufmax, lines[..|lines| - 1]), bufmax, FormatLine(lines[|lines| - 1]))
  }

  /** After any lines were written to a fresh file, the file is the header and the first k of them,
      the buffer is the others, and the offset is the length of both. */
  lemma {:induction false} FileIsWholeLines(header: string, bufmax: int, lines: seq<HistoryObject>)
    returns (view: LogView)
    ensures Represents(header, view, WriteAll(FileState(header, "", |header|), bufmax, lines))
    ensures view.Accepted() == lines
  {
    hide FormatLine, LinesText, LineWritten, LineAccepted;
    NoLines();
    if lines == [] {
      view := LogView([], []);
    } else {
      var before := lines[..|lines| - 1];
      var view0 := FileIsWholeLines(header, bufmax, before);
      var last := lines[|lines| - 1];
      var s := WriteAll(FileState(header, "", |header|), bufmax, before);
      WriteKeepsLines(header, view0, s, bufmax, last);
      view := LineAccepted(view0, bufmax, last);
      assert lines == before + [last];
    }
  }

  /** The most lines of a fixed length a buffer of that many lines keeps off disk. */
  function MaxPending(buflines: int): nat {
    if buflines <= 2 then 1 else buflines - 1
  }

  /** With lines of one length and a buffer of buflines lines, at most buflines - 1 lines (never
      fewer than one) wait in the buffer. */
  lemma PendingBound(view: LogView, len: nat, buflines: int, o: HistoryObject)
    requires Uniform(view.inBuf, len) && |FormatLine(o)| == len
    requires |view.inBuf| <= MaxPending(buflines)
    ensures |LineAccepted(view, len * buflines, o).inBuf| <= MaxPending(buflines)
  {
    hide FormatLine, LinesText;
    var b := |view.inBuf|;
    UniformLength(view.inBuf, len);
    assert len * b + len == len * (b + 1);
    if b + 1 >= buflines {
      assert len * (b + 1) >= len * buflines;
    }
  }
}
