/** Offset lists as comma-terminated text: the int64 list codec, and the SQL store that
    keeps every offset of a key in one growing text column. */
module OffsetText {
  import opened Strconv

  function CommaText(parts: seq<string>): string {
    if parts == [] then "" else parts[0] + [','] + CommaText(parts[1..])
  }

  function Formatted(offsets: seq<int>, base: Radix): (parts: seq<string>)
    ensures |parts| == |offsets| && forall i :: 0 <= i < |parts| ==> parts[i] == FormatInt(offsets[i], base)
  {
    seq(|offsets|, i requires 0 <= i < |offsets| => FormatInt(offsets[i], base))
  }

  /** Every number followed by a comma, the form both stores keep on disk. */
  function CommaList(offsets: seq<int>, base: Radix): string
  {
    CommaText(Formatted(offsets, base))
  }

  /** strings.Join with a comma. */
  function JoinComma(parts: seq<string>): string {
    if parts == [] then "" else if |parts| == 1 then parts[0]
    else parts[0] + [','] + JoinComma(parts[1..])
  }

  lemma {:induction false} JoinIsCommaText(parts: seq<string>)
    requires parts != []
    ensures JoinComma(parts) + [','] == CommaText(parts)
  {
    if |parts| == 1 {
      assert CommaText(parts[1..]) == "";
    } else {
      JoinIsCommaText(parts[1..]);
      assert parts[0] + [','] + JoinComma(parts[1..]) + [','] == parts[0] + [','] + (JoinComma(parts[1..]) + [',']);
    }
  }

  lemma {:induction false} CommaTextConcat(a: seq<string>, b: seq<string>)
    ensures CommaText(a + b) == CommaText(a) + CommaText(b)
  {
    if a == [] {
      assert a + b == b;
    } else {
      CommaTextConcat(a[1..], b);
      TailOfConcat(a, b);
      ConcatAssoc(a[0] + [','], CommaText(a[1..]), CommaText(b));
    }
  }

  lemma {:induction false} SplitCommaText(parts: seq<string>)
    requires forall i :: 0 <= i < |parts| ==> ',' !in parts[i]
    ensures Split(CommaText(parts), ',') == parts + [""]
  {
    if parts != [] {
      SplitCommaText(parts[1..]);
      SplitFirst(parts[0], CommaText(parts[1..]), ',');
      assert parts == [parts[0]] + parts[1..];
    }
  }

  // ---------------------------------------------------------------------------
  // The int64 list codec
  // ---------------------------------------------------------------------------

  function Base(hex: bool): Radix {
    if hex then Hex else Dec
  }

  method ConcatInt64(input: seq<int>, hex: bool) returns (output: string, ok: bool)
    ensures ok <==> input != []
    ensures ok ==> output == CommaList(input, Base(hex))
  {
    hide FormatInt, JoinComma, CommaText;
    output := "";
    if input == [] {
      return "", false;
    }
    var strSlice: seq<string> := [];
    var i := 0;
    while i < |input|
      invariant 0 <= i <= |input|
      invariant strSlice == Formatted(input[..i], Base(hex))
    {
      if hex {
        strSlice := strSlice + [FormatInt(input[i], Hex)];
      } else {
        strSlice := strSlice + [FormatInt(input[i], Dec)];
      }
      i := i + 1;
    }
    assert input[..i] == input;
    JoinIsCommaText(strSlice);
    output := JoinComma(strSlice) + [','];
    ok := true;
  }

  /** The numbers read before the first part that is not one, and whether all parts were. */
  function ParseParts(parts: seq<string>, base: Radix): (seq<int>, bool) {
    if parts == [] then ([], true)
    else if parts[0] == "" then ParseParts(parts[1..], base)
    else
      match ParseInt(parts[0], base)
      case None => ([], false)
      case Some(n) => var (ns, ok) := ParseParts(parts[1..], base); ([n] + ns, ok)
  }

  /** The decoder rejects text that does not end in a comma before reading anything. */
  function ParseText(input: string, base: Radix): (seq<int>, bool)
    requires input != ""
  {
    if input[|input| - 1] != ',' then ([], false) else ParseParts(Split(input, ','), base)
  }

  /** Numbers are appended to what the caller's slice held; a bad part leaves the ones before it. None
      is Go's nil, an error. The source indexes the last byte of any other input unchecked, so empty
      input that is not nil is the caller's error. */
  method ParseByteToSlice(bytes: Option<string>, hex: bool, prior: seq<int>) returns (result: seq<int>, ok: bool)
    requires bytes != Some("")
    ensures bytes.None? ==> result == prior && !ok
    ensures bytes.Some? ==> result == prior + ParseText(bytes.value, Base(hex)).0
    ensures bytes.Some? ==> ok == ParseText(bytes.value, Base(hex)).1
  {
    hide ParseInt, Split;
    result := prior;
    if bytes.None? {
      return prior, false;
    }
    var input := bytes.value;
    if input[|input| - 1] != ',' {
      return prior, false;
    }
    var parts := Split(input, ',');
    var i := 0;
    while i < |parts|
      invariant 0 <= i <= |parts|
      invariant var rest := ParseParts(parts[i..], Base(hex));
        && prior + ParseParts(parts, Base(hex)).0 == result + rest.0
        && ParseParts(parts, Base(hex)).1 == rest.1
    {
      var part := parts[i];
      assert parts[i..][1..] == parts[i + 1..];
      i := i + 1;
      if |part| != 0 {
        var value := ParseInt(part, Base(hex));
        if value.None? {
          return result, false;
        }
        result := result + [value.value];
      }
    }
    ok := true;
  }

  /** Parts that read as the given numbers, in order. */
  ghost predicate Reads(parts: seq<string>, ns: seq<int>, base: Radix) {
    |parts| == |ns| && forall i :: 0 <= i < |parts| ==> parts[i] != "" && ParseInt(parts[i], base) == Some(ns[i])
  }

  lemma {:induction false} ParseReads(parts: seq<string>, ns: seq<int>, base: Radix)
    requires Reads(parts, ns, base)
    ensures ParseParts(parts + [""], base) == (ns, true)
  {
    hide ParseInt;
    var all := parts + [""];
    if parts == [] {
      assert all[1..] == [];
    } else {
      ParseReads(parts[1..], ns[1..], base);
      assert all[1..] == parts[1..] + [""];
      assert ns == [ns[0]] + ns[1..];
    }
  }

  ghost predicate AllInt64(ns: seq<int>) {
    forall i :: 0 <= i < |ns| ==> IsInt64(ns[i])
  }

  lemma FormattedReads(ns: seq<int>, base: Radix)
    requires AllInt64(ns)
    ensures Reads(Formatted(ns, base), ns, base)
  {
    forall i | 0 <= i < |ns|
      ensures ParseInt(Formatted(ns, base)[i], base) == Some(ns[i])
    {
      ParseFormatInt(ns[i], base);
    }
  }

  lemma CommaListConcat(a: seq<int>, b: seq<int>, base: Radix)
    ensures CommaList(a + b, base) == CommaList(a, base) + CommaList(b, base)
  {
    hide FormatInt, CommaText;
    var x, y := Formatted(a, base), Formatted(b, base);
    assert Formatted(a + b, base) == x + y;
    CommaTextConcat(x, y);
  }

  function Flat(lists: seq<seq<int>>): seq<int> {
    if lists == [] then [] else lists[0] + Flat(lists[1..])
  }

  /** The encodings of several lists, one after the other. */
  function Encodings(lists: seq<seq<int>>, hex: bool): string {
    if lists == [] then "" else CommaList(lists[0], Base(hex)) + Encodings(lists[1..], hex)
  }

  lemma {:induction false} EncodingsOfFlat(lists: seq<seq<int>>, hex: bool)
    requires forall l :: l in lists ==> AllInt64(l)
    ensures Encodings(lists, hex) == CommaList(Flat(lists), Base(hex))
    ensures AllInt64(Flat(lists))
  {
    if lists != [] {
      var head, rest := lists[0], Flat(lists[1..]);
      assert head in lists;
      EncodingsOfFlat(lists[1..], hex);
      CommaListConcat(head, rest, Base(hex));
    }
  }

  /** Decoding concatenated encodings yields the concatenated lists, for any number of non-empty
      int64 lists in either base; with one list this is the plain round trip. */
  lemma ParseConcatInt64(lists: seq<seq<int>>, hex: bool)
    requires lists != []
    requires forall l :: l in lists ==> l != [] && AllInt64(l)
    ensures Encodings(lists, hex) != ""
    ensures ParseText(Encodings(lists, hex), Base(hex)) == (Flat(lists), true)
  {
    hide FormatInt, ParseInt;
    var parts := Formatted(Flat(lists), Base(hex));
    EncodingsOfFlat(lists, hex);
    assert lists[0] in lists;
    JoinIsCommaText(parts);
    SplitCommaText(parts);
    FormattedReads(Flat(lists), Base(hex));
    ParseReads(parts, Flat(lists), Base(hex));
  }

  /** Up to its first part that is neither empty nor an int64, any text yields the numbers of its other
      parts in order, and it is read whole exactly when it ends in a comma and has no such part. */
  lemma {:induction false} ParseStops(parts: seq<string>, base: Radix) returns (stop: nat)
    ensures stop <= |parts|
    ensures ParseParts(parts, base) == (Numbers(parts[..stop], base), stop == |parts|)
    ensures forall i :: 0 <= i < stop ==> parts[i] == "" || ParseInt(parts[i], base).Some?
    ensures stop < |parts| ==> parts[stop] != "" && ParseInt(parts[stop], base) == None
  {
    hide ParseInt;
    EmptyIsNoNumber(base);
    stop := 0;
    if parts != [] && (parts[0] == "" || ParseInt(parts[0], base).Some?) {
      var rest := ParseStops(parts[1..], base);
      stop := rest + 1;
      PartRead(parts, base);
      assert parts[..stop][1..] == parts[1..][..rest];
      assert parts[..stop][0] == parts[0];
    }
  }

  lemma PartRead(parts: seq<string>, base: Radix)
    requires parts != [] && (parts[0] == "" || ParseInt(parts[0], base).Some?)
    ensures var (ns, ok) := ParseParts(parts[1..], base);
      ParseParts(parts, base) == ((if parts[0] == "" then [] else [ParseInt(parts[0], base).value]) + ns, ok)
  {
    hide ParseInt;
    var rest := ParseParts(parts[1..], base);
    assert [] + rest.0 == rest.0;
  }

  /** The numbers among parts that are empty or numbers. */
  function Numbers(parts: seq<string>, base: Radix): seq<int> {
    if parts == [] then []
    else (if ParseInt(parts[0], base).Some? then [ParseInt(parts[0], base).value] else []) + Numbers(parts[1..], base)
  }

  lemma ReadWhole(input: string, hex: bool)
    requires input != ""
    ensures ParseText(input, Base(hex)).1 <==>
      && input[|input| - 1] == ','
      && forall part :: part in Split(input, ',') && part != "" ==> ParseInt(part, if hex then Hex else Dec).Some?
  {
    hide ParseInt, Split, ParseParts;
    ReadAll(Split(input, ','), Base(hex));
    var whole := forall part :: part in Split(input, ',') && part != "" ==> ParseInt(part, Base(hex)).Some?;
    assert ParseParts(Split(input, ','), Base(hex)).1 <==> whole;
  }

  lemma ReadAll(parts: seq<string>, base: Radix)
    ensures ParseParts(parts, base).1 <==> forall part :: part in parts && part != "" ==> ParseInt(part, base).Some?
  {
    hide ParseInt, ParseParts, Numbers;
    var stop := ParseStops(parts, base);
    if stop < |parts| {
      assert parts[stop] in parts;
    } else {
      forall part | part in parts && part != ""
        ensures ParseInt(part, base).Some?
      {
        var i :| 0 <= i < |parts| && parts[i] == part;
      }
    }
  }

  lemma EmptyIsNoNumber(base: Radix)
    ensures ParseInt("", base) == None
  {
  }

  /** The same number in the two encodings. */
  lemma EncodingOf255()
    ensures CommaList([255], Base(true)) == "ff,"
    ensures CommaList([255], Base(false)) == "255,"
  {
    assert FormatNat(255, Hex) == FormatNat(15, Hex) + ['f'];
    assert FormatNat(255, Dec) == FormatNat(25, Dec) + ['5'];
    assert FormatNat(25, Dec) == FormatNat(2, Dec) + ['5'];
    OneNumber(FormatInt(255, Hex));
    OneNumber(FormatInt(255, Dec));
    assert Formatted([255], Hex) == [FormatInt(255, Hex)] && Formatted([255], Dec) == [FormatInt(255, Dec)];
  }

  lemma OneNumber(part: string)
    ensures CommaText([part]) == part + [',']
  {
    assert [part][1..] == [];
  }

  // ---------------------------------------------------------------------------
  // The SQL offset store
  // ---------------------------------------------------------------------------

  /** Table name and primary key to the text column. */
  type Rows = map<(string, string), string>

  function Slot(key: string): (string, string)
    requires |key| >= 3
  {
    ("s" + key[..3], key[3..])
  }

  function Entry(offset: int): string {
    FormatInt(offset, Dec) + [',']
  }

  /** The upsert: a new row, or the old text with the new entry appended. */
  function Inserted(rows: Rows, key: string, offset: int): Rows
    requires |key| >= 3
  {
    var slot := Slot(key);
    rows[slot := (if slot in rows then rows[slot] else "") + Entry(offset)]
  }

  function Positive(part: string): (offsets: seq<int>)
    ensures forall i :: 0 <= i < |offsets| ==> offsets[i] > 0
  {
    if Str2Int64(part) > 0 then [Str2Int64(part)] else []
  }

  function Positives(parts: seq<string>): (offsets: seq<int>)
    ensures forall i :: 0 <= i < |offsets| ==> offsets[i] > 0
  {
    if parts == [] then []
    else
      Positive(parts[0]) + Positives(parts[1..])
  }

  function OffsetsOf(rows: Rows, key: string): (offsets: seq<int>)
    requires |key| >= 3
    ensures forall i :: 0 <= i < |offsets| ==> offsets[i] > 0
  {
    if Slot(key) in rows then Positives(Split(rows[Slot(key)], ',')) else []
  }

  lemma NoPositives()
    ensures Positives([]) == []
  {
  }

  lemma PositivesStep(parts: seq<string>, i: nat)
    requires i < |parts|
    ensures Positives(parts[i..]) == Positive(parts[i]) + Positives(parts[i + 1..])
  {
    hide Positive;
    assert parts[i..][1..] == parts[i + 1..];
  }

  class SQLStore {
    var rows: Rows

    constructor ()
      ensures rows == map[]
    {
      rows := map[];
    }

    method InsertOffset(key: string, offset: int)
      requires |key| >= 3
      modifies this
      ensures rows == Inserted(old(rows), key, offset)
      ensures var slot := ("s" + key[..3], key[3..]);
        rows == old(rows)[slot := (if slot in old(rows) then old(rows)[slot] else "") + (FormatInt(offset, Dec) + ",")]
    {
      var slot := ("s" + key[..3], key[3..]);
      var entry := Entry(offset);
      if slot in rows {
        rows := rows[slot := rows[slot] + entry];
      } else {
        rows := rows[slot := entry];
      }
      assert "" + entry == entry;
    }

    method GetOffsets(key: string) returns (offsets: seq<int>)
      requires |key| >= 3
      ensures offsets == OffsetsOf(rows, key)
    {
      hide Str2Int64, Split, Positives;
      offsets := [];
      var slot := ("s" + key[..3], key[3..]);
      if slot !in rows {
        return;
      }
      var offsetsStr := rows[slot];
      if |offsetsStr| > 0 {
        var offs := Split(offsetsStr, ',');
        var i := 0;
        while i < |offs|
          invariant 0 <= i <= |offs|
          invariant Positives(offs) == offsets + Positives(offs[i..])
        {
          var offset := Str2Int64(offs[i]);
          PositivesStep(offs, i);
          if offset > 0 {
            offsets := offsets + [offset];
          }
          i := i + 1;
        }
        NoPositives();
        assert offs[i..] == [];
      } else {
        SplitWhole(offsetsStr, ',');
        PositivesLast("");
      }
    }
  }

  ghost predicate Terminated(text: string) {
    text == "" || text[|text| - 1] == ','
  }

  ghost predicate WellFormed(rows: Rows) {
    forall slot :: slot in rows ==> Terminated(rows[slot])
  }

  lemma SplitAfterComma(a: string, entry: string)
    requires ',' !in entry
    ensures Split(a + [','], ',') == Split(a, ',') + [""]
    ensures Split(a + [','] + (entry + [',']), ',') == Split(a, ',') + [entry] + [""]
  {
    hide Split;
    SplitLast(a, "", ',');
    SplitLast(a, entry, ',');
    SplitLast(a + [','] + entry, "", ',');
    assert a + [','] + "" == a + [','];
    assert a + [','] + (entry + [',']) == a + [','] + entry + [','] + "";
  }

  lemma SplitAppended(text: string, entry: string)
    requires Terminated(text) && ',' !in entry
    ensures var parts := Split(text, ',');
      Split(text + (entry + [',']), ',') == parts[..|parts| - 1] + [entry, ""] && parts[|parts| - 1] == ""
  {
    hide Split;
    if text == "" {
      SplitWhole("", ',');
      SplitWhole(entry, ',');
      SplitLast(entry, "", ',');
      assert text + (entry + [',']) == entry + [','] + "";
    } else {
      var a := text[..|text| - 1];
      assert text == a + [','];
      SplitAfterComma(a, entry);
      assert Split(a, ',') + [entry] + [""] == Split(a, ',') + [entry, ""];
    }
  }

  lemma {:induction false} PositivesConcat(a: seq<string>, b: seq<string>)
    ensures Positives(a + b) == Positives(a) + Positives(b)
  {
    hide Positive;
    if a == [] {
      assert a + b == b;
    } else {
      PositivesConcat(a[1..], b);
      TailOfConcat(a, b);
      ConcatAssoc(Positive(a[0]), Positives(a[1..]), Positives(b));
    }
  }

  lemma PositivesLast(entry: string)
    ensures Positives([""]) == []
    ensures Positives([entry, ""]) == Positive(entry)
  {
    hide ParseDigits;
    assert [entry, ""][1..] == [""];
    assert [""][1..] == [];
  }

  lemma PositivesAppended(text: string, entry: string)
    requires Terminated(text) && ',' !in entry
    ensures Positives(Split(text + (entry + [',']), ','))
         == Positives(Split(text, ',')) + Positive(entry)
  {
    hide Split, Positives, Positive;
    var parts := Split(text, ',');
    var kept := parts[..|parts| - 1];
    SplitAppended(text, entry);
    assert parts == kept + [""];
    PositivesConcat(kept, [""]);
    PositivesConcat(kept, [entry, ""]);
    PositivesLast(entry);
  }

  /** An insert adds its offset at the end of its own key's list, if positive, and touches no other key. */
  lemma InsertedOffsets(rows: Rows, key: string, offset: int, other: string)
    requires WellFormed(rows) && IsInt64(offset) && |key| >= 3 && |other| >= 3
    ensures WellFormed(Inserted(rows, key, offset))
    ensures OffsetsOf(Inserted(rows, key, offset), other)
         == OffsetsOf(rows, other) + (if other == key && offset > 0 then [offset] else [])
  {
    hide Split, Positives, FormatInt, ParseInt;
    if Slot(other) == Slot(key) {
      assert ("s" + key[..3])[1..] == key[..3] && ("s" + other[..3])[1..] == other[..3];
      assert key == key[..3] + key[3..] && other == other[..3] + other[3..];
      var text := if Slot(key) in rows then rows[Slot(key)] else "";
      PositivesAppended(text, FormatInt(offset, Dec));
      ParseFormatInt(offset, Dec);
      SplitWhole("", ',');
      PositivesLast("");
    }
  }

  /** In any row, also one not written here, a part counts exactly if it is a positive int64. */
  lemma {:induction false} PositivesMeaning(parts: seq<string>, n: int)
    ensures n in Positives(parts) <==> n > 0 && exists i :: 0 <= i < |parts| && ParseInt(parts[i], Dec) == Some(n)
  {
    hide ParseInt;
    if parts != [] {
      PositivesMeaning(parts[1..], n);
      assert forall i :: 1 <= i < |parts| ==> parts[1..][i - 1] == parts[i];
      assert Positives(parts) == Positive(parts[0]) + Positives(parts[1..]);
    }
  }

  datatype Insert = Insert(key: string, offset: int)

  function Stored(inserts: seq<Insert>): Rows
    requires forall i :: 0 <= i < |inserts| ==> |inserts[i].key| >= 3
  {
    if inserts == [] then map[]
    else
      var last := inserts[|inserts| - 1];
      Inserted(Stored(inserts[..|inserts| - 1]), last.key, last.offset)
  }

  /** What a reader expects: the key's own positive offsets, oldest first. */
  function Expected(inserts: seq<Insert>, key: string): seq<int> {
    if inserts == [] then []
    else
      var last := inserts[|inserts| - 1];
      Expected(inserts[..|inserts| - 1], key)
        + (if last.key == key && last.offset > 0 then [last.offset] else [])
  }

  /** The text store refines a plain multimap, over every sequence of inserts and every key. */
  lemma {:induction false} StoreRefinesMultimap(inserts: seq<Insert>, key: string)
    requires |key| >= 3
    requires forall i :: 0 <= i < |inserts| ==> |inserts[i].key| >= 3 && IsInt64(inserts[i].offset)
    ensures WellFormed(Stored(inserts))
    ensures OffsetsOf(Stored(inserts), key) == Expected(inserts, key)
  {
    if inserts != [] {
      var last := inserts[|inserts| - 1];
      var before := inserts[..|inserts| - 1];
      StoreRefinesMultimap(before, key);
      InsertedOffsets(Stored(before), last.key, last.offset, key);
    }
  }
}
