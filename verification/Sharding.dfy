/** The six ways of spreading 4096 hash prefixes over database files and their tables. */
module Sharding {
  import opened Strconv
  import opened OffsetText
  import opened HexPrefixes

  const SHARD_SINGLE_DB := 0
  const SHARD_FULL_SPLIT := 1
  const SHARD_16_256 := 2
  const SHARD_64_64 := 3
  const SHARD_128_32 := 4
  const SHARD_512_8 := 5

  /** The number of databases and the number of tables in each. */
  function GetShardConfig(mode: int): (nat, nat) {
    if mode == SHARD_SINGLE_DB then (1, 4096)
    else if mode == SHARD_FULL_SPLIT then (4096, 1)
    else if mode == SHARD_16_256 then (16, 256)
    else if mode == SHARD_64_64 then (64, 64)
    else if mode == SHARD_128_32 then (128, 32)
    else if mode == SHARD_512_8 then (512, 8)
    else (1, 4096)
  }

  function NumDBs(mode: int): nat {
    GetShardConfig(mode).0
  }

  function TablesPerDB(mode: int): nat {
    GetShardConfig(mode).1
  }

  function GetDBNameFromIndex(index: int): string {
    if index < 0 || index >= 4096 then "000" else PadInt(index, Hex, 3)
  }

  /** The file of database i. */
  function DBPath(mode: int, i: nat): string {
    if NumDBs(mode) == 1 then "hashdb.sqlite3"
    else if NumDBs(mode) == 4096 then "hashdb_" + GetDBNameFromIndex(i) + ".sqlite3"
    else "hashdb_" + PadInt(i, Dec, 3) + ".sqlite3"
  }

  function HexToInt(hexStr: string): Option<int> {
    ParseInt(hexStr, Hex)
  }

  /** Go's / and % truncate toward zero. */
  function GoDiv(a: int, b: nat): int
    requires b > 0
  {
    if a >= 0 then a / b else -((-a) / b)
  }

  function GoMod(a: int, b: nat): int
    requires b > 0
  {
    if a >= 0 then a % b else -((-a) % b)
  }

  /** The truncated quotient and the remainder that goes with it, of the sign of the dividend. */
  lemma GoDivMod(a: int, b: nat)
    requires b > 0
    ensures a == b * GoDiv(a, b) + GoMod(a, b)
    ensures -(b as int) < GoMod(a, b) < b && (GoMod(a, b) != 0 ==> (GoMod(a, b) < 0 <==> a < 0))
  {
    if a < 0 {
      assert -a == b * ((-a) / b) + (-a) % b;
      NegatedProduct(b, (-a) / b);
    }
  }

  lemma NegatedProduct(x: int, y: int)
    ensures x * -y == -(x * y)
  {
  }

  function DBIndexOf(parsed: Option<int>, divisor: nat, mode: int): int
    requires divisor > 0
  {
    match parsed
    case None => 0
    case Some(val) => GoMod(GoDiv(val, divisor), NumDBs(mode))
  }

  function GetDBIndexFromHash(mode: int, hash: string): int {
    if |hash| < 3 then 0
    else if mode == SHARD_SINGLE_DB then 0
    else if mode == SHARD_FULL_SPLIT then DBIndexOf(HexToInt(hash[..3]), 1, mode)
    else if mode == SHARD_16_256 then DBIndexOf(HexToInt([hash[0]]), 1, mode)
    else if mode == SHARD_64_64 then DBIndexOf(HexToInt(hash[..2]), 4, mode)
    else if mode == SHARD_128_32 then DBIndexOf(HexToInt(hash[..2]), 2, mode)
    else if mode == SHARD_512_8 then DBIndexOf(HexToInt(hash[..3]), 8, mode)
    else 0
  }

  function NumberedTable(parsed: Option<int>, modulus: nat, width: nat): string
    requires modulus > 0
  {
    match parsed
    case None => "s" + Repeat('0', width)
    case Some(val) => "s" + PadInt(GoMod(val, modulus), Hex, width)
  }

  function GetTableNameFromHash(mode: int, hash: string): string {
    if |hash| < 3 then "s000"
    else if mode == SHARD_SINGLE_DB then "s" + hash[..3]
    else if mode == SHARD_FULL_SPLIT then "shash"
    else if mode == SHARD_16_256 then "s" + hash[1..3]
    else if mode == SHARD_64_64 then NumberedTable(HexToInt(hash[1..3]), 64, 2)
    else if mode == SHARD_128_32 then NumberedTable(HexToInt(hash[1..3]), 32, 2)
    else if mode == SHARD_512_8 then NumberedTable(HexToInt(hash[2..3]), 8, 1)
    else "s000"
  }

  /** n table names, numbered with width hex digits. */
  function Numbered(n: nat, width: nat): (names: seq<string>)
    ensures |names| == n && forall i :: 0 <= i < n ==> names[i] == "s" + PadInt(i, Hex, width)
  {
    seq(n, i requires 0 <= i < n => "s" + PadInt(i, Hex, width))
  }

  /** The names getTableNamesForDB lists; the full split and unknown modes list none. */
  function TableNames(mode: int): seq<string> {
    if mode == SHARD_SINGLE_DB then Numbered(4096, 3)
    else if mode == SHARD_16_256 then Numbered(256, 2)
    else if mode == SHARD_64_64 then Numbered(64, 2)
    else if mode == SHARD_128_32 then Numbered(32, 2)
    else if mode == SHARD_512_8 then Numbered(8, 1)
    else []
  }

  lemma NumberedSnoc(n: nat, width: nat)
    ensures Numbered(n, width) + ["s" + PadInt(n, Hex, width)] == Numbered(n + 1, width)
  {
    hide PadInt;
  }

  /** The digits of a number below 16, 256 or 4096, as the printed words have them. */
  lemma DigitsOf(d1: nat, d2: nat, d3: nat)
    requires d1 < 16 && d2 < 16 && d3 < 16
    ensures PadInt(16 * d2 + d3, Hex, 2) == [DIGITS[d2], DIGITS[d3]]
    ensures PadInt(256 * d1 + 16 * d2 + d3, Hex, 3) == [DIGITS[d1], DIGITS[d2], DIGITS[d3]]
    ensures PadInt(d3, Hex, 1) == [DIGITS[d3]]
  {
    hide PadInt, Radix.Power, Word;
    ThreeDigits();
    var n := 256 * d1 + 16 * d2 + d3;
    WordIsPadded(n, 3);
    WordIsPadded(16 * d2 + d3, 2);
    WordIsPadded(d3, 1);
    NoDigits();
    WordStep(0, d1, 0);
    WordStep(0, d2, 0);
    WordStep(0, d3, 0);
    WordStep(d1, d2, 1);
    WordStep(d2, d3, 1);
    WordStep(16 * d1 + d2, d3, 2);
  }

  lemma NoDigits()
    ensures Word(0, 0) == ""
  {
  }

  lemma WordStep(q: nat, r: nat, k: nat)
    requires r < 16
    ensures Word(16 * q + r, k + 1) == Word(q, k) + [DIGITS[r]]
  {
    assert Hex.Quot(16 * q + r) == q && Hex.Rem(16 * q + r) == r;
  }

  lemma NextName3(d1: nat, d2: nat, d3: nat)
    requires d1 < 16 && d2 < 16 && d3 < 16
    ensures var n := 256 * d1 + 16 * d2 + d3;
      Numbered(n, 3) + ["s" + [DIGITS[d1]] + [DIGITS[d2]] + [DIGITS[d3]]] == Numbered(n + 1, 3)
  {
    hide PadInt, Numbered;
    DigitsOf(d1, d2, d3);
    NumberedSnoc(256 * d1 + 16 * d2 + d3, 3);
    assert "s" + [DIGITS[d1]] + [DIGITS[d2]] + [DIGITS[d3]] == "s" + [DIGITS[d1], DIGITS[d2], DIGITS[d3]];
  }

  lemma NextName2(d2: nat, d3: nat)
    requires d2 < 16 && d3 < 16
    ensures var n := 16 * d2 + d3;
      Numbered(n, 2) + ["s" + [DIGITS[d2]] + [DIGITS[d3]]] == Numbered(n + 1, 2)
  {
    hide PadInt, Numbered;
    DigitsOf(0, d2, d3);
    NumberedSnoc(16 * d2 + d3, 2);
    assert "s" + [DIGITS[d2]] + [DIGITS[d3]] == "s" + [DIGITS[d2], DIGITS[d3]];
  }

  method AllThreeDigitNames() returns (tableNames: seq<string>)
    ensures tableNames == Numbered(4096, 3)
  {
    hide Numbered;
    tableNames := [];
    var cs := DIGITS;
    var c1 := 0;
    while c1 < 16
      invariant c1 <= 16 && tableNames == Numbered(256 * c1, 3)
    {
      var c2 := 0;
      while c2 < 16
        invariant c2 <= 16 && tableNames == Numbered(256 * c1 + 16 * c2, 3)
      {
        var c3 := 0;
        while c3 < 16
          invariant c3 <= 16 && tableNames == Numbered(256 * c1 + 16 * c2 + c3, 3)
        {
          NextName3(c1, c2, c3);
          tableNames := tableNames + ["s" + [cs[c1]] + [cs[c2]] + [cs[c3]]];
          c3 := c3 + 1;
        }
        c2 := c2 + 1;
      }
      c1 := c1 + 1;
    }
  }

  method AllTwoDigitNames() returns (tableNames: seq<string>)
    ensures tableNames == Numbered(256, 2)
  {
    hide Numbered;
    tableNames := [];
    var cs := DIGITS;
    var c1 := 0;
    while c1 < 16
      invariant c1 <= 16 && tableNames == Numbered(16 * c1, 2)
    {
      var c2 := 0;
      while c2 < 16
        invariant c2 <= 16 && tableNames == Numbered(16 * c1 + c2, 2)
      {
        NextName2(c1, c2);
        tableNames := tableNames + ["s" + [cs[c1]] + [cs[c2]]];
        c2 := c2 + 1;
      }
      c1 := c1 + 1;
    }
  }

  method GetTableNamesForDB(mode: int) returns (tableNames: seq<string>)
    ensures tableNames == TableNames(mode)
  {
    hide Numbered;
    tableNames := [];
    if mode == SHARD_SINGLE_DB {
      tableNames := AllThreeDigitNames();
    } else if mode == SHARD_16_256 {
      tableNames := AllTwoDigitNames();
    } else if mode == SHARD_64_64 || mode == SHARD_128_32 || mode == SHARD_512_8 {
      var n, width := 64, 2;
      if mode == SHARD_128_32 {
        n := 32;
      } else if mode == SHARD_512_8 {
        n, width := 8, 1;
      }
      var i := 0;
      while i < n
        invariant i <= n && tableNames == Numbered(i, width)
      {
        NumberedSnoc(i, width);
        tableNames := tableNames + ["s" + PadInt(i, Hex, width)];
        i := i + 1;
      }
    }
  }

  /** The tables createTablesForDB makes in each database. */
  function CreatedTables(mode: int): seq<string> {
    if mode == SHARD_FULL_SPLIT then ["shash"] else TableNames(mode)
  }

  // ---------------------------------------------------------------------------
  // Every mode is division with remainder
  // ---------------------------------------------------------------------------

  predicate KnownMode(mode: int) {
    SHARD_SINGLE_DB <= mode <= SHARD_512_8
  }

  predicate HexPrefix(hash: string) {
    |hash| >= 3 && IsHex(hash[..3])
  }

  lemma ParseHexSnoc(s: string, c: char)
    requires ParseDigits(s, Hex).Some? && IsHexDigit(c)
    ensures ParseDigits(s + [c], Hex) == Some(16 * ParseDigits(s, Hex).value + DigitValue(c))
  {
    hide ParseDigits;
    ParseSnoc(s, DigitValue(c), Hex);
  }

  lemma ParseUnsigned(s: string)
    requires s != "" && IsHexDigit(s[0]) && ParseDigits(s, Hex).Some? && IsInt64(ParseDigits(s, Hex).value)
    ensures ParseInt(s, Hex) == Some(ParseDigits(s, Hex).value)
  {
    hide ParseDigits;
  }

  lemma ParseHexDigits(a: char, b: char, c: char)
    requires IsHexDigit(a) && IsHexDigit(b) && IsHexDigit(c)
    ensures ParseInt([a], Hex) == Some(DigitValue(a))
    ensures ParseInt([a, b], Hex) == Some(16 * DigitValue(a) + DigitValue(b))
    ensures ParseInt([a, b, c], Hex) == Some(256 * DigitValue(a) + 16 * DigitValue(b) + DigitValue(c))
  {
    hide DigitValue, ParseDigits, ParseInt;
    assert "" + [a] == [a] && [a] + [b] == [a, b] && [a, b] + [c] == [a, b, c];
    ParseNoDigits(Hex);
    ParseHexSnoc("", a);
    ParseHexSnoc([a], b);
    ParseHexSnoc([a, b], c);
    ParseUnsigned([a]);
    ParseUnsigned([a, b]);
    ParseUnsigned([a, b, c]);
  }

  /** The digits of a hash, and every slice of them the routing code parses. */
  lemma PrefixDigits(hash: string) returns (d1: nat, d2: nat, d3: nat)
    requires HexPrefix(hash)
    ensures d1 < 16 && d2 < 16 && d3 < 16
    ensures hash[..3] == [DIGITS[d1], DIGITS[d2], DIGITS[d3]] && hash[1..3] == [DIGITS[d2], DIGITS[d3]]
    ensures CharIndex(hash[..3]) == 256 * d1 + 16 * d2 + d3
    ensures HexToInt([hash[0]]) == Some(d1) && HexToInt(hash[2..3]) == Some(d3)
    ensures HexToInt(hash[..2]) == Some(16 * d1 + d2) && HexToInt(hash[1..3]) == Some(16 * d2 + d3)
    ensures HexToInt(hash[..3]) == Some(256 * d1 + 16 * d2 + d3)
  {
    hide ParseInt, DigitValue;
    var a, b, c := hash[0], hash[1], hash[2];
    assert a == hash[..3][0] && b == hash[..3][1] && c == hash[..3][2];
    d1, d2, d3 := DigitValue(a), DigitValue(b), DigitValue(c);
    assert hash[..3] == [a, b, c] && hash[1..3] == [b, c] && hash[..2] == [a, b] && hash[2..3] == [c];
    ParseHexDigits(a, b, c);
    ParseHexDigits(b, c, c);
    ParseHexDigits(c, c, c);
    CharIndexIsParsed(hash[..3]);
  }

  lemma CharIndexIsParsed(char3: string)
    requires |char3| == 3 && IsHex(char3)
    ensures ParseInt(char3, Hex) == Some(CharIndex(char3))
  {
    hide ParseDigits;
    WordUnique(char3, 3);
    ThreeDigits();
  }

  /** Division with remainder by the number of tables per database: what every mode should do. */
  function DBOf(mode: int, v: nat): (db: nat) {
    v / TablesPerDB(mode)
  }

  function TableOf(mode: int, v: nat): (t: nat)
    ensures t < TablesPerDB(mode)
  {
    v % TablesPerDB(mode)
  }

  /** In every mode the database is the prefix divided by the tables per database, and the table is
      the one created there under the remainder. */
  lemma AddressIsQuotient(mode: int, hash: string)
    requires KnownMode(mode) && HexPrefix(hash)
    ensures var v := CharIndex(hash[..3]);
      && |CreatedTables(mode)| == TablesPerDB(mode) && NumDBs(mode) * TablesPerDB(mode) == NUM_CACHE_DBS
      && GetDBIndexFromHash(mode, hash) == DBOf(mode, v) < NumDBs(mode)
      && GetTableNameFromHash(mode, hash) == CreatedTables(mode)[TableOf(mode, v)]
  {
    hide CharIndex, GetDBIndexFromHash, GetTableNameFromHash, CreatedTables, TablesPerDB, NumDBs, DBOf, TableOf, HexToInt;
    ConfigProduct(mode);
    var d1, d2, d3 := PrefixDigits(hash);
    DBIsQuotient(mode, hash, d1, d2, d3);
    TableIsRemainder(mode, hash, d1, d2, d3);
  }

  lemma ConfigProduct(mode: int)
    ensures TablesPerDB(mode) > 0 && NumDBs(mode) * TablesPerDB(mode) == NUM_CACHE_DBS
  {
  }

  lemma DBIsQuotient(mode: int, hash: string, d1: nat, d2: nat, d3: nat)
    requires KnownMode(mode) && |hash| >= 3 && d1 < 16 && d2 < 16 && d3 < 16
    requires HexToInt([hash[0]]) == Some(d1) && HexToInt(hash[..2]) == Some(16 * d1 + d2)
    requires HexToInt(hash[..3]) == Some(256 * d1 + 16 * d2 + d3)
    ensures GetDBIndexFromHash(mode, hash) == DBOf(mode, 256 * d1 + 16 * d2 + d3) < NumDBs(mode)
  {
    hide HexToInt;
    if mode == SHARD_SINGLE_DB || mode == SHARD_FULL_SPLIT || mode == SHARD_16_256 {
      WholeDigits(d1, d2, d3);
    } else if mode == SHARD_64_64 {
      Digits64(d1, d2, d3);
    } else if mode == SHARD_128_32 {
      Digits128(d1, d2, d3);
    } else {
      Digits512(d1, d2, d3);
    }
  }

  lemma WholeDigits(d1: nat, d2: nat, d3: nat)
    requires d1 < 16 && d2 < 16 && d3 < 16
    ensures var v := 256 * d1 + 16 * d2 + d3;
      v / 4096 == 0 && GoMod(GoDiv(v, 1), 4096) == v / 1 && GoMod(GoDiv(d1, 1), 16) == v / 256
  {
  }

  lemma Digits64(d1: nat, d2: nat, d3: nat)
    requires d1 < 16 && d2 < 16 && d3 < 16
    ensures (256 * d1 + 16 * d2 + d3) / 64 == (16 * d1 + d2) / 4 == GoMod(GoDiv(16 * d1 + d2, 4), 64)
  {
    assert (16 * d1 + d2) / 4 == 4 * d1 + d2 / 4;
    assert (256 * d1 + 16 * d2 + d3) / 64 == 4 * d1 + d2 / 4;
  }

  lemma Digits128(d1: nat, d2: nat, d3: nat)
    requires d1 < 16 && d2 < 16 && d3 < 16
    ensures (256 * d1 + 16 * d2 + d3) / 32 == (16 * d1 + d2) / 2 == GoMod(GoDiv(16 * d1 + d2, 2), 128)
  {
    assert (16 * d1 + d2) / 2 == 8 * d1 + d2 / 2;
    assert (256 * d1 + 16 * d2 + d3) / 32 == 8 * d1 + d2 / 2;
  }

  lemma Digits512(d1: nat, d2: nat, d3: nat)
    requires d1 < 16 && d2 < 16 && d3 < 16
    ensures var v := 256 * d1 + 16 * d2 + d3; GoMod(GoDiv(v, 8), 512) == v / 8
  {
  }

  /** What the table routing returns, digit by digit. */
  lemma TableIsRemainder(mode: int, hash: string, d1: nat, d2: nat, d3: nat)
    requires KnownMode(mode) && |hash| >= 3 && d1 < 16 && d2 < 16 && d3 < 16
    requires hash[..3] == [DIGITS[d1], DIGITS[d2], DIGITS[d3]] && hash[1..3] == [DIGITS[d2], DIGITS[d3]]
    requires HexToInt(hash[2..3]) == Some(d3) && HexToInt(hash[1..3]) == Some(16 * d2 + d3)
    ensures |CreatedTables(mode)| == TablesPerDB(mode)
    ensures GetTableNameFromHash(mode, hash) == CreatedTables(mode)[TableOf(mode, 256 * d1 + 16 * d2 + d3)]
  {
    hide CreatedTables, GetTableNameFromHash, TableOf, TablesPerDB, HexToInt;
    if mode <= SHARD_FULL_SPLIT {
      WholePrefixTables(mode, hash, d1, d2, d3);
    } else if mode == SHARD_16_256 {
      TwoDigitTables(hash, d1, d2, d3);
    } else {
      SplitDigitTables(mode, hash, d1, d2, d3);
    }
  }

  lemma WholePrefixTables(mode: int, hash: string, d1: nat, d2: nat, d3: nat)
    requires mode == SHARD_SINGLE_DB || mode == SHARD_FULL_SPLIT
    requires |hash| >= 3 && d1 < 16 && d2 < 16 && d3 < 16
    requires hash[..3] == [DIGITS[d1], DIGITS[d2], DIGITS[d3]]
    ensures |CreatedTables(mode)| == TablesPerDB(mode)
    ensures GetTableNameFromHash(mode, hash) == CreatedTables(mode)[TableOf(mode, 256 * d1 + 16 * d2 + d3)]
  {
    hide HexToInt, PadInt, Numbered, CreatedTables, TableOf, GetTableNameFromHash;
    var v := 256 * d1 + 16 * d2 + d3;
    WholePrefixNames(mode, hash, v);
    DigitsOf(d1, d2, d3);
  }

  lemma WholePrefixNames(mode: int, hash: string, v: nat)
    requires mode == SHARD_SINGLE_DB || mode == SHARD_FULL_SPLIT
    requires |hash| >= 3 && v < NUM_CACHE_DBS
    ensures |CreatedTables(mode)| == TablesPerDB(mode)
    ensures GetTableNameFromHash(mode, hash) == if mode == SHARD_SINGLE_DB then "s" + hash[..3] else "shash"
    ensures CreatedTables(mode)[TableOf(mode, v)] == if mode == SHARD_SINGLE_DB then "s" + PadInt(v, Hex, 3) else "shash"
  {
    hide HexToInt, PadInt, Numbered;
  }

  lemma TwoDigitTables(hash: string, d1: nat, d2: nat, d3: nat)
    requires |hash| >= 3 && d1 < 16 && d2 < 16 && d3 < 16
    requires hash[1..3] == [DIGITS[d2], DIGITS[d3]]
    ensures |CreatedTables(SHARD_16_256)| == TablesPerDB(SHARD_16_256)
    ensures GetTableNameFromHash(SHARD_16_256, hash)
         == CreatedTables(SHARD_16_256)[TableOf(SHARD_16_256, 256 * d1 + 16 * d2 + d3)]
  {
    hide HexToInt, PadInt, Numbered;
    DigitsOf(d1, d2, d3);
    ModPlus(16 * d2 + d3, d1, 256);
    assert TableOf(SHARD_16_256, 256 * d1 + 16 * d2 + d3) == 16 * d2 + d3;
  }

  lemma SplitDigitTables(mode: int, hash: string, d1: nat, d2: nat, d3: nat)
    requires SHARD_64_64 <= mode <= SHARD_512_8 && |hash| >= 3 && d1 < 16 && d2 < 16 && d3 < 16
    requires HexToInt(hash[2..3]) == Some(d3) && HexToInt(hash[1..3]) == Some(16 * d2 + d3)
    ensures |CreatedTables(mode)| == TablesPerDB(mode)
    ensures GetTableNameFromHash(mode, hash) == CreatedTables(mode)[TableOf(mode, 256 * d1 + 16 * d2 + d3)]
  {
    hide HexToInt, PadInt, Numbered;
    if mode == SHARD_64_64 {
      ModPlus(16 * d2 + d3, 4 * d1, 64);
    } else if mode == SHARD_128_32 {
      ModPlus(16 * d2 + d3, 8 * d1, 32);
    } else {
      ModPlus(d3, 32 * d1 + 2 * d2, 8);
    }
  }

  lemma ModPlus(x: nat, k: nat, m: nat)
    requires m > 0
    ensures (m * k + x) % m == x % m
  {
    var q, r := x / m, x % m;
    var n := m * k + x;
    assert n == m * (k + q) + r;
    QuotientUnique(m, k + q, r, n / m, n % m);
  }

  lemma MulMonotone(a: nat, x: nat, y: nat)
    requires x <= y
    ensures a * x <= a * y
  {
  }

  lemma QuotientUnique(m: nat, q: nat, r: nat, q': nat, r': nat)
    requires r < m && r' < m && m * q + r == m * q' + r'
    ensures q == q' && r == r'
  {
    if q < q' {
      MulMonotone(m, q + 1, q');
    } else if q' < q {
      MulMonotone(m, q' + 1, q);
    }
  }

  /** No table name is created twice. */
  lemma TablesDistinct(mode: int, i: nat, j: nat)
    requires i < j < |CreatedTables(mode)|
    ensures CreatedTables(mode)[i] != CreatedTables(mode)[j]
  {
    hide PadInt;
    var width := if mode == SHARD_SINGLE_DB then 3 else if mode == SHARD_512_8 then 1 else 2;
    ParsePadded(i, Hex, width);
    ParsePadded(j, Hex, width);
    assert ("s" + PadInt(i, Hex, width))[1..] == PadInt(i, Hex, width);
    assert ("s" + PadInt(j, Hex, width))[1..] == PadInt(j, Hex, width);
  }

  /** The router names a table that exists exactly in the six known modes: any other mode reports
      4096 tables, creates none, and sends every hash to the table s000. */
  lemma TableExistsIffKnownMode(mode: int, hash: string)
    requires HexPrefix(hash)
    ensures GetTableNameFromHash(mode, hash) in CreatedTables(mode) <==> KnownMode(mode)
    ensures !KnownMode(mode) ==> GetShardConfig(mode) == (1, 4096)
    ensures !KnownMode(mode) ==> CreatedTables(mode) == [] && GetTableNameFromHash(mode, hash) == "s000"
  {
    if KnownMode(mode) {
      hide CreatedTables, GetTableNameFromHash;
      AddressIsQuotient(mode, hash);
    }
  }

  /** Database, table and row key of a hash. */
  function Address(mode: int, key: string): (int, string, string)
    requires |key| >= 3
  {
    (GetDBIndexFromHash(mode, key), GetTableNameFromHash(mode, key), key[3..])
  }

  /** Two keys share an address only if they are the same key. */
  lemma AddressInjective(mode: int, a: string, b: string)
    requires KnownMode(mode) && HexPrefix(a) && HexPrefix(b)
    ensures Address(mode, a) == Address(mode, b) <==> a == b
  {
    hide CreatedTables, GetTableNameFromHash, GetDBIndexFromHash, CharIndex, TablesPerDB, NumDBs, DBOf, TableOf;
    if Address(mode, a) == Address(mode, b) {
      AddressIsQuotient(mode, a);
      AddressIsQuotient(mode, b);
      var v, w := CharIndex(a[..3]), CharIndex(b[..3]);
      if TableOf(mode, v) < TableOf(mode, w) {
        TablesDistinct(mode, TableOf(mode, v), TableOf(mode, w));
      } else if TableOf(mode, w) < TableOf(mode, v) {
        TablesDistinct(mode, TableOf(mode, w), TableOf(mode, v));
      }
      QuotientDetermines(mode, v);
      QuotientDetermines(mode, w);
      SamePrefix(a[..3], b[..3]);
      assert a == a[..3] + a[3..] && b == b[..3] + b[3..];
    }
  }

  lemma QuotientDetermines(mode: int, v: nat)
    ensures v == TablesPerDB(mode) * DBOf(mode, v) + TableOf(mode, v)
  {
  }

  lemma QuotientOf(mode: int, db: nat, t: nat)
    requires t < TablesPerDB(mode) && db < NumDBs(mode)
    ensures var v := TablesPerDB(mode) * db + t;
      v < NUM_CACHE_DBS && DBOf(mode, v) == db && TableOf(mode, v) == t
  {
    var m := TablesPerDB(mode);
    var v := m * db + t;
    QuotientUnique(m, db, t, v / m, v % m);
    ConfigProduct(mode);
    MulMonotone(m, db + 1, NumDBs(mode));
  }

  lemma SamePrefix(a: string, b: string)
    requires |a| == |b| == 3 && IsHex(a) && IsHex(b) && CharIndex(a) == CharIndex(b)
    ensures a == b
  {
    hide ParseDigits, Word;
    WordUnique(a, 3);
    WordUnique(b, 3);
  }

  /** Every created table of every database is the address of exactly one prefix. */
  lemma AddressSurjective(mode: int, db: nat, t: nat) returns (prefix: string)
    requires KnownMode(mode) && db < NumDBs(mode) && t < TablesPerDB(mode)
    ensures |prefix| == 3 && IsHex(prefix)
    ensures t < |CreatedTables(mode)|
    ensures GetDBIndexFromHash(mode, prefix) == db && GetTableNameFromHash(mode, prefix) == CreatedTables(mode)[t]
  {
    hide CreatedTables, GetTableNameFromHash, GetDBIndexFromHash, ParseDigits, Word, TablesPerDB, NumDBs, DBOf, TableOf;
    var v := TablesPerDB(mode) * db + t;
    QuotientOf(mode, db, t);
    ThreeDigits();
    prefix := Word(v, 3);
    WordValue(v, 3);
    assert prefix[..3] == prefix;
    AddressIsQuotient(mode, prefix);
  }

  /** Different databases are different files. */
  lemma DBPathsDistinct(mode: int, i: nat, j: nat)
    requires i < j < NumDBs(mode)
    ensures DBPath(mode, i) != DBPath(mode, j)
  {
    hide PadInt;
    PaddedNamesDiffer(i, j, if NumDBs(mode) == 4096 then Hex else Dec);
  }

  lemma PaddedNamesDiffer(i: nat, j: nat, base: Radix)
    requires i < j < 4096
    ensures "hashdb_" + PadInt(i, base, 3) + ".sqlite3" != "hashdb_" + PadInt(j, base, 3) + ".sqlite3"
  {
    hide PadInt;
    var a, b := PadInt(i, base, 3), PadInt(j, base, 3);
    ParsePadded(i, base, 3);
    ParsePadded(j, base, 3);
    var x, y := "hashdb_" + a + ".sqlite3", "hashdb_" + b + ".sqlite3";
    assert x[7..|x| - 8] == a && y[7..|y| - 8] == b;
  }

  /** The number in a file's name reads back as the number of its database. */
  lemma FilesAreNumbered(mode: int, i: nat)
    requires KnownMode(mode) && i < NumDBs(mode)
    ensures NumDBs(mode) == 1 ==> DBPath(mode, i) == "hashdb.sqlite3"
    ensures NumDBs(mode) > 1 ==>
      && |DBPath(mode, i)| >= 18 && DBPath(mode, i)[..7] == "hashdb_"
      && DBPath(mode, i)[|DBPath(mode, i)| - 8..] == ".sqlite3"
      && ParseInt(DBPath(mode, i)[7..|DBPath(mode, i)| - 8], if mode == SHARD_FULL_SPLIT then Hex else Dec) == Some(i)
  {
    hide PadInt, ParseInt;
    if NumDBs(mode) > 1 {
      NumberInName(i, if mode == SHARD_FULL_SPLIT then Hex else Dec);
    }
  }

  /** In the full split the file of a hash is named by its own three digits, and its table is shash. */
  lemma FullSplitNames(hash: string)
    requires HexPrefix(hash)
    ensures var db := GetDBIndexFromHash(SHARD_FULL_SPLIT, hash);
      0 <= db < 4096 && DBPath(SHARD_FULL_SPLIT, db) == "hashdb_" + hash[..3] + ".sqlite3"
    ensures GetTableNameFromHash(SHARD_FULL_SPLIT, hash) == "shash"
  {
    hide PadInt, HexToInt, DBIndexOf;
    var d1, d2, d3 := PrefixDigits(hash);
    DigitsOf(d1, d2, d3);
    SmallIndex(256 * d1 + 16 * d2 + d3);
  }

  lemma NumberInName(i: nat, base: Radix)
    requires i < 4096
    ensures var name := "hashdb_" + PadInt(i, base, 3) + ".sqlite3";
      && |name| >= 18 && name[..7] == "hashdb_" && name[|name| - 8..] == ".sqlite3"
      && ParseInt(name[7..|name| - 8], base) == Some(i)
  {
    hide PadInt, ParseInt;
    ParsePadded(i, base, 3);
    var name := "hashdb_" + PadInt(i, base, 3) + ".sqlite3";
    assert name[7..|name| - 8] == PadInt(i, base, 3);
  }

  /** Names for indexes that are no database fall back to the first one's. */
  lemma NamesOutOfRange(index: int)
    requires index < 0 || index >= 4096
    ensures GetDBNameFromIndex(index) == GetDBNameFromIndex(0) == "000"
  {
    hide PadInt;
    DigitsOf(0, 0, 0);
    assert [DIGITS[0], DIGITS[0], DIGITS[0]] == "000";
  }

  /** Hashes whose digits do not parse: a short one and one of an unknown mode go to the first database,
      and otherwise the database and the table computed from digits that do not parse are the first. */
  lemma UnparsedHashes(mode: int, hash: string)
    ensures |hash| < 3 || !KnownMode(mode) ==>
      GetDBIndexFromHash(mode, hash) == 0 && GetTableNameFromHash(mode, hash) == "s000"
    ensures |hash| >= 3 && KnownMode(mode) && HexToInt([hash[0]]) == HexToInt(hash[..2]) == HexToInt(hash[..3]) == None ==>
      GetDBIndexFromHash(mode, hash) == 0
    ensures |hash| >= 3 && SHARD_64_64 <= mode <= SHARD_512_8 && HexToInt(hash[1..3]) == HexToInt(hash[2..3]) == None ==>
      GetTableNameFromHash(mode, hash) == CreatedTables(mode)[0]
  {
    hide PadInt, HexToInt, Numbered;
    DigitsOf(0, 0, 0);
    assert Repeat('0', 2) == [DIGITS[0], DIGITS[0]] && Repeat('0', 1) == [DIGITS[0]];
  }

  lemma SignOf(s: string)
    requires s != "" && HexToInt(s).Some? && HexToInt(s).value < 0
    ensures s[0] == '-'
  {
    hide ParseDigits;
  }

  lemma {:induction false} ParseBound(s: string)
    ensures ParseDigits(s, Hex).Some? ==> ParseDigits(s, Hex).value < Hex.Power(|s|)
  {
    hide DigitValue;
    if s != "" {
      ParseBound(s[..|s| - 1]);
    }
  }

  lemma ShortBound(s: string)
    requires |s| == 3 && HexToInt(s).Some?
    ensures -4096 < HexToInt(s).value < 4096
  {
    hide ParseDigits;
    ThreeDigits();
    ParseBound(s);
    ParseBound(s[1..]);
  }

  /** The divisors the modes use. */
  predicate Divides(divisor: nat) {
    divisor == 1 || divisor == 2 || divisor == 4 || divisor == 8
  }

  lemma DividedSign(parsed: Option<int>, divisor: nat, mode: int)
    requires Divides(divisor)
    ensures DBIndexOf(parsed, divisor, mode) < NumDBs(mode)
    ensures DBIndexOf(parsed, divisor, mode) < 0 ==> parsed.Some? && parsed.value < 0
  {
    hide GoDiv, GoMod;
    if parsed.Some? {
      QuotientSign(parsed.value, divisor);
      RemainderSign(GoDiv(parsed.value, divisor), NumDBs(mode));
    }
  }

  lemma QuotientSign(a: int, b: nat)
    requires Divides(b)
    ensures GoDiv(a, b) < 0 ==> a < 0
  {
  }

  lemma RemainderSign(a: int, b: nat)
    requires b > 0
    ensures GoMod(a, b) < b && (GoMod(a, b) < 0 ==> a < 0)
  {
  }

  /** For any hash the database index is below the number of databases. It can be negative, which is no
      database, only if the hash begins with a minus sign, and in the full split it is exactly if the
      first three characters read as a negative number. */
  lemma IndexInRange(mode: int, hash: string)
    ensures GetDBIndexFromHash(mode, hash) < NumDBs(mode)
    ensures GetDBIndexFromHash(mode, hash) < 0 ==> |hash| >= 3 && hash[0] == '-'
    ensures |hash| >= 3 ==>
      (GetDBIndexFromHash(SHARD_FULL_SPLIT, hash) < 0 <==> HexToInt(hash[..3]).Some? && HexToInt(hash[..3]).value < 0)
  {
    hide HexToInt, DBIndexOf;
    if |hash| >= 3 {
      Divided(mode, hash[..3]);
      Divided(mode, hash[..2]);
      Divided(mode, [hash[0]]);
      if HexToInt(hash[..3]).Some? {
        ShortBound(hash[..3]);
        SmallIndex(HexToInt(hash[..3]).value);
      } else {
        DividedSign(HexToInt(hash[..3]), 1, SHARD_FULL_SPLIT);
      }
    }
  }

  lemma Divided(mode: int, s: string)
    requires s != ""
    ensures forall divisor: nat :: Divides(divisor) ==>
              DBIndexOf(HexToInt(s), divisor, mode) < NumDBs(mode)
              && (DBIndexOf(HexToInt(s), divisor, mode) < 0 ==> s[0] == '-')
  {
    hide HexToInt, DBIndexOf;
    forall divisor: nat | Divides(divisor)
      ensures DBIndexOf(HexToInt(s), divisor, mode) < NumDBs(mode)
           && (DBIndexOf(HexToInt(s), divisor, mode) < 0 ==> s[0] == '-')
    {
      DividedSign(HexToInt(s), divisor, mode);
      if DBIndexOf(HexToInt(s), divisor, mode) < 0 {
        SignOf(s);
      }
    }
  }

  lemma SmallIndex(val: int)
    requires -4096 < val < 4096
    ensures DBIndexOf(Some(val), 1, SHARD_FULL_SPLIT) == val
  {
  }

  // ---------------------------------------------------------------------------
  // A sharded store holds what the single database holds
  // ---------------------------------------------------------------------------

  type ShardRows = map<(int, string, string), string>

  /** The upsert of one offset at the address of its key. */
  function ShardInserted(mode: int, rows: ShardRows, key: string, offset: int): ShardRows
    requires |key| >= 3
  {
    var at := Address(mode, key);
    rows[at := (if at in rows then rows[at] else "") + Entry(offset)]
  }

  function ShardStored(mode: int, inserts: seq<Insert>): ShardRows
    requires forall i :: 0 <= i < |inserts| ==> |inserts[i].key| >= 3
  {
    if inserts == [] then map[]
    else
      var last := inserts[|inserts| - 1];
      ShardInserted(mode, ShardStored(mode, inserts[..|inserts| - 1]), last.key, last.offset)
  }

  /** After any inserts under hex keys, every mode holds for every hex key exactly the text that the
      single database holds for it. */
  lemma {:induction false} ShardsRefineFlatStore(mode: int, inserts: seq<Insert>, key: string)
    requires KnownMode(mode) && HexPrefix(key)
    requires forall i :: 0 <= i < |inserts| ==> |inserts[i].key| >= 3 && HexPrefix(inserts[i].key)
    ensures Address(mode, key) in ShardStored(mode, inserts) <==> Slot(key) in Stored(inserts)
    ensures Slot(key) in Stored(inserts) ==>
              ShardStored(mode, inserts)[Address(mode, key)] == Stored(inserts)[Slot(key)]
  {
    if inserts != [] {
      hide Address, Slot, Entry;
      var last := inserts[|inserts| - 1];
      var before := inserts[..|inserts| - 1];
      ShardsRefineFlatStore(mode, before, key);
      AddressInjective(mode, last.key, key);
      SlotInjective(last.key, key);
      if last.key == key {
        ShardsRefineFlatStore(mode, before, last.key);
      }
    }
  }

  lemma SlotInjective(a: string, b: string)
    requires |a| >= 3 && |b| >= 3
    ensures Slot(a) == Slot(b) <==> a == b
  {
    assert ("s" + a[..3])[1..] == a[..3] && ("s" + b[..3])[1..] == b[..3];
    assert a == a[..3] + a[3..] && b == b[..3] + b[3..];
  }
}
