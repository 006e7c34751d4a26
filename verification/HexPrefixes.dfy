/** The list of all three-digit hex prefixes, built by a recursion that appends to shared slices,
    and the map from a prefix back to its place in the list. */
module HexPrefixes {
  import opened Strconv

  /** A Go slice of characters: the first len elements of a backing array it may share. */
  datatype Slice = Slice(arr: array<char>, len: nat)

  ghost predicate ValidSlice(s: Slice) {
    s.len <= s.arr.Length
  }

  ghost function Elements(s: Slice): string
    requires ValidSlice(s)
    reads s.arr
  {
    s.arr[..s.len]
  }

  /** Go's append of one element: in place while the backing array has room, else into a larger copy. */
  method Append(s: Slice, c: char) returns (r: Slice)
    requires ValidSlice(s)
    modifies s.arr
    ensures ValidSlice(r) && Elements(r) == old(Elements(s)) + [c]
    ensures Elements(s) == old(Elements(s))
    ensures if s.len < s.arr.Length then r.arr == s.arr else fresh(r.arr)
  {
    if s.len < s.arr.Length {
      s.arr[s.len] := c;
      r := Slice(s.arr, s.len + 1);
    } else {
      var bigger := new char[if s.len == 0 then 1 else 2 * s.len];
      var i := 0;
      while i < s.len
        invariant 0 <= i <= s.len
        invariant bigger[..i] == old(s.arr[..i])
        invariant s.arr[..] == old(s.arr[..])
      {
        bigger[i] := s.arr[i];
        i := i + 1;
      }
      bigger[s.len] := c;
      r := Slice(bigger, s.len + 1);
    }
  }

  /** All words that extend prefix by k characters, in the order of the alphabet. */
  function Combinations(chars: string, prefix: string, k: nat): seq<string>
    decreases k, |chars| + 1
  {
    if k == 0 then [prefix] else Branches(chars, chars, prefix, k)
  }

  function Branches(chars: string, rest: string, prefix: string, k: nat): seq<string>
    requires k > 0 && |rest| <= |chars|
    decreases k, |rest|
  {
    if rest == "" then []
    else Combinations(chars, prefix + [rest[0]], k - 1) + Branches(chars, rest[1..], prefix, k)
  }

  lemma {:induction false} BranchesSnoc(chars: string, done: string, c: char, prefix: string, k: nat)
    requires k > 0 && |done| < |chars|
    ensures Branches(chars, done + [c], prefix, k)
         == Branches(chars, done, prefix, k) + Combinations(chars, prefix + [c], k - 1)
  {
    hide Combinations;
    if done == "" {
      assert [c][1..] == "";
    } else {
      BranchesSnoc(chars, done[1..], c, prefix, k);
      TailOfConcat(done, [c]);
    }
  }

  /** Sibling calls overwrite the same array slot, yet the result is the prior list followed by
      every combination: a word is joined before its slot is written again. */
  method GenerateCombinations(hexChars: string, length: nat, current: Slice, prior: seq<string>)
    returns (combinations: seq<string>)
    requires ValidSlice(current) && current.len <= length
    modifies current.arr
    ensures Elements(current) == old(Elements(current))
    ensures combinations == prior + Combinations(hexChars, old(Elements(current)), length - current.len)
    decreases length - current.len
  {
    combinations := prior;
    if current.len == length {
      return combinations + [current.arr[..current.len]];
    }
    hide Combinations, Branches;
    ghost var prefix := Elements(current);
    ghost var k := length - current.len;
    BranchesUnfold(hexChars, prefix, k);
    var i := 0;
    while i < |hexChars|
      invariant 0 <= i <= |hexChars|
      invariant Elements(current) == prefix
      invariant combinations == prior + Branches(hexChars, hexChars[..i], prefix, k)
    {
      var newCombination := Append(current, hexChars[i]);
      combinations := GenerateCombinations(hexChars, length, newCombination, combinations);
      BranchesSnoc(hexChars, hexChars[..i], hexChars[i], prefix, k);
      assert hexChars[..i + 1] == hexChars[..i] + [hexChars[i]];
      assert Elements(newCombination)[..current.len] == prefix;
      i := i + 1;
    }
    assert hexChars[..i] == hexChars;
  }

  lemma BranchesUnfold(chars: string, prefix: string, k: nat)
    requires k > 0
    ensures Combinations(chars, prefix, k) == Branches(chars, chars, prefix, k)
    ensures Branches(chars, chars[..0], prefix, k) == []
  {
  }

  // ---------------------------------------------------------------------------
  // The words in order
  // ---------------------------------------------------------------------------

  /** i in k hex digits. */
  function Word(i: nat, k: nat): (w: string)
    ensures |w| == k && IsHex(w)
  {
    if k == 0 then "" else Word(Hex.Quot(i), k - 1) + [DigitChar(Hex.Rem(i))]
  }

  lemma {:induction false} WordValue(i: nat, k: nat)
    requires i < Hex.Power(k)
    ensures ParseDigits(Word(i, k), Hex) == Some(i)
  {
    hide ParseDigits, DigitValue, DigitChar;
    ParseNoDigits(Hex);
    if k > 0 {
      WordValue(Hex.Quot(i), k - 1);
      ParseSnoc(Word(Hex.Quot(i), k - 1), Hex.Rem(i), Hex);
    }
  }

  /** Hex words of one length with one value are one word. */
  lemma {:induction false} WordUnique(w: string, k: nat)
    requires |w| == k && IsHex(w)
    ensures ParseDigits(w, Hex).Some? && ParseDigits(w, Hex).value < Hex.Power(k)
    ensures Word(ParseDigits(w, Hex).value, k) == w
  {
    if k > 0 {
      var init := w[..k - 1];
      WordUnique(init, k - 1);
      var d := DigitValue(w[k - 1]);
      assert w == init + [w[k - 1]];
      var v := ParseDigits(init, Hex).value;
      assert ParseDigits(w, Hex) == Some(Hex.Times(v) + d);
      assert Hex.Quot(Hex.Times(v) + d) == v && Hex.Rem(Hex.Times(v) + d) == d;
    }
  }

  /** n blocks of p. */
  function Blocks(n: nat, p: nat): nat {
    if n == 0 then 0 else p + Blocks(n - 1, p)
  }

  /** The place of a word among the words of its length, from its first digit down. */
  function Place(w: string): nat
    requires IsHex(w)
  {
    if w == "" then 0 else Blocks(DigitValue(w[0]), Hex.Power(|w| - 1)) + Place(w[1..])
  }

  lemma {:induction false} BlocksTimes(n: nat, p: nat)
    ensures Blocks(n, Hex.Times(p)) == Hex.Times(Blocks(n, p))
  {
    if n > 0 {
      BlocksTimes(n - 1, p);
    }
  }

  lemma {:induction false} BlocksOne(n: nat)
    ensures Blocks(n, 1) == n
  {
    if n > 0 {
      BlocksOne(n - 1);
    }
  }

  lemma {:induction false} PlaceSnoc(w: string, c: char)
    requires IsHex(w) && IsHexDigit(c)
    ensures Place(w + [c]) == Hex.Times(Place(w)) + DigitValue(c)
  {
    hide DigitValue;
    if w == "" {
      assert Hex.Power(0) == 1;
      BlocksOne(DigitValue(c));
      assert ([c])[1..] == "";
    } else {
      PlaceSnoc(w[1..], c);
      TailOfConcat(w, [c]);
      BlocksTimes(DigitValue(w[0]), Hex.Power(|w| - 1));
    }
  }

  lemma {:induction false} PlaceIsValue(w: string)
    requires IsHex(w)
    ensures ParseDigits(w, Hex) == Some(Place(w))
  {
    hide DigitValue, Place;
    PlaceOfNothing();
    if w != "" {
      var init := w[..|w| - 1];
      PlaceIsValue(init);
      PlaceSnoc(init, w[|w| - 1]);
      assert w == init + [w[|w| - 1]];
    }
  }

  lemma PlaceOfNothing()
    ensures Place("") == 0
  {
  }

  lemma {:induction false} CombinationsLength(prefix: string, k: nat)
    ensures |Combinations(DIGITS, prefix, k)| == Hex.Power(k)
    decreases k, 17
  {
    if k > 0 {
      BranchesLength(DIGITS, prefix, k);
      BlocksProduct(16, Hex.Power(k - 1));
    }
  }

  lemma {:induction false} BlocksProduct(n: nat, p: nat)
    ensures Blocks(n, p) == n * p
  {
    if n > 0 {
      BlocksProduct(n - 1, p);
    }
  }

  lemma {:induction false} BranchesLength(rest: string, prefix: string, k: nat)
    requires k > 0 && |rest| <= 16
    ensures |Branches(DIGITS, rest, prefix, k)| == Blocks(|rest|, Hex.Power(k - 1))
    decreases k, |rest|
  {
    if rest != "" {
      CombinationsLength(prefix + [rest[0]], k - 1);
      BranchesLength(rest[1..], prefix, k);
    }
  }

  lemma PlaceUnfold(w: string)
    requires w != "" && IsHex(w)
    ensures Place(w) == Blocks(DigitValue(w[0]), Hex.Power(|w| - 1)) + Place(w[1..])
  {
    hide DigitValue;
  }

  lemma BranchesStep(prefix: string, d: nat, k: nat)
    requires k > 0 && d < 16
    ensures Branches(DIGITS, DIGITS[d..], prefix, k)
         == Combinations(DIGITS, prefix + [DIGITS[d]], k - 1) + Branches(DIGITS, DIGITS[d + 1..], prefix, k)
  {
    hide Combinations;
    assert DIGITS[d..][1..] == DIGITS[d + 1..];
  }

  lemma NoWord(prefix: string)
    ensures Place("") == 0 && Combinations(DIGITS, prefix, 0) == [prefix] && prefix + "" == prefix
  {
  }

  /** Word w stands at its place among the words of its length. */
  lemma {:induction false} WordAtPlace(prefix: string, w: string)
    requires IsHex(w)
    ensures Place(w) < |Combinations(DIGITS, prefix, |w|)|
    ensures Combinations(DIGITS, prefix, |w|)[Place(w)] == prefix + w
    decreases |w|, 17
  {
    hide Combinations, Branches, Place, DigitValue, Radix.Power, Blocks;
    if w == "" {
      NoWord(prefix);
    } else {
      WordInBranches(prefix, w, 0);
      PlaceUnfold(w);
      BranchesUnfold(DIGITS, prefix, |w|);
      assert DIGITS[0..] == DIGITS;
    }
  }

  lemma {:induction false} WordInBranches(prefix: string, w: string, d: nat)
    requires w != "" && IsHex(w) && d <= DigitValue(w[0])
    ensures var skip := Blocks(DigitValue(w[0]) - d, Hex.Power(|w| - 1)) + Place(w[1..]);
      && skip < |Branches(DIGITS, DIGITS[d..], prefix, |w|)|
      && Branches(DIGITS, DIGITS[d..], prefix, |w|)[skip] == prefix + w
    decreases |w|, 16 - d
  {
    hide Combinations, Branches, Place, DigitValue, Radix.Power;
    var k := |w| - 1;
    BranchesStep(prefix, d, |w|);
    CombinationsLength(prefix + [DIGITS[d]], k);
    if d == DigitValue(w[0]) {
      WordAtPlace(prefix + [DIGITS[d]], w[1..]);
      assert [DIGITS[d]] + w[1..] == w;
      ConcatAssoc(prefix, [DIGITS[d]], w[1..]);
    } else {
      WordInBranches(prefix, w, d + 1);
    }
  }

  /** The i-th combination of k hex digits is i in k hex digits; there are 16 to the k of them. */
  lemma CombinationsInOrder(k: nat, i: nat)
    requires i < Hex.Power(k)
    ensures |Combinations(DIGITS, "", k)| == Hex.Power(k)
    ensures Combinations(DIGITS, "", k)[i] == Word(i, k)
  {
    hide Combinations, Place, Word, ParseDigits;
    CombinationsLength("", k);
    WordValue(i, k);
    PlaceIsValue(Word(i, k));
    WordAtPlace("", Word(i, k));
  }

  lemma PadSnoc(i: nat, k: nat)
    requires k >= 2 && 16 <= i < Hex.Power(k)
    ensures PadInt(i, Hex, k) == PadInt(Hex.Quot(i), Hex, k - 1) + [DigitChar(Hex.Rem(i))]
  {
    hide DigitChar, Radix.Power, Radix.Quot, Radix.Rem, Repeat;
    FormatNatLength(i, Hex, k);
    var q := Hex.Quot(i);
    var digits := FormatNat(q, Hex);
    assert FormatNat(i, Hex) == digits + [DigitChar(Hex.Rem(i))];
    ConcatAssoc(Repeat('0', k - 1 - |digits|), digits, [DigitChar(Hex.Rem(i))]);
  }

  /** fmt's %0kx prints the same word. */
  lemma {:induction false} WordIsPadded(i: nat, k: nat)
    requires k >= 1 && i < Hex.Power(k)
    ensures Word(i, k) == PadInt(i, Hex, k)
  {
    hide FormatNat, DigitChar;
    if i < 16 {
      ZeroWord(k - 1);
      OneDigit(i);
    } else {
      hide PadInt;
      ThreeDigits();
      WordIsPadded(Hex.Quot(i), k - 1);
      PadSnoc(i, k);
    }
  }

  lemma OneDigit(i: nat)
    requires i < 16
    ensures FormatNat(i, Hex) == [DigitChar(i)] && Hex.Quot(i) == 0 && Hex.Rem(i) == i
  {
  }

  lemma {:induction false} ZeroWord(k: nat)
    ensures Word(0, k) == Repeat('0', k)
  {
    if k > 0 {
      ZeroWord(k - 1);
    }
  }

  // ---------------------------------------------------------------------------
  // ROOTDBS and charsMap
  // ---------------------------------------------------------------------------

  const NUM_CACHE_DBS := 4096

  ghost function RootDBs(cutChar: nat): seq<string> {
    Combinations(DIGITS, "", cutChar)
  }

  /** For every prefix length ROOTDBS lists 16 to that power prefixes; the i-th is i printed with
      that many hex digits, so none is repeated. */
  lemma RootDBsInOrder(cutChar: nat)
    requires cutChar >= 1
    ensures |RootDBs(cutChar)| == Hex.Power(cutChar)
    ensures forall i :: 0 <= i < |RootDBs(cutChar)| ==> RootDBs(cutChar)[i] == PadInt(i, Hex, cutChar) == Word(i, cutChar)
    ensures forall i, j :: 0 <= i < j < |RootDBs(cutChar)| ==> RootDBs(cutChar)[i] != RootDBs(cutChar)[j]
    ensures forall c :: c in RootDBs(cutChar) ==> |c| == cutChar && IsHex(c)
  {
    hide Combinations, Word, PadInt, ParseDigits, Radix.Power;
    CombinationsInOrder(cutChar, 0);
    forall i | 0 <= i < Hex.Power(cutChar)
      ensures RootDBs(cutChar)[i] == PadInt(i, Hex, cutChar) == Word(i, cutChar)
      ensures ParseDigits(RootDBs(cutChar)[i], Hex) == Some(i)
    {
      CombinationsInOrder(cutChar, i);
      WordIsPadded(i, cutChar);
      WordValue(i, cutChar);
    }
  }

  lemma ThreeDigits()
    ensures Hex.Power(3) == NUM_CACHE_DBS && Hex.Power(2) == 256 && Hex.Power(1) == 16
  {
    assert Hex.Power(0) == 1;
    assert Hex.Power(2) == Hex.Times(Hex.Power(1));
  }

  method InitCharsMap(rootDBs: seq<string>) returns (charsMap: map<string, int>)
    requires forall i, j :: 0 <= i < j < |rootDBs| ==> rootDBs[i] != rootDBs[j]
    ensures forall i :: 0 <= i < |rootDBs| ==> rootDBs[i] in charsMap && charsMap[rootDBs[i]] == i
    ensures forall c :: c in charsMap ==> c in rootDBs
  {
    charsMap := map[];
    var i := 0;
    while i < |rootDBs|
      invariant 0 <= i <= |rootDBs|
      invariant forall j :: 0 <= j < i ==> rootDBs[j] in charsMap && charsMap[rootDBs[j]] == j
      invariant forall c :: c in charsMap ==> c in rootDBs
    {
      charsMap := charsMap[rootDBs[i] := i];
      i := i + 1;
    }
  }

  /** A Go map answers 0 for a key it does not hold. */
  function Lookup(charsMap: map<string, int>, char3: string): int {
    if char3 in charsMap then charsMap[char3] else 0
  }

  /** The place charsMap gives a prefix: its value when it is three lowercase hex digits, else 0. */
  function CharIndex(char3: string): (i: nat)
    ensures i < NUM_CACHE_DBS
  {
    if |char3| == 3 && IsHex(char3) then
      WordUnique(char3, 3);
      ThreeDigits();
      ParseDigits(char3, Hex).value
    else 0
  }

  /** A map that inverts ROOTDBS, as InitCharsMap builds it, looks prefixes up by their value. */
  lemma CharsMapIsCharIndex(charsMap: map<string, int>, char3: string)
    requires forall i :: 0 <= i < |RootDBs(3)| ==> RootDBs(3)[i] in charsMap && charsMap[RootDBs(3)[i]] == i
    requires forall c :: c in charsMap ==> c in RootDBs(3)
    ensures Lookup(charsMap, char3) == CharIndex(char3)
  {
    hide RootDBs, Combinations, Word, PadInt, ParseDigits;
    RootDBsInOrder(3);
    ThreeDigits();
    if |char3| == 3 && IsHex(char3) {
      WordUnique(char3, 3);
      assert RootDBs(3)[CharIndex(char3)] == char3;
    }
  }
}
