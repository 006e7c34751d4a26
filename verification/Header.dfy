/** The zero-padded header of history.dat. The settings text inside it is opaque here. */
module Header {
  import opened Strconv
  import opened HistoryFile

  const NUL: char := '\0'

  function NullPad(input: string, length: nat): string {
    if |input| < length then input + Repeat(NUL, length - |input|) else input
  }

  /** strings.Replace of every NUL by nothing. */
  function RemoveNullPad(input: string): string {
    if input == "" then ""
    else (if input[0] == NUL then "" else [input[0]]) + RemoveNullPad(input[1..])
  }

  /** The reader stops at the first newline; a file without one is an error. */
  method FseekHistoryHeader(disk: string) returns (output: string, ok: bool)
    ensures ok <==> '\n' in disk
    ensures ok ==> |output| < |disk| && output == disk[..|output|] && disk[|output|] == '\n' && '\n' !in output
  {
    output := "";
    var i := 0;
    while i < |disk|
      invariant 0 <= i <= |disk|
      invariant output == disk[..i] && '\n' !in output
    {
      var c := disk[i];
      if c == '\n' {
        return output, true;
      }
      output := output + [c];
      i := i + 1;
    }
    ok := false;
  }

  /** Padding puts NULs behind the text up to the length, and leaves longer text alone. */
  lemma PadShape(input: string, length: nat)
    ensures input <= NullPad(input, length)
    ensures |NullPad(input, length)| == if |input| < length then length else |input|
    ensures forall i :: |input| <= i < |NullPad(input, length)| ==> NullPad(input, length)[i] == NUL
  {
  }

  lemma {:induction false} RemoveFromConcat(a: string, b: string)
    ensures RemoveNullPad(a + b) == RemoveNullPad(a) + RemoveNullPad(b)
  {
    if a == "" {
      assert a + b == b;
    } else {
      RemoveFromConcat(a[1..], b);
      TailOfConcat(a, b);
    }
  }

  lemma {:induction false} RemoveNuls(n: nat)
    ensures RemoveNullPad(Repeat(NUL, n)) == ""
  {
    if n > 0 {
      RemoveNuls(n - 1);
      assert Repeat(NUL, n)[1..] == Repeat(NUL, n - 1);
    }
  }

  lemma {:induction false} RemoveLength(s: string)
    ensures |RemoveNullPad(s)| <= |s|
    ensures |RemoveNullPad(s)| == |s| <==> NUL !in s
    ensures NUL !in s ==> RemoveNullPad(s) == s
  {
    if s != "" {
      RemoveLength(s[1..]);
      assert s == [s[0]] + s[1..];
    }
  }

  /** Padding is undone exactly for text that holds no NUL itself. */
  lemma PadRoundTrip(input: string, length: nat)
    ensures RemoveNullPad(NullPad(input, length)) == input <==> NUL !in input
  {
    hide RemoveNullPad;
    RemoveLength(input);
    if |input| < length {
      RemoveFromConcat(input, Repeat(NUL, length - |input|));
      RemoveNuls(length - |input|);
      assert RemoveNullPad(input) + "" == RemoveNullPad(input);
    }
  }

  /** Booting a new file and reading its header back: any settings text of at most 4095 characters
      without NUL or newline makes a header of 4096 bytes, on disk at once, and is read back from it. */
  method CreateAndReadHeader(settings: string, bufmax: int) returns (file: HistoryDat, text: string)
    requires |settings| <= ZERO_PAD_LEN && NUL !in settings && '\n' !in settings
    ensures file.disk == NullPad(settings, ZERO_PAD_LEN) + "\n" && |file.disk| == HEADER_LEN
    ensures file.buf == "" && file.offset == HEADER_LEN
    ensures text == settings && settings <= file.disk
  {
    hide RemoveNullPad;
    file := new HistoryDat(bufmax, "");
    var data := NullPad(settings, ZERO_PAD_LEN);
    var written := file.WriteHistoryHeader(data, true);
    assert file.disk + file.buf == file.disk && "" + "" + data + "\n" == data + "\n";
    assert |data| == ZERO_PAD_LEN && file.disk == data + "\n";
    var output, ok := FseekHistoryHeader(file.disk);
    assert file.disk[ZERO_PAD_LEN] == '\n';
    assert output == data by {
      assert forall i :: 0 <= i < |data| ==> file.disk[i] == data[i] && data[i] != '\n';
    }
    PadRoundTrip(settings, ZERO_PAD_LEN);
    text := RemoveNullPad(output);
  }
}
