/** The text a client sends for a history object, and the server's reading of it. */
module Wire {
  import opened Strconv
  import opened HistoryFile

  function ConvertHistoryObjectToString(obj: HistoryObject): string {
    obj.hash + " " + obj.token + " " + FormatInt(obj.arrival, Dec) + " " + FormatInt(obj.expires, Dec) + " "
      + FormatInt(obj.date, Dec)
  }

  /** None is the source's error: a wrong number of parts, or a field that is not an int64. */
  function ConvertStringToHistoryObject(parts: seq<string>): Option<HistoryObject> {
    if |parts| != 5 then None
    else
      match (ParseInt(parts[2], Dec), ParseInt(parts[3], Dec), ParseInt(parts[4], Dec))
      case (Some(arrival), Some(expires), Some(date)) =>
        Some(HistoryObject(parts[0], parts[1], arrival, expires, date))
      case _ => None
  }

  /** An object is answered exactly for five parts of which the last three are int64 texts, and it holds
      them in their order: hash, token, arrival, expires, date. */
  lemma ParsedExactly(parts: seq<string>, obj: HistoryObject)
    ensures ConvertStringToHistoryObject(parts) == Some(obj) <==>
      && |parts| == 5 && parts[0] == obj.hash && parts[1] == obj.token
      && ParseInt(parts[2], Dec) == Some(obj.arrival)
      && ParseInt(parts[3], Dec) == Some(obj.expires)
      && ParseInt(parts[4], Dec) == Some(obj.date)
    ensures ConvertStringToHistoryObject(parts) == None <==>
      |parts| != 5 || exists i :: 2 <= i < 5 && ParseInt(parts[i], Dec) == None
  {
    hide ParseInt;
    if |parts| == 5 {
      assert forall i :: 2 <= i < 5 ==> parts[i] == parts[2] || parts[i] == parts[3] || parts[i] == parts[4];
    }
  }

  predicate Int64Fields(obj: HistoryObject) {
    IsInt64(obj.arrival) && IsInt64(obj.expires) && IsInt64(obj.date)
  }

  lemma {:induction false} SplitNumbers(a: int, b: int, c: int)
    ensures var x, y, z := FormatInt(a, Dec), FormatInt(b, Dec), FormatInt(c, Dec);
      Split(x + " " + y + " " + z, ' ') == [x, y, z]
  {
    hide FormatInt, Split;
    var x, y, z := FormatInt(a, Dec), FormatInt(b, Dec), FormatInt(c, Dec);
    SplitWhole(z, ' ');
    SplitFirst(y, z, ' ');
    SplitFirst(x, y + " " + z, ' ');
    assert x + [' '] + (y + " " + z) == x + " " + y + " " + z;
  }

  lemma SplitObject(hash: string, token: string, numbers: string)
    requires ' ' !in hash && ' ' !in token
    ensures Split(hash + " " + (token + " " + numbers), ' ') == [hash, token] + Split(numbers, ' ')
  {
    hide Split;
    SplitFirst(token, numbers, ' ');
    SplitFirst(hash, token + " " + numbers, ' ');
  }

  function Numbers(obj: HistoryObject): string {
    FormatInt(obj.arrival, Dec) + " " + FormatInt(obj.expires, Dec) + " " + FormatInt(obj.date, Dec)
  }

  lemma TextParts(obj: HistoryObject)
    ensures ConvertHistoryObjectToString(obj) == obj.hash + " " + (obj.token + " " + Numbers(obj))
  {
    hide FormatInt;
    var x, y, z := FormatInt(obj.arrival, Dec), FormatInt(obj.expires, Dec), FormatInt(obj.date, Dec);
    assert obj.hash + " " + obj.token + " " + x + " " + y + " " + z
        == obj.hash + " " + (obj.token + " " + (x + " " + y + " " + z));
  }

  /** A space in the hash or the token makes a sixth part. */
  lemma ExtraSpaces(obj: HistoryObject)
    requires ' ' in obj.hash || ' ' in obj.token
    ensures |Split(ConvertHistoryObjectToString(obj), ' ')| > 5
  {
    hide ConvertHistoryObjectToString, Numbers, Split;
    TextParts(obj);
    var rest := obj.token + " " + Numbers(obj);
    SplitCount(obj.hash + " " + rest, ' ');
    CountCharConcat(obj.hash + " ", rest, ' ');
    CountCharConcat(obj.hash, " ", ' ');
    CountCharConcat(obj.token + " ", Numbers(obj), ' ');
    CountCharConcat(obj.token, " ", ' ');
    CountCharZero(obj.hash, ' ');
    CountCharZero(obj.token, ' ');
    NumbersHaveTwoSpaces(obj);
    OneSpace();
    assert obj.hash + " " + rest == (obj.hash + " ") + rest;
  }

  lemma OneSpace()
    ensures CountChar(" ", ' ') == 1
  {
    assert " "[1..] == "";
  }

  lemma NumbersHaveTwoSpaces(obj: HistoryObject)
    ensures CountChar(Numbers(obj), ' ') == 2
  {
    hide FormatInt, CountChar, Split;
    SplitNumbers(obj.arrival, obj.expires, obj.date);
    SplitCount(Numbers(obj), ' ');
  }

  /** The client's text without stray spaces: hash, token and the three numbers, in this order. */
  lemma PartsWritten(obj: HistoryObject)
    requires ' ' !in obj.hash && ' ' !in obj.token
    ensures Split(ConvertHistoryObjectToString(obj), ' ')
         == [obj.hash, obj.token, FormatInt(obj.arrival, Dec), FormatInt(obj.expires, Dec), FormatInt(obj.date, Dec)]
  {
    hide FormatInt, Split, ConvertHistoryObjectToString;
    TextParts(obj);
    SplitObject(obj.hash, obj.token, Numbers(obj));
    SplitNumbers(obj.arrival, obj.expires, obj.date);
  }

  /** Splitting on spaces and decoding restores the object, over all int64 values and even for an
      empty hash or token, exactly when neither hash nor token holds a space. */
  lemma WireRoundTrip(obj: HistoryObject)
    requires Int64Fields(obj)
    ensures ConvertStringToHistoryObject(Split(ConvertHistoryObjectToString(obj), ' ')) == Some(obj)
       <==> ' ' !in obj.hash && ' ' !in obj.token
  {
    hide FormatInt, ParseInt, Split, ConvertHistoryObjectToString;
    if ' ' in obj.hash || ' ' in obj.token {
      ExtraSpaces(obj);
    } else {
      PartsWritten(obj);
      ParseFormatInt(obj.arrival, Dec);
      ParseFormatInt(obj.expires, Dec);
      ParseFormatInt(obj.date, Dec);
    }
  }
}
