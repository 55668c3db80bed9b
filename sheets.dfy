/** The three sheets of the store as typed rows, and the case-insensitive
    lookups every operation performs on them. Header rows are not stored:
    index k of a table here is row k + 2 of the sheet (values index k + 1). */
module Sheets {
  import opened Ascii

  datatype Option<T> = None | Some(value: T)

  /** Milliseconds since the epoch: the value a cell holding a Date stands for. */
  type Timestamp = int

  /** A free-form cell, as found in the Watched Date and Marked By columns.
      An empty cell reads back as "" and is `Blank` here. */
  datatype Cell = Blank | Str(s: string) | Num(n: int) | Date(t: Timestamp)

  /** JavaScript truthiness of a cell value, the test behind `cell || null`:
      "", 0 and the empty cell are falsy, a Date is always truthy. */
  predicate Truthy(c: Cell)
  {
    match c
    case Blank => false
    case Str(s) => s != ""
    case Num(n) => n != 0
    case Date(_) => true
  }

  /** The cell the model stores for a written string: "" empties the cell,
      so it reads back as `Blank`; any other string is stored as that text,
      without the spreadsheet's parsing of numbers, dates and formulas. */
  function Written(s: string): (c: Cell)
    ensures c == Blank <==> s == ""
    ensures s != "" ==> c == Str(s)
    ensures Truthy(c) <==> s != ""
  {
    if s == "" then Blank else Str(s)
  }

  /** One row of Movies: ID, Title, Votes, Watched Date, Marked By. */
  datatype MovieRow = MovieRow(id: int, title: string, votes: int, watched: Cell, markedBy: Cell)

  /** One row of Suggestions: Timestamp, Name, Title. */
  datatype Suggestion = Suggestion(at: Timestamp, name: string, title: string)

  /** One row of Votes: Timestamp, Voter Name, Pick #1, Pick #2, Pick #3. */
  datatype VoteRow = VoteRow(at: Timestamp, name: string, pick1: string, pick2: string, pick3: string)

  /** The lowered Title column of Movies. */
  function TitleKeys(rows: seq<MovieRow>): (keys: seq<string>)
    ensures |keys| == |rows|
    ensures forall i :: 0 <= i < |rows| ==> keys[i] == Lower(rows[i].title)
  {
    seq(|rows|, i requires 0 <= i < |rows| => Lower(rows[i].title))
  }

  /** The lowered Title column of Suggestions. */
  function SuggestionKeys(log: seq<Suggestion>): (keys: seq<string>)
    ensures |keys| == |log|
    ensures forall i :: 0 <= i < |log| ==> keys[i] == Lower(log[i].title)
  {
    seq(|log|, i requires 0 <= i < |log| => Lower(log[i].title))
  }

  /** The index of the first occurrence of `key`, the lookup of a scan that
      stops at its first match. */
  function First(keys: seq<string>, key: string): (r: Option<nat>)
    ensures r.Some? ==> r.value < |keys| && keys[r.value] == key
    ensures r.Some? ==> forall j :: 0 <= j < r.value ==> keys[j] != key
    ensures r.None? <==> key !in keys
  {
    if |keys| == 0 then None
    else if keys[0] == key then Some(0)
    else
      assert keys == [keys[0]] + keys[1..];
      match First(keys[1..], key)
      case None => None
      case Some(j) => Some(j + 1)
  }

  /** The index of the last occurrence of `key`, the entry a dictionary
      filled in table order keeps (the last write wins). */
  function Last(keys: seq<string>, key: string): (r: Option<nat>)
    ensures r.Some? ==> r.value < |keys| && keys[r.value] == key
    ensures r.Some? ==> forall j :: r.value < j < |keys| ==> keys[j] != key
    ensures r.None? <==> key !in keys
  {
    if |keys| == 0 then None
    else if keys[|keys| - 1] == key then Some(|keys| - 1)
    else
      assert keys == keys[..|keys| - 1] + [keys[|keys| - 1]];
      Last(keys[..|keys| - 1], key)
  }

  /** An index that matches and has no match before it is what First finds. */
  lemma FirstIsUnique(keys: seq<string>, key: string, j: nat)
    requires j < |keys| && keys[j] == key
    requires forall i :: 0 <= i < j ==> keys[i] != key
    ensures First(keys, key) == Some(j)
  {
    assert key in keys;
  }

  /** Scanning one more row: an earlier match is kept, otherwise the new row
      is the first match exactly when it matches. */
  lemma FirstSnoc(keys: seq<string>, x: string, key: string)
    ensures First(keys + [x], key) ==
              if key in keys then First(keys, key)
              else if x == key then Some(|keys|)
              else None
  {
    var ks := keys + [x];
    assert forall i :: 0 <= i < |keys| ==> ks[i] == keys[i];
    if key in keys {
      var j := First(keys, key).value;
      FirstIsUnique(ks, key, j);
    } else if x == key {
      FirstIsUnique(ks, key, |keys|);
    } else {
      assert key !in ks;
    }
  }

  /** Filling a dictionary with one more row: the new row overwrites when it
      matches, otherwise the earlier entry stays. */
  lemma LastSnoc(keys: seq<string>, x: string, key: string)
    ensures Last(keys + [x], key) == if x == key then Some(|keys|) else Last(keys, key)
  {
    assert (keys + [x])[..|keys|] == keys;
  }
}
