/** What `getMovies` reports: one record per Movies row, each credited to
    the first suggestion of its title. */
module Listing {
  import opened Ascii
  import opened Sheets

  /** The record `getMovies` emits for one movie; `None` is JSON null. */
  datatype Movie = Movie(
    id: int,
    title: string,
    votes: int,
    suggester: Option<string>,
    timestamp: Option<Timestamp>,
    watchedDate: Option<Cell>,
    markedBy: Option<Cell>)

  /** The `{suggester, timestamp}` entry of the suggester map. */
  datatype Credit = Credit(suggester: string, timestamp: Timestamp)

  /** A falsy cell is reported as null. */
  function OrNull(c: Cell): Option<Cell>
  {
    if Truthy(c) then Some(c) else None
  }

  /** Suggestion j is the first one whose lowered title is `key`. */
  predicate FirstSuggestionAt(log: seq<Suggestion>, key: string, j: int)
  {
    0 <= j < |log| && Lower(log[j].title) == key &&
    forall k :: 0 <= k < j ==> Lower(log[k].title) != key
  }

  /** The credit the suggester map holds for `key`, if any. */
  function CreditFor(log: seq<Suggestion>, key: string): Option<Credit>
  {
    match First(SuggestionKeys(log), key)
    case None => None
    case Some(j) => Some(Credit(log[j].name, log[j].at))
  }

  /** The record of one Movies row. */
  function Present(row: MovieRow, log: seq<Suggestion>): Movie
  {
    var credit := CreditFor(log, Lower(row.title));
    Movie(row.id, row.title, row.votes,
          if credit.Some? then Some(credit.value.suggester) else None,
          if credit.Some? then Some(credit.value.timestamp) else None,
          OrNull(row.watched), OrNull(row.markedBy))
  }

  lemma PresentFacts(rows: seq<MovieRow>, log: seq<Suggestion>)
    ensures forall i, j :: 0 <= i < |rows| && FirstSuggestionAt(log, Lower(rows[i].title), j) ==>
              Present(rows[i], log).suggester == Some(log[j].name) &&
              Present(rows[i], log).timestamp == Some(log[j].at)
  {
    forall i, j | 0 <= i < |rows| && FirstSuggestionAt(log, Lower(rows[i].title), j)
      ensures Present(rows[i], log).suggester == Some(log[j].name)
      ensures Present(rows[i], log).timestamp == Some(log[j].at)
    {
      FirstIsUnique(SuggestionKeys(log), Lower(rows[i].title), j);
    }
  }

  /** The JSON array `getMovies` returns: one record per Movies row in sheet
      order, title casing as stored, credited to the first suggestion that
      matches case-insensitively, null credit when none does, and null for
      falsy Watched Date and Marked By cells. */
  function Movies(rows: seq<MovieRow>, log: seq<Suggestion>): (r: seq<Movie>)
    ensures |r| == |rows|
    ensures forall i :: 0 <= i < |rows| ==>
              r[i].id == rows[i].id && r[i].title == rows[i].title && r[i].votes == rows[i].votes
    ensures forall i :: 0 <= i < |rows| ==>
              (r[i].suggester.None? <==>
                 forall j :: 0 <= j < |log| ==> Lower(log[j].title) != Lower(rows[i].title))
    ensures forall i :: 0 <= i < |rows| ==> (r[i].timestamp.None? <==> r[i].suggester.None?)
    ensures forall i, j :: 0 <= i < |rows| && FirstSuggestionAt(log, Lower(rows[i].title), j) ==>
              r[i].suggester == Some(log[j].name) && r[i].timestamp == Some(log[j].at)
    ensures forall i :: 0 <= i < |rows| ==>
              (r[i].watchedDate.None? <==> !Truthy(rows[i].watched)) &&
              (r[i].watchedDate.Some? ==> r[i].watchedDate.value == rows[i].watched)
    ensures forall i :: 0 <= i < |rows| ==>
              (r[i].markedBy.None? <==> !Truthy(rows[i].markedBy)) &&
              (r[i].markedBy.Some? ==> r[i].markedBy.value == rows[i].markedBy)
  {
    PresentFacts(rows, log);
    seq(|rows|, i requires 0 <= i < |rows| => Present(rows[i], log))
  }

  /** Appending a suggestion: an earlier credit stays, otherwise the new
      suggestion credits its own title. */
  lemma CreditSnoc(log: seq<Suggestion>, s: Suggestion, key: string)
    ensures CreditFor(log + [s], key) ==
              if key in SuggestionKeys(log) then CreditFor(log, key)
              else if key == Lower(s.title) then Some(Credit(s.name, s.at))
              else None
  {
    assert SuggestionKeys(log + [s]) == SuggestionKeys(log) + [Lower(s.title)];
    FirstSnoc(SuggestionKeys(log), Lower(s.title), key);
  }

  /** Appending a Movies row appends its record. */
  lemma MoviesSnoc(rows: seq<MovieRow>, row: MovieRow, log: seq<Suggestion>)
    ensures Movies(rows + [row], log) == Movies(rows, log) + [Present(row, log)]
  {
    var lhs, rhs := Movies(rows + [row], log), Movies(rows, log) + [Present(row, log)];
    assert forall i :: 0 <= i < |rows| ==> (rows + [row])[i] == rows[i];
    assert forall i :: 0 <= i < |lhs| ==> lhs[i] == rhs[i];
  }

  /** A later suggestion of a title that was already suggested, in any
      casing, changes no record. */
  lemma LaterSuggestionIgnored(rows: seq<MovieRow>, log: seq<Suggestion>, s: Suggestion)
    requires exists j :: 0 <= j < |log| && Lower(log[j].title) == Lower(s.title)
    ensures Movies(rows, log + [s]) == Movies(rows, log)
  {
    var keys := SuggestionKeys(log);
    assert Lower(s.title) in keys;
    forall key ensures CreditFor(log + [s], key) == CreditFor(log, key) {
      CreditSnoc(log, s, key);
    }
    forall i | 0 <= i < |rows| ensures Present(rows[i], log + [s]) == Present(rows[i], log) {
    }
  }
}
