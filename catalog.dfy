/** What `recordSuggestion`, `markMovieWatched` and `unmarkMovieWatched` do
    to the Movies table, and the invariants these operations keep. */
module Catalog {
  import opened Ascii
  import opened Sheets
  import opened Listing

  /** The id a new movie gets: the id of the last row plus one, or 1 when
      only the header row exists. */
  function NextId(rows: seq<MovieRow>): int
  {
    if |rows| > 0 then rows[|rows| - 1].id + 1 else 1
  }

  /** The row `recordSuggestion` appends: `[newId, suggestion, 0]`, the
      Watched Date and Marked By cells left empty. */
  function NewMovie(rows: seq<MovieRow>, title: string): MovieRow
  {
    MovieRow(NextId(rows), title, 0, Blank, Blank)
  }

  /** Movies after a suggestion of `title`: unchanged when some existing title
      equals it case-insensitively, otherwise one new row at the end. */
  function WithSuggestion(rows: seq<MovieRow>, title: string): seq<MovieRow>
  {
    if Lower(title) in TitleKeys(rows) then rows else rows + [NewMovie(rows, title)]
  }

  /** Row i is the first row whose title equals `title` case-insensitively:
      the row the scans of the mark and unmark operations stop at. */
  predicate FirstMatchAt(rows: seq<MovieRow>, title: string, i: int)
  {
    0 <= i < |rows| && Lower(rows[i].title) == Lower(title) &&
    forall j :: 0 <= j < i ==> Lower(rows[j].title) != Lower(title)
  }

  /** Movies after marking `title` watched at `now` by `marker`. */
  function Marked(rows: seq<MovieRow>, title: string, now: Timestamp, marker: string): seq<MovieRow>
  {
    match First(TitleKeys(rows), Lower(title))
    case None => rows
    case Some(k) => rows[k := rows[k].(watched := Date(now), markedBy := Written(marker))]
  }

  /** Movies after unmarking `title`: both cells set to "". */
  function Unmarked(rows: seq<MovieRow>, title: string): seq<MovieRow>
  {
    match First(TitleKeys(rows), Lower(title))
    case None => rows
    case Some(k) => rows[k := rows[k].(watched := Blank, markedBy := Blank)]
  }

  /** No two rows share a lowered title. */
  predicate UniqueTitles(rows: seq<MovieRow>)
  {
    forall i, j :: 0 <= i < j < |rows| ==> Lower(rows[i].title) != Lower(rows[j].title)
  }

  /** Ids grow strictly down the sheet. */
  predicate IdsIncreasing(rows: seq<MovieRow>)
  {
    forall i, j :: 0 <= i < j < |rows| ==> rows[i].id < rows[j].id
  }

  // ----- suggestions -----

  /** A suggestion keeps the existing rows, adds at most one row, and leaves
      the title known; the row it adds has the next id, the suggested title
      as typed and 0 votes. */
  lemma SuggestionAddsAtMostOne(rows: seq<MovieRow>, title: string)
    ensures var after := WithSuggestion(rows, title);
      after[..|rows|] == rows &&
      Lower(title) in TitleKeys(after) &&
      (Lower(title) in TitleKeys(rows) <==> |after| == |rows|) &&
      (|after| == |rows| + 1 ==> after[|rows|] == MovieRow(NextId(rows), title, 0, Blank, Blank))
  {
    var after := WithSuggestion(rows, title);
    if Lower(title) !in TitleKeys(rows) {
      assert TitleKeys(after)[|rows|] == Lower(title);
    }
  }

  /** Repeating a suggestion, in any casing, never adds a second row. */
  lemma SuggestionIdempotent(rows: seq<MovieRow>, title: string, again: string)
    requires Lower(again) == Lower(title)
    ensures WithSuggestion(WithSuggestion(rows, title), again) == WithSuggestion(rows, title)
  {
    SuggestionAddsAtMostOne(rows, title);
  }

  /** When movies enter the sheet only through suggestions, titles stay
      unique case-insensitively. */
  lemma SuggestionKeepsTitlesUnique(rows: seq<MovieRow>, title: string)
    requires UniqueTitles(rows)
    ensures UniqueTitles(WithSuggestion(rows, title))
  {
    var after := WithSuggestion(rows, title);
    if Lower(title) !in TitleKeys(rows) {
      forall i, j | 0 <= i < j < |after| ensures Lower(after[i].title) != Lower(after[j].title) {
        if j == |rows| {
          assert TitleKeys(rows)[i] == Lower(after[i].title);
        }
      }
    }
  }

  /** The last-id-plus-one rule keeps increasing ids increasing, so a new id
      is larger than, and distinct from, every id already in use. */
  lemma SuggestionKeepsIdsIncreasing(rows: seq<MovieRow>, title: string)
    requires IdsIncreasing(rows)
    ensures IdsIncreasing(WithSuggestion(rows, title))
    ensures forall i :: 0 <= i < |rows| ==> rows[i].id < NextId(rows)
    ensures rows == [] ==> NextId(rows) == 1
  {
    var n := |rows|;
    forall i | 0 <= i < n ensures rows[i].id < NextId(rows) {
      if i < n - 1 {
        assert rows[i].id < rows[n - 1].id;
      }
    }
  }

  /** A suggestion of a title neither movie nor suggestion log has seen shows
      up in `getMovies` as a new last record: the next id, the title as
      typed, 0 votes, credited to its suggester at `now`, not watched; every
      earlier record is unchanged. */
  lemma NewSuggestionListed(rows: seq<MovieRow>, log: seq<Suggestion>, now: Timestamp, name: string, title: string)
    requires Lower(title) !in TitleKeys(rows)
    requires Lower(title) !in SuggestionKeys(log)
    ensures Movies(WithSuggestion(rows, title), log + [Suggestion(now, name, title)]) ==
            Movies(rows, log) + [Movie(NextId(rows), title, 0, Some(name), Some(now), None, None)]
  {
    var s := Suggestion(now, name, title);
    CreditSnoc(log, s, Lower(title));
    forall i | 0 <= i < |rows| ensures Present(rows[i], log + [s]) == Present(rows[i], log) {
      assert TitleKeys(rows)[i] == Lower(rows[i].title);
      CreditSnoc(log, s, Lower(rows[i].title));
    }
    assert Movies(rows, log + [s]) == Movies(rows, log);
    MoviesSnoc(rows, NewMovie(rows, title), log + [s]);
  }

  // ----- watch marks -----

  /** Marking sets Watched Date to `now` and Marked By to `marker` on the first
      case-insensitive match only, whatever those cells held before (a
      watched movie is re-marked, not rejected); every other row and column
      is unchanged, and with no match nothing changes. */
  lemma MarkFirstMatchOnly(rows: seq<MovieRow>, title: string, now: Timestamp, marker: string)
    ensures var after := Marked(rows, title, now, marker);
      |after| == |rows| &&
      (forall i :: 0 <= i < |rows| ==>
         after[i].id == rows[i].id && after[i].title == rows[i].title && after[i].votes == rows[i].votes) &&
      (forall i :: FirstMatchAt(rows, title, i) ==> after[i].watched == Date(now) && after[i].markedBy == Written(marker)) &&
      (forall i :: 0 <= i < |rows| && !FirstMatchAt(rows, title, i) ==> after[i] == rows[i])
  {
    forall i | FirstMatchAt(rows, title, i) ensures First(TitleKeys(rows), Lower(title)) == Some(i) {
      FirstIsUnique(TitleKeys(rows), Lower(title), i);
    }
  }

  /** Unmarking empties Watched Date and Marked By on the first match only;
      every other row and column is unchanged. */
  lemma UnmarkFirstMatchOnly(rows: seq<MovieRow>, title: string)
    ensures var after := Unmarked(rows, title);
      |after| == |rows| &&
      (forall i :: 0 <= i < |rows| ==>
         after[i].id == rows[i].id && after[i].title == rows[i].title && after[i].votes == rows[i].votes) &&
      (forall i :: FirstMatchAt(rows, title, i) ==> after[i].watched == Blank && after[i].markedBy == Blank) &&
      (forall i :: 0 <= i < |rows| && !FirstMatchAt(rows, title, i) ==> after[i] == rows[i])
  {
    forall i | FirstMatchAt(rows, title, i) ensures First(TitleKeys(rows), Lower(title)) == Some(i) {
      FirstIsUnique(TitleKeys(rows), Lower(title), i);
    }
  }

  /** Marking keeps every title, so later lookups find the same row. */
  lemma MarkKeepsKeys(rows: seq<MovieRow>, title: string, now: Timestamp, marker: string)
    ensures TitleKeys(Marked(rows, title, now, marker)) == TitleKeys(rows)
  {
  }

  /** Marking again, in any casing, overwrites the earlier mark. */
  lemma MarkOverwrites(rows: seq<MovieRow>, title: string, again: string, now: Timestamp, marker: string,
                       later: Timestamp, laterMarker: string)
    requires Lower(again) == Lower(title)
    ensures Marked(Marked(rows, title, now, marker), again, later, laterMarker) == Marked(rows, title, later, laterMarker)
  {
    MarkKeepsKeys(rows, title, now, marker);
  }

  /** Unmarking undoes a mark: what is left is the same as unmarking alone,
      and `getMovies` reports the movie's watchedDate and markedBy as null
      while every other record is unchanged. */
  lemma UnmarkAfterMark(rows: seq<MovieRow>, log: seq<Suggestion>, title: string, again: string,
                        now: Timestamp, marker: string)
    requires Lower(again) == Lower(title)
    ensures Unmarked(Marked(rows, title, now, marker), again) == Unmarked(rows, title)
    ensures forall i :: FirstMatchAt(rows, title, i) ==>
              Movies(Unmarked(Marked(rows, title, now, marker), again), log)[i].watchedDate == None &&
              Movies(Unmarked(Marked(rows, title, now, marker), again), log)[i].markedBy == None
    ensures forall i :: 0 <= i < |rows| && !FirstMatchAt(rows, title, i) ==>
              Movies(Unmarked(Marked(rows, title, now, marker), again), log)[i] == Movies(rows, log)[i]
  {
    MarkKeepsKeys(rows, title, now, marker);
    UnmarkFirstMatchOnly(rows, title);
  }
}
