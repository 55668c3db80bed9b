/** The web app's entry points over the three sheets of its spreadsheet. */
module AppsScript {
  import opened Ascii
  import opened Sheets
  import opened Listing
  import opened Tally
  import opened Catalog

  const OK := "OK"
  const MovieNotFound := "Error: Movie not found"
  const InvalidType := "Invalid type"
  const NoAction := "No action specified"

  /** A response: the JSON list of movies, or a plain-text status. */
  datatype Response = Json(movies: seq<Movie>) | Plain(body: string)

  /** The parsed body of a POST request; `kind` is its `type` field and
      decides which of the other fields are read. */
  datatype PostBody = PostBody(
    kind: string,
    name: string,
    picks: Picks,
    suggestion: string,
    title: string,
    markedBy: string)

  /** The suggester map of `getMovies`: each lowered title to the name and
      time of its first suggestion; later suggestions do not overwrite. */
  method SuggesterMap(log: seq<Suggestion>) returns (credits: map<string, Credit>)
    ensures forall k :: k in credits <==> k in SuggestionKeys(log)
    ensures forall k :: k in credits ==> Some(credits[k]) == CreditFor(log, k)
  {
    credits := map[];
    var i := 0;
    while i < |log|
      invariant 0 <= i <= |log|
      invariant forall k :: k in credits <==> k in SuggestionKeys(log[..i])
      invariant forall k :: k in credits ==> Some(credits[k]) == CreditFor(log[..i], k)
    {
      var s := log[i];
      var key := Lower(s.title);
      if key !in credits {
        credits := credits[key := Credit(s.name, s.at)];
      }
      assert log[..i + 1] == log[..i] + [s];
      assert SuggestionKeys(log[..i + 1]) == SuggestionKeys(log[..i]) + [key];
      forall k ensures First(SuggestionKeys(log[..i + 1]), k) ==
                         if k in SuggestionKeys(log[..i]) then First(SuggestionKeys(log[..i]), k)
                         else if key == k then Some(i) else None {
        FirstSnoc(SuggestionKeys(log[..i]), key, k);
      }
      i := i + 1;
    }
    assert log[..i] == log;
  }

  /** The title-to-row dictionary of `recordVote`: each lowered title to the
      last row that has it, since a later row overwrites an earlier one. */
  method TitleToRow(rows: seq<MovieRow>) returns (titleToRow: map<string, nat>)
    ensures forall k :: k in titleToRow <==> k in TitleKeys(rows)
    ensures forall k :: k in titleToRow ==> Some(titleToRow[k]) == Last(TitleKeys(rows), k)
  {
    var keys := TitleKeys(rows);
    titleToRow := map[];
    var i := 0;
    while i < |rows|
      invariant 0 <= i <= |rows|
      invariant forall k :: k in titleToRow <==> k in keys[..i]
      invariant forall k :: k in titleToRow ==> Some(titleToRow[k]) == Last(keys[..i], k)
    {
      titleToRow := titleToRow[Lower(rows[i].title) := i];
      assert keys[..i + 1] == keys[..i] + [keys[i]];
      forall k ensures Last(keys[..i + 1], k) == if keys[i] == k then Some(i) else Last(keys[..i], k) {
        LastSnoc(keys[..i], keys[i], k);
      }
      i := i + 1;
    }
    assert keys[..i] == keys;
  }

  /** The spreadsheet: the data rows of Movies, Suggestions and Votes. */
  class Store {
    var movies: seq<MovieRow>
    var suggestions: seq<Suggestion>
    var votes: seq<VoteRow>

    constructor (movies0: seq<MovieRow>, suggestions0: seq<Suggestion>, votes0: seq<VoteRow>)
      ensures movies == movies0 && suggestions == suggestions0 && votes == votes0
    {
      movies, suggestions, votes := movies0, suggestions0, votes0;
    }

    /** `getMovies`: first the suggester map (first suggestion of each
        lowered title wins), then one record per Movies row. */
    method GetMovies() returns (r: seq<Movie>)
      ensures r == Movies(movies, suggestions)
    {
      var credits := SuggesterMap(suggestions);
      r := [];
      var j := 0;
      while j < |movies|
        invariant 0 <= j <= |movies|
        invariant |r| == j
        invariant forall k :: 0 <= k < j ==> r[k] == Present(movies[k], suggestions)
      {
        var row := movies[j];
        var credit := if Lower(row.title) in credits then Some(credits[Lower(row.title)]) else None;
        assert credit == CreditFor(suggestions, Lower(row.title));
        r := r + [Movie(row.id, row.title, row.votes,
                        if credit.Some? then Some(credit.value.suggester) else None,
                        if credit.Some? then Some(credit.value.timestamp) else None,
                        OrNull(row.watched), OrNull(row.markedBy))];
        j := j + 1;
      }
    }

    /** `getLeaderboard` answers exactly what `getMovies` answers. */
    method GetLeaderboard() returns (r: seq<Movie>)
      ensures r == Movies(movies, suggestions)
    {
      r := GetMovies();
    }

    /** `recordVote`: logs `[now, name, pick1, pick2, pick3]`, then adds each
        pick to the votes of the last row with its lowered title. */
    method RecordVote(now: Timestamp, name: string, picks: Picks) returns (reply: string)
      modifies this
      ensures reply == OK
      ensures votes == old(votes) + [VoteLine(now, name, Flattened(picks))]
      ensures movies == Tallied(old(movies), Increments(picks))
      ensures suggestions == old(suggestions)
    {
      votes := votes + [VoteLine(now, name, Flattened(picks))];
      var titleToRow := TitleToRow(movies);
      // Both payload shapes run the same update: `count` per object entry,
      // one vote per legacy array element.
      if picks.Counts? {
        assert Increments(picks) == picks.entries;
        AddVotes(titleToRow, picks.entries);
      } else {
        assert Increments(picks) == Ones(picks.titles);
        AddVotes(titleToRow, Ones(picks.titles));
      }
      reply := OK;
    }

    /** The update loop of `recordVote`: each increment whose lowered title
        is in the dictionary adds its count to that row's Votes cell. */
    method AddVotes(titleToRow: map<string, nat>, increments: seq<PickEntry>)
      requires forall k :: k in TitleKeys(movies) ==> k in titleToRow
      requires forall k :: k in titleToRow ==> Some(titleToRow[k]) == Last(TitleKeys(movies), k)
      modifies this`movies
      ensures movies == Tallied(old(movies), increments)
    {
      ghost var rows := movies;
      TalliedEmpty(rows);
      var j := 0;
      while j < |increments|
        invariant 0 <= j <= |increments|
        invariant |movies| == |rows|
        invariant movies == Tallied(rows, increments[..j])
      {
        var e := increments[j];
        var key := Lower(e.title);
        assert increments[..j + 1] == increments[..j] + [e];
        if key in titleToRow {
          var row := titleToRow[key];
          TalliedSnocHit(rows, increments[..j], e, row);
          movies := Bumped(movies, row, e.count);
        } else {
          TalliedSnocMiss(rows, increments[..j], e);
        }
        j := j + 1;
      }
      assert increments[..j] == increments;
    }

    /** `recordSuggestion`: always logs `[now, name, suggestion]`; adds
        `[newId, suggestion, 0]` to Movies only when no existing title equals
        the suggestion case-insensitively. */
    method RecordSuggestion(now: Timestamp, name: string, suggestion: string) returns (reply: string)
      modifies this
      ensures reply == OK
      ensures suggestions == old(suggestions) + [Suggestion(now, name, suggestion)]
      ensures movies == WithSuggestion(old(movies), suggestion)
      ensures votes == old(votes)
    {
      suggestions := suggestions + [Suggestion(now, name, suggestion)];
      var existingTitles := TitleKeys(movies);
      if Lower(suggestion) !in existingTitles {
        var newId := if |movies| > 0 then movies[|movies| - 1].id + 1 else 1;
        movies := movies + [MovieRow(newId, suggestion, 0, Blank, Blank)];
      }
      reply := OK;
    }

    /** `markMovieWatched`: on the first row whose title equals `title`
        case-insensitively, sets Watched Date to `now` and Marked By to
        `marker`, and answers "OK"; with no such row, changes nothing and
        answers "Error: Movie not found". */
    method MarkMovieWatched(now: Timestamp, title: string, marker: string) returns (reply: string)
      modifies this
      ensures reply == if Lower(title) in TitleKeys(old(movies)) then OK else MovieNotFound
      ensures movies == Marked(old(movies), title, now, marker)
      ensures suggestions == old(suggestions) && votes == old(votes)
    {
      var key := Lower(title);
      var i := 0;
      while i < |movies|
        invariant 0 <= i <= |movies|
        invariant movies == old(movies)
        invariant forall j :: 0 <= j < i ==> Lower(movies[j].title) != key
      {
        if Lower(movies[i].title) == key {
          FirstIsUnique(TitleKeys(movies), key, i);
          movies := movies[i := movies[i].(watched := Date(now))];
          movies := movies[i := movies[i].(markedBy := Written(marker))];
          reply := OK;
          return;
        }
        i := i + 1;
      }
      reply := MovieNotFound;
    }

    /** `unmarkMovieWatched`: clears Watched Date and Marked By of the first
        case-insensitive match, with the same not-found answer. */
    method UnmarkMovieWatched(title: string) returns (reply: string)
      modifies this
      ensures reply == if Lower(title) in TitleKeys(old(movies)) then OK else MovieNotFound
      ensures movies == Unmarked(old(movies), title)
      ensures suggestions == old(suggestions) && votes == old(votes)
    {
      var key := Lower(title);
      var i := 0;
      while i < |movies|
        invariant 0 <= i <= |movies|
        invariant movies == old(movies)
        invariant forall j :: 0 <= j < i ==> Lower(movies[j].title) != key
      {
        if Lower(movies[i].title) == key {
          FirstIsUnique(TitleKeys(movies), key, i);
          movies := movies[i := movies[i].(watched := Blank)];
          movies := movies[i := movies[i].(markedBy := Blank)];
          reply := OK;
          return;
        }
        i := i + 1;
      }
      reply := MovieNotFound;
    }

    /** `doGet`: "movies" and "leaderboard" both answer the movie list; any
        other action, or none, answers "No action specified". */
    method DoGet(action: Option<string>) returns (r: Response)
      ensures action == Some("movies") || action == Some("leaderboard") ==>
                r == Json(Movies(movies, suggestions))
      ensures action != Some("movies") && action != Some("leaderboard") ==> r == Plain(NoAction)
    {
      if action == Some("movies") {
        var list := GetMovies();
        return Json(list);
      }
      if action == Some("leaderboard") {
        var list := GetLeaderboard();
        return Json(list);
      }
      return Plain(NoAction);
    }

    /** `doPost`: routes on the body's type; an unknown type answers
        "Invalid type" and changes nothing. */
    method DoPost(now: Timestamp, body: PostBody) returns (r: Response)
      modifies this
      ensures body.kind == "vote" ==>
                r == Plain(OK) &&
                votes == old(votes) + [VoteLine(now, body.name, Flattened(body.picks))] &&
                movies == Tallied(old(movies), Increments(body.picks)) &&
                suggestions == old(suggestions)
      ensures body.kind == "suggestion" ==>
                r == Plain(OK) &&
                suggestions == old(suggestions) + [Suggestion(now, body.name, body.suggestion)] &&
                movies == WithSuggestion(old(movies), body.suggestion) &&
                votes == old(votes)
      ensures body.kind == "markWatched" ==>
                r == Plain(if Lower(body.title) in TitleKeys(old(movies)) then OK else MovieNotFound) &&
                movies == Marked(old(movies), body.title, now, body.markedBy) &&
                suggestions == old(suggestions) && votes == old(votes)
      ensures body.kind == "unmarkWatched" ==>
                r == Plain(if Lower(body.title) in TitleKeys(old(movies)) then OK else MovieNotFound) &&
                movies == Unmarked(old(movies), body.title) &&
                suggestions == old(suggestions) && votes == old(votes)
      ensures body.kind !in {"vote", "suggestion", "markWatched", "unmarkWatched"} ==>
                r == Plain(InvalidType) &&
                movies == old(movies) && suggestions == old(suggestions) && votes == old(votes)
    {
      var reply: string;
      if body.kind == "vote" {
        reply := RecordVote(now, body.name, body.picks);
      } else if body.kind == "suggestion" {
        reply := RecordSuggestion(now, body.name, body.suggestion);
      } else if body.kind == "markWatched" {
        reply := MarkMovieWatched(now, body.title, body.markedBy);
      } else if body.kind == "unmarkWatched" {
        reply := UnmarkMovieWatched(body.title);
      } else {
        reply := InvalidType;
      }
      r := Plain(reply);
    }
  }
}
