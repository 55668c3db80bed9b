/** What `recordVote` does to the Votes log and to the Votes column of
    Movies, as functions of the old tables and the picks. */
module Tally {
  import opened Ascii
  import opened Sheets

  /** One title-and-count entry of the object form of the picks. */
  datatype PickEntry = PickEntry(title: string, count: nat)

  /** The two shapes of a vote's `picks`: an object from title to count (its
      entries, in the order Object.entries yields them), or the legacy array
      of titles, one per vote. */
  datatype Picks = Counts(entries: seq<PickEntry>) | Titles(titles: seq<string>)

  /** `count` copies of `title`. */
  function Repeat(title: string, count: nat): seq<string>
  {
    seq(count, _ => title)
  }

  /** The flat list of object picks: each entry's title repeated `count`
      times, entries kept in order. */
  function Expand(es: seq<PickEntry>): seq<string>
  {
    if |es| == 0 then []
    else Expand(es[..|es| - 1]) + Repeat(es[|es| - 1].title, es[|es| - 1].count)
  }

  /** The picks as a flat list of titles, in either payload shape. */
  function Flattened(p: Picks): seq<string>
  {
    match p
    case Counts(es) => Expand(es)
    case Titles(ts) => ts
  }

  /** A legacy title list as entries that each add one vote. */
  function Ones(ts: seq<string>): seq<PickEntry>
  {
    seq(|ts|, i requires 0 <= i < |ts| => PickEntry(ts[i], 1))
  }

  /** What the update loop adds, in order: `count` per object entry, 1 per
      legacy array element. */
  function Increments(p: Picks): seq<PickEntry>
  {
    match p
    case Counts(es) => es
    case Titles(ts) => Ones(ts)
  }

  /** Pick k of the flat list, or "" when there are fewer picks. */
  function PickOrEmpty(ps: seq<string>, k: nat): string
  {
    if k < |ps| then ps[k] else ""
  }

  /** The row appended to Votes. */
  function VoteLine(now: Timestamp, name: string, ps: seq<string>): VoteRow
  {
    VoteRow(now, name, PickOrEmpty(ps, 0), PickOrEmpty(ps, 1), PickOrEmpty(ps, 2))
  }

  /** Sum of the counts of the entries whose lowered title is `key`. */
  function Weight(es: seq<PickEntry>, key: string): nat
  {
    if |es| == 0 then 0
    else Weight(es[..|es| - 1], key) + (if Lower(es[|es| - 1].title) == key then es[|es| - 1].count else 0)
  }

  /** The votes row i gains: the weight of its lowered title, but only when
      row i is the last row with that lowered title (it is the row the
      title-to-row dictionary keeps). */
  function Gain(rows: seq<MovieRow>, i: nat, es: seq<PickEntry>): nat
    requires i < |rows|
  {
    var key := Lower(rows[i].title);
    if Last(TitleKeys(rows), key) == Some(i) then Weight(es, key) else 0
  }

  /** The Movies table after the increments `es`. */
  function Tallied(rows: seq<MovieRow>, es: seq<PickEntry>): seq<MovieRow>
  {
    seq(|rows|, i requires 0 <= i < |rows| => rows[i].(votes := rows[i].votes + Gain(rows, i, es)))
  }

  /** Sum of the Votes column. */
  function TotalVotes(rows: seq<MovieRow>): int
  {
    if |rows| == 0 then 0 else TotalVotes(rows[..|rows| - 1]) + rows[|rows| - 1].votes
  }

  /** Sum of the counts of the entries whose title names some movie. */
  function KnownWeight(rows: seq<MovieRow>, es: seq<PickEntry>): nat
  {
    if |es| == 0 then 0
    else KnownWeight(rows, es[..|es| - 1]) +
         (if Lower(es[|es| - 1].title) in TitleKeys(rows) then es[|es| - 1].count else 0)
  }

  /** `setValue(cur + count)` on the Votes cell of row r. */
  function Bumped(rows: seq<MovieRow>, r: nat, count: nat): (s: seq<MovieRow>)
    requires r < |rows|
  {
    rows[r := rows[r].(votes := rows[r].votes + count)]
  }

  // ----- the vote log -----

  /** Object picks expand each entry into `count` copies of its title, in
      entry order. */
  lemma {:induction false} ExpandAppend(es: seq<PickEntry>, more: seq<PickEntry>)
    ensures Expand(es + more) == Expand(es) + Expand(more)
    decreases |more|
  {
    if |more| == 0 {
      assert es + more == es;
    } else {
      var last := more[|more| - 1];
      var init := more[..|more| - 1];
      assert (es + more)[..|es + more| - 1] == es + init;
      ExpandAppend(es, init);
    }
  }

  /** The sum of the counts of object picks. */
  function SumCounts(es: seq<PickEntry>): nat
  {
    if |es| == 0 then 0 else SumCounts(es[..|es| - 1]) + es[|es| - 1].count
  }

  /** The flat list is as long as the counts add up to. */
  lemma {:induction false} ExpandLength(es: seq<PickEntry>)
    ensures |Expand(es)| == SumCounts(es)
  {
    if |es| > 0 {
      ExpandLength(es[..|es| - 1]);
    }
  }

  /** The Votes row holds the first three picks; later picks are not
      logged. */
  lemma VoteLineFirstThree(now: Timestamp, name: string, ps: seq<string>, more: seq<string>)
    requires |ps| >= 3
    ensures VoteLine(now, name, ps + more) == VoteLine(now, name, ps)
    ensures VoteLine(now, name, ps) == VoteRow(now, name, ps[0], ps[1], ps[2])
    ensures VoteLine(now, name, []) == VoteRow(now, name, "", "", "")
  {
  }

  /** With fewer than three picks the Votes row is the row of the picks
      padded with "" to three: each missing pick is logged as "". */
  lemma VoteLinePadded(now: Timestamp, name: string, ps: seq<string>)
    requires |ps| < 3
    ensures VoteLine(now, name, ps) == VoteLine(now, name, ps + seq(3 - |ps|, _ => ""))
    ensures forall k :: |ps| <= k < 3 ==> PickOrEmpty(ps, k) == ""
  {
  }

  // ----- the tally -----

  /** Split the last entry off a weight. */
  lemma WeightSnoc(es: seq<PickEntry>, e: PickEntry, key: string)
    ensures Weight(es + [e], key) == Weight(es, key) + (if Lower(e.title) == key then e.count else 0)
  {
    assert (es + [e])[..|es|] == es;
  }

  lemma {:induction false} WeightAppend(es: seq<PickEntry>, more: seq<PickEntry>, key: string)
    ensures Weight(es + more, key) == Weight(es, key) + Weight(more, key)
    decreases |more|
  {
    if |more| == 0 {
      assert es + more == es;
    } else {
      var init := more[..|more| - 1];
      var last := more[|more| - 1];
      assert es + more == (es + init) + [last];
      assert more == init + [last];
      WeightSnoc(es + init, last, key);
      WeightSnoc(init, last, key);
      WeightAppend(es, init, key);
    }
  }

  /** With no picks, nothing changes. */
  lemma TalliedEmpty(rows: seq<MovieRow>)
    ensures Tallied(rows, []) == rows
  {
  }

  /** One more increment changes the gain of row i by its count exactly when
      row i is the last row with the increment's title. */
  lemma GainSnoc(rows: seq<MovieRow>, es: seq<PickEntry>, e: PickEntry, i: nat)
    requires i < |rows|
    ensures Gain(rows, i, es + [e]) ==
              Gain(rows, i, es) + (if Last(TitleKeys(rows), Lower(e.title)) == Some(i) then e.count else 0)
  {
    var keys := TitleKeys(rows);
    var key := Lower(rows[i].title);
    WeightSnoc(es, e, key);
    if Last(keys, Lower(e.title)) == Some(i) {
      assert Lower(e.title) == key;
    }
  }

  /** One more increment adds its count to the last row with that title:
      the loop body of `recordVote` when the dictionary has the title. */
  lemma TalliedSnocHit(rows: seq<MovieRow>, es: seq<PickEntry>, e: PickEntry, r: nat)
    requires Last(TitleKeys(rows), Lower(e.title)) == Some(r)
    ensures r < |Tallied(rows, es)| == |rows|
    ensures Tallied(rows, es + [e]) == Bumped(Tallied(rows, es), r, e.count)
  {
    var before := Tallied(rows, es);
    var after, expected := Tallied(rows, es + [e]), Bumped(before, r, e.count);
    forall i | 0 <= i < |rows| ensures after[i] == expected[i] {
      GainSnoc(rows, es, e, i);
      if i == r {
        assert expected[i] == before[i].(votes := before[i].votes + e.count);
      } else {
        assert expected[i] == before[i];
      }
    }
    assert |after| == |expected|;
  }

  /** An increment whose title no row has changes nothing. */
  lemma TalliedSnocMiss(rows: seq<MovieRow>, es: seq<PickEntry>, e: PickEntry)
    requires Last(TitleKeys(rows), Lower(e.title)) == None
    ensures Tallied(rows, es + [e]) == Tallied(rows, es)
  {
    var after, before := Tallied(rows, es + [e]), Tallied(rows, es);
    forall i | 0 <= i < |rows| ensures after[i] == before[i] {
      GainSnoc(rows, es, e, i);
    }
  }

  /** Picks naming no movie (in any casing) change no row. */
  lemma UnknownPickIgnored(rows: seq<MovieRow>, es: seq<PickEntry>, e: PickEntry)
    requires forall i :: 0 <= i < |rows| ==> Lower(rows[i].title) != Lower(e.title)
    ensures Tallied(rows, es + [e]) == Tallied(rows, es)
  {
    TalliedSnocMiss(rows, es, e);
  }

  /** Tallying changes only the Votes column, keeps the number of rows, and
      never takes votes away; a row gains exactly the weight of its title when
      it is the last row with that title, and nothing otherwise. */
  lemma TalliedFrame(rows: seq<MovieRow>, es: seq<PickEntry>)
    ensures |Tallied(rows, es)| == |rows|
    ensures forall i :: 0 <= i < |rows| ==>
              var t := Tallied(rows, es)[i];
              t.id == rows[i].id && t.title == rows[i].title &&
              t.watched == rows[i].watched && t.markedBy == rows[i].markedBy &&
              t.votes >= rows[i].votes
    ensures forall i :: 0 <= i < |rows| ==>
              Tallied(rows, es)[i].votes ==
                rows[i].votes + (if Last(TitleKeys(rows), Lower(rows[i].title)) == Some(i)
                                 then Weight(es, Lower(rows[i].title)) else 0)
  {
  }

  /** When two rows share a lowered title the later one takes the votes, and
      the earlier one keeps its count. */
  lemma LaterRowWins(rows: seq<MovieRow>, es: seq<PickEntry>, i: nat, j: nat)
    requires i < j < |rows| && Lower(rows[i].title) == Lower(rows[j].title)
    ensures Tallied(rows, es)[i] == rows[i]
  {
    var key := Lower(rows[i].title);
    assert TitleKeys(rows)[j] == key;
  }

  lemma {:induction false} TotalVotesBumped(rows: seq<MovieRow>, r: nat, count: nat)
    requires r < |rows|
    ensures TotalVotes(Bumped(rows, r, count)) == TotalVotes(rows) + count
    decreases |rows|
  {
    var b := Bumped(rows, r, count);
    var n := |rows| - 1;
    if r < n {
      assert b[..n] == Bumped(rows[..n], r, count);
      TotalVotesBumped(rows[..n], r, count);
    } else {
      assert b[..n] == rows[..n];
    }
  }

  /** Votes are conserved: the Votes column grows by exactly the counts of
      the picks that name a movie. */
  lemma {:induction false} VoteConservation(rows: seq<MovieRow>, es: seq<PickEntry>)
    ensures TotalVotes(Tallied(rows, es)) == TotalVotes(rows) + KnownWeight(rows, es)
    decreases |es|
  {
    if |es| == 0 {
      TalliedEmpty(rows);
    } else {
      var init := es[..|es| - 1];
      var e := es[|es| - 1];
      assert es == init + [e];
      VoteConservation(rows, init);
      match Last(TitleKeys(rows), Lower(e.title))
      case None =>
        TalliedSnocMiss(rows, init, e);
      case Some(r) =>
        TalliedSnocHit(rows, init, e, r);
        TotalVotesBumped(Tallied(rows, init), r, e.count);
    }
  }

  lemma {:induction false} RepeatWeight(t: string, c: nat, key: string)
    ensures Weight(Ones(Repeat(t, c)), key) == if Lower(t) == key then c else 0
    decreases c
  {
    if c > 0 {
      var ones := Ones(Repeat(t, c));
      assert ones[..c - 1] == Ones(Repeat(t, c - 1));
      RepeatWeight(t, c - 1, key);
    }
  }

  lemma OnesAppend(a: seq<string>, b: seq<string>)
    ensures Ones(a + b) == Ones(a) + Ones(b)
  {
  }

  lemma {:induction false} ExpandedWeight(es: seq<PickEntry>, key: string)
    ensures Weight(Ones(Expand(es)), key) == Weight(es, key)
    decreases |es|
  {
    if |es| > 0 {
      var init := es[..|es| - 1];
      var e := es[|es| - 1];
      assert es == init + [e];
      OnesAppend(Expand(init), Repeat(e.title, e.count));
      WeightAppend(Ones(Expand(init)), Ones(Repeat(e.title, e.count)), key);
      RepeatWeight(e.title, e.count, key);
      ExpandedWeight(init, key);
    }
  }

  /** The two payload shapes agree: object picks tally exactly like the
      legacy array holding their flattened list (the titles the Votes log
      is written from). */
  lemma ShapesAgree(rows: seq<MovieRow>, es: seq<PickEntry>)
    ensures Tallied(rows, Increments(Counts(es))) == Tallied(rows, Increments(Titles(Flattened(Counts(es)))))
  {
    forall key { ExpandedWeight(es, key); }
  }
}
