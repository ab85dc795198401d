/** The polling loop of scrapper.py: each pass of `while True` walks the
    listing, skips submissions whose id was seen before, marks the rest seen
    and reports the relevant ones under a running number. `seen_posts` and
    `count` live across passes, so they are the fields of a Scraper object;
    the printed block of a reported post is a Report value. */
module Scraper {
  import opened Common
  import opened Severity
  import opened Vocabulary
  import opened Feed

  /** A reported post: its number and the submission. The printed block
      shows the number, the title, the score, the url and the two values
      below. */
  datatype Report = Report(number: nat, submission: Submission) {
    /** The `found_keywords` line of the block. */
    function Keywords(): (r: seq<string>)
      ensures forall k :: k in r ==> k in KEYWORDS && !HasUpper(k)
    {
      FoundKeywordsAreLowerCase(submission.title);
      FoundKeywords(submission.title)
    }

    /** The severity line, from scrapper.py's detect_severity. */
    function Rating(): (r: Level)
      ensures Rank(r) <= Rank(DetectSeverity(submission.title))
    {
      CaseSensitiveNeverAbove(submission.title);
      DetectSeverityCaseSensitive(submission.title)
    }
  }

  /** `seen_posts`, `count` and what the pass printed so far. */
  datatype Pass = Pass(seen: set<string>, count: nat, reports: seq<Report>)

  /** One submission of the listing: skipped when its id was seen, else
      marked seen and, when relevant, counted and reported. */
  function Visit(p: Pass, s: Submission): (r: Pass)
    ensures r.seen == p.seen + {s.id}
    ensures s.id in p.seen ==> r == p
  {
    if s.id in p.seen then p
    else if Relevant(s) then Pass(p.seen + {s.id}, p.count + 1, p.reports + [Report(p.count + 1, s)])
    else Pass(p.seen + {s.id}, p.count, p.reports)
  }

  /** A submission with a new id: marked seen, and counted and reported
      exactly when relevant. */
  lemma VisitNew(p: Pass, s: Submission)
    requires s.id !in p.seen
    ensures Visit(p, s) == if Relevant(s)
      then Pass(p.seen + {s.id}, p.count + 1, p.reports + [Report(p.count + 1, s)])
      else Pass(p.seen + {s.id}, p.count, p.reports)
  {
  }

  /** A pass over the submissions of `batch`, in listing order. */
  function Run(p: Pass, batch: seq<Submission>): (r: Pass)
    ensures p.seen <= r.seen
    ensures p.count <= r.count <= p.count + |batch|
    ensures |r.reports| == |p.reports| + (r.count - p.count) && r.reports[..|p.reports|] == p.reports
  {
    if batch == [] then p
    else
      var q := Run(p, batch[..|batch| - 1]);
      var r := Visit(q, batch[|batch| - 1]);
      assert r.reports[..|p.reports|] == r.reports[..|q.reports|][..|p.reports|];
      r
  }

  lemma RunStep(p: Pass, batch: seq<Submission>, i: nat)
    requires i < |batch|
    ensures Run(p, batch[..i + 1]) == Visit(Run(p, batch[..i]), batch[i])
  {
    assert batch[..i + 1][..i] == batch[..i];
  }

  // ---------------------------------------------------------------------
  // A reference description of a pass
  // ---------------------------------------------------------------------

  /** The ids of a run of submissions. */
  function Ids(batch: seq<Submission>): (r: set<string>)
    ensures forall s :: s in batch ==> s.id in r
  {
    if batch == [] then {}
    else
      var front := batch[..|batch| - 1];
      FrontLast(batch);
      Ids(front) + {batch[|batch| - 1].id}
  }

  /** The submissions a pass with `seen` does not skip: the first one of each
      id that is not in `seen`, in listing order. */
  function Fresh(seen: set<string>, batch: seq<Submission>): seq<Submission> {
    if batch == [] then []
    else
      var front := batch[..|batch| - 1];
      var s := batch[|batch| - 1];
      Fresh(seen, front) + if s.id in seen || s.id in Ids(front) then [] else [s]
  }

  /** Reports for `relevant`, numbered on from `count`. */
  function ReportsFrom(count: nat, relevant: seq<Submission>): (r: seq<Report>)
    ensures |r| == |relevant|
  {
    if relevant == [] then []
    else
      ReportsFrom(count, relevant[..|relevant| - 1]) +
        [Report(count + |relevant|, relevant[|relevant| - 1])]
  }

  lemma ReportsFromSnoc(count: nat, relevant: seq<Submission>, s: Submission)
    ensures ReportsFrom(count, relevant + [s]) ==
      ReportsFrom(count, relevant) + [Report(count + |relevant| + 1, s)]
  {
    InitOfSnoc(relevant, s);
  }

  /** What a pass started from `p` amounts to: every id of the batch is seen,
      and the fresh relevant submissions are reported, numbered on from the
      old count, which grows by their number. */
  function Expected(p: Pass, batch: seq<Submission>): Pass {
    Summary(p, Ids(batch), Relevants(Fresh(p.seen, batch)))
  }

  /** One more submission, in the reference description. */
  lemma ExpectedStep(p: Pass, batch: seq<Submission>)
    requires batch != []
    ensures Expected(p, batch) == Visit(Expected(p, batch[..|batch| - 1]), batch[|batch| - 1])
  {
    var front := batch[..|batch| - 1];
    var s := batch[|batch| - 1];
    if s.id in p.seen || s.id in Ids(front) {
      ExpectedSkip(p, front, s, batch);
    } else {
      ExpectedNew(p, front, s, batch);
    }
  }

  /** A submission whose id is already seen leaves the description as it was. */
  lemma ExpectedSkip(p: Pass, front: seq<Submission>, s: Submission, batch: seq<Submission>)
    requires batch != [] && front == batch[..|batch| - 1] && s == batch[|batch| - 1]
    requires s.id in p.seen || s.id in Ids(front)
    ensures Expected(p, batch) == Expected(p, front)
  {
    assert Fresh(p.seen, batch) == Fresh(p.seen, front);
    assert p.seen + Ids(batch) == p.seen + Ids(front);
  }

  /** A submission with a new id is marked seen, and reported when relevant. */
  lemma ExpectedNew(p: Pass, front: seq<Submission>, s: Submission, batch: seq<Submission>)
    requires batch != [] && front == batch[..|batch| - 1] && s == batch[|batch| - 1]
    requires s.id !in p.seen && s.id !in Ids(front)
    ensures Expected(p, batch) == Visit(Expected(p, front), s)
  {
    var f := Fresh(p.seen, front);
    assert Fresh(p.seen, batch) == f + [s];
    assert Ids(batch) == Ids(front) + {s.id};
    SummaryVisit(p, Ids(front), f, s);
  }

  /** One submission with a new id, in terms of Summary. */
  lemma SummaryVisit(p: Pass, ids: set<string>, kept: seq<Submission>, s: Submission)
    requires s.id !in p.seen && s.id !in ids
    ensures Summary(p, ids + {s.id}, Relevants(kept + [s])) == Visit(Summary(p, ids, Relevants(kept)), s)
  {
    RelevantsSnoc(kept, s);
    SummaryStep(p, ids, Relevants(kept), Relevants(kept + [s]), s, Relevant(s));
  }

  /** SummaryVisit with the relevance of `s` as a plain flag. */
  lemma SummaryStep(p: Pass, ids: set<string>, reported: seq<Submission>, reported': seq<Submission>,
                    s: Submission, relevant: bool)
    requires reported' == reported + if relevant then [s] else []
    ensures Summary(p, ids + {s.id}, reported') ==
      var e := Summary(p, ids, reported);
      if relevant then Pass(e.seen + {s.id}, e.count + 1, e.reports + [Report(e.count + 1, s)])
      else Pass(e.seen + {s.id}, e.count, e.reports)
  {
    if relevant {
      assert reported' == reported + [s];
      SummaryReported(p, ids, reported, s);
    } else {
      assert reported' == reported;
      SummaryUnreported(p, ids, reported, s);
    }
  }

  /** Expected, given the ids of the batch and its fresh relevant submissions. */
  function Summary(p: Pass, ids: set<string>, reported: seq<Submission>): Pass {
    Pass(p.seen + ids, p.count + |reported|, p.reports + ReportsFrom(p.count, reported))
  }

  lemma SummaryReported(p: Pass, ids: set<string>, reported: seq<Submission>, s: Submission)
    ensures Summary(p, ids + {s.id}, reported + [s]) ==
      var e := Summary(p, ids, reported);
      Pass(e.seen + {s.id}, e.count + 1, e.reports + [Report(e.count + 1, s)])
  {
    ReportsFromSnoc(p.count, reported, s);
    assert p.seen + (ids + {s.id}) == (p.seen + ids) + {s.id};
    var a := ReportsFrom(p.count, reported);
    assert p.reports + (a + [Report(p.count + |reported| + 1, s)]) ==
      (p.reports + a) + [Report(p.count + |reported| + 1, s)];
  }

  lemma SummaryUnreported(p: Pass, ids: set<string>, reported: seq<Submission>, s: Submission)
    ensures Summary(p, ids + {s.id}, reported) ==
      var e := Summary(p, ids, reported);
      Pass(e.seen + {s.id}, e.count, e.reports)
  {
    assert p.seen + (ids + {s.id}) == (p.seen + ids) + {s.id};
  }

  /** The loop computes the reference description. */
  lemma {:induction false} RunIsExpected(p: Pass, batch: seq<Submission>)
    requires p.reports == []
    ensures Run(p, batch) == Expected(p, batch)
    decreases |batch|
  {
    if batch == [] {
      assert Expected(p, batch) == Pass(p.seen, p.count, []);
      assert Pass(p.seen, p.count, []) == p;
    } else {
      RunIsExpected(p, batch[..|batch| - 1]);
      ExpectedStep(p, batch);
    }
  }

  // ---------------------------------------------------------------------
  // Properties of a pass
  // ---------------------------------------------------------------------

  /** The submissions a pass does not skip have distinct ids, none of them
      seen before, and each is a submission of the batch. */
  lemma {:induction false} FreshAreNew(seen: set<string>, batch: seq<Submission>)
    ensures forall i :: 0 <= i < |Fresh(seen, batch)| ==>
      Fresh(seen, batch)[i].id !in seen && Fresh(seen, batch)[i] in batch
    ensures forall i, j :: 0 <= i < j < |Fresh(seen, batch)| ==>
      Fresh(seen, batch)[i].id != Fresh(seen, batch)[j].id
    ensures forall i :: 0 <= i < |Fresh(seen, batch)| ==> Fresh(seen, batch)[i].id in Ids(batch)
    decreases |batch|
  {
    if batch != [] {
      var front := batch[..|batch| - 1];
      var s := batch[|batch| - 1];
      FreshAreNew(seen, front);
      FrontLast(batch);
      var f := Fresh(seen, front);
      if !(s.id in seen || s.id in Ids(front)) {
        var g := Fresh(seen, batch);
        assert g == f + [s];
        forall i, j | 0 <= i < j < |g| ensures g[i].id != g[j].id {
          if j == |f| { assert g[i] == f[i]; }
        }
        forall i | 0 <= i < |g| ensures g[i] in batch && g[i].id in Ids(batch) {
          if i < |f| { assert g[i] == f[i]; }
        }
      }
    }
  }

  /** The ids a pass does not skip are exactly the ids of the batch that
      were not seen before. */
  lemma {:induction false} FreshIdsAreNewIds(seen: set<string>, batch: seq<Submission>)
    ensures Ids(Fresh(seen, batch)) == Ids(batch) - seen
    decreases |batch|
  {
    if batch != [] {
      var front := batch[..|batch| - 1];
      var s := batch[|batch| - 1];
      FreshIdsAreNewIds(seen, front);
      var f := Fresh(seen, front);
      assert Ids(batch) == Ids(front) + {s.id};
      if s.id in seen || s.id in Ids(front) {
        assert Fresh(seen, batch) == f;
      } else {
        assert Fresh(seen, batch) == f + [s];
        InitOfSnoc(f, s);
        assert Ids(f + [s]) == Ids(f) + {s.id};
      }
    }
  }

  /** After a pass, `seen_posts` is the old set plus every visited id:
      nothing is removed. */
  lemma SeenAfterPass(p: Pass, batch: seq<Submission>)
    requires p.reports == []
    ensures Run(p, batch).seen == p.seen + Ids(batch)
    ensures p.seen <= Run(p, batch).seen
    ensures forall s :: s in batch ==> s.id in Run(p, batch).seen
  {
    RunIsExpected(p, batch);
  }

  /** `count` grows by exactly the number of fresh relevant submissions, and
      the reports of the pass are numbered `count + 1`, `count + 2`, ... */
  lemma CountAfterPass(p: Pass, batch: seq<Submission>)
    requires p.reports == []
    ensures Run(p, batch).count == p.count + |Run(p, batch).reports|
    ensures |Run(p, batch).reports| == |Relevants(Fresh(p.seen, batch))|
    ensures forall i :: 0 <= i < |Run(p, batch).reports| ==> Run(p, batch).reports[i].number == p.count + i + 1
  {
    RunIsExpected(p, batch);
    var reported := Relevants(Fresh(p.seen, batch));
    forall i | 0 <= i < |reported| ensures ReportsFrom(p.count, reported)[i].number == p.count + i + 1 {
      ReportsFromAt(p.count, reported, i);
    }
  }

  lemma {:induction false} ReportsFromAt(count: nat, relevant: seq<Submission>, i: nat)
    requires i < |relevant|
    ensures ReportsFrom(count, relevant)[i] == Report(count + i + 1, relevant[i])
    decreases |relevant|
  {
    if i < |relevant| - 1 {
      ReportsFromAt(count, relevant[..|relevant| - 1], i);
    }
  }

  /** A submission whose id was seen before the pass is never reported. */
  lemma SeenIsSkipped(p: Pass, batch: seq<Submission>, s: Submission)
    requires p.reports == [] && s.id in p.seen
    ensures s !in Relevants(Fresh(p.seen, batch))
  {
    FreshAreNew(p.seen, batch);
    RelevantsMembers(Fresh(p.seen, batch));
  }

  /** Each report of a pass is a submission of the batch whose id was not
      seen before and whose title holds a listed keyword. */
  lemma ReportsAreFreshAndRelevant(p: Pass, batch: seq<Submission>)
    requires p.reports == []
    ensures forall i :: 0 <= i < |Run(p, batch).reports| ==>
      var r := Run(p, batch).reports[i];
      r.submission in batch && r.submission.id !in p.seen && r.Keywords() != []
  {
    RunIsExpected(p, batch);
    var kept := Fresh(p.seen, batch);
    var reported := Relevants(kept);
    FreshAreNew(p.seen, batch);
    RelevantsMembers(kept);
    forall i | 0 <= i < |reported|
      ensures var r := ReportsFrom(p.count, reported)[i];
        r.submission in batch && r.submission.id !in p.seen && r.Keywords() != []
    {
      ReportsFromAt(p.count, reported, i);
      assert reported[i] in kept;
      var k :| 0 <= k < |kept| && kept[k] == reported[i];
    }
  }

  /** A later pass, started from the state an earlier one left, reports no
      submission whose id the earlier pass visited. */
  lemma LaterPassRepeatsNothing(p: Pass, a: seq<Submission>, b: seq<Submission>)
    requires p.reports == []
    ensures var q := Run(p, a);
      var second := Run(Pass(q.seen, q.count, []), b);
      forall i :: 0 <= i < |second.reports| ==> second.reports[i].submission.id !in Ids(a)
  {
    var q := Run(p, a);
    SeenAfterPass(p, a);
    ReportsAreFreshAndRelevant(Pass(q.seen, q.count, []), b);
  }

  /** Two passes are one long pass over both listings, so a submission id
      is reported at most once however many passes see it. */
  lemma {:induction false} PassesCompose(p: Pass, a: seq<Submission>, b: seq<Submission>)
    ensures Run(Run(p, a), b) == Run(p, a + b)
    decreases |b|
  {
    if b == [] {
      assert a + b == a;
    } else {
      var front := b[..|b| - 1];
      PassesCompose(p, a, front);
      assert (a + b)[..|a + b| - 1] == a + front;
      assert (a + b)[|a + b| - 1] == b[|b| - 1];
    }
  }

  /** The class around the two globals of scrapper.py. */
  class Scraper {
    /** `seen_posts`. */
    var seenPosts: set<string>
    /** `count`: the number of posts reported over all passes. */
    var count: nat

    constructor ()
      ensures seenPosts == {} && count == 0
    {
      seenPosts := {};
      count := 0;
    }

    /** The body of `while True`, for the submissions `subreddit.new(limit=20)`
        yields; a listing cut short by an exception is the prefix it yielded. */
    method PollCycle(batch: seq<Submission>) returns (reports: seq<Report>)
      modifies this
      ensures Pass(seenPosts, count, reports) == Run(Pass(old(seenPosts), old(count), []), batch)
    {
      ghost var start := Pass(seenPosts, count, []);
      reports := [];
      for i := 0 to |batch|
        invariant Pass(seenPosts, count, reports) == Run(start, batch[..i])
      {
        RunStep(start, batch, i);
        reports := VisitOne(batch[i], reports);
      }
      assert batch[..|batch|] == batch;
    }

    /** One submission of the loop body, with the reports printed so far. */
    method VisitOne(submission: Submission, reports: seq<Report>) returns (reports': seq<Report>)
      modifies this
      ensures Pass(seenPosts, count, reports') == Visit(Pass(old(seenPosts), old(count), reports), submission)
    {
      reports' := reports;
      if submission.id in seenPosts {
        return;
      }
      VisitNew(Pass(seenPosts, count, reports), submission);
      seenPosts := seenPosts + {submission.id};
      if Relevant(submission) {
        count := count + 1;
        reports' := reports' + [Report(count, submission)];
      }
    }
  }
}
