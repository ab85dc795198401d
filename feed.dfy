/** The keyword filter and the numbering loop of `fetch_posts`. The loop is
    the same in app.py and in Cyber-Blogs-Crawler-main/app.py; the crawler's
    copy returns the posts and nothing else, which is exactly CollectPosts. */
module Feed {
  import opened Common
  import opened Vocabulary
  import opened Severity

  /** One entry of the listing `subreddit.new(...)` yields. */
  datatype Submission = Submission(id: string, title: string, url: string, score: int)

  /** The record fetch_posts builds for a relevant submission. */
  datatype Post = Post(title: string, url: string, score: int, keywords: seq<string>, severity: Level)

  /** `[k for k in keywords if k in text]`: the keywords occurring in `text`,
      in list order. */
  function KeywordsIn(text: string, keywords: seq<string>): (r: seq<string>)
    ensures |r| <= |keywords|
    ensures forall k :: k in r ==> k in keywords && Contains(text, k)
  {
    if keywords == [] then []
    else (if Contains(text, keywords[0]) then [keywords[0]] else []) + KeywordsIn(text, keywords[1..])
  }

  /** The filter keeps exactly the listed keywords occurring in the text. */
  lemma {:induction false} KeywordsInMembers(text: string, keywords: seq<string>)
    ensures forall k :: k in KeywordsIn(text, keywords) <==> k in keywords && Contains(text, k)
    decreases |keywords|
  {
    if keywords != [] {
      KeywordsInMembers(text, keywords[1..]);
      assert keywords == [keywords[0]] + keywords[1..];
    }
  }

  /** The filter keeps list order: filtering a concatenation filters each part. */
  lemma {:induction false} KeywordsInConcat(text: string, a: seq<string>, b: seq<string>)
    ensures KeywordsIn(text, a + b) == KeywordsIn(text, a) + KeywordsIn(text, b)
  {
    if a == [] {
      assert a + b == b;
    } else {
      assert (a + b)[0] == a[0] && (a + b)[1..] == a[1..] + b;
      KeywordsInConcat(text, a[1..], b);
      var head := if Contains(text, a[0]) then [a[0]] else [];
      calc {
        KeywordsIn(text, a + b);
        head + KeywordsIn(text, a[1..] + b);
        head + (KeywordsIn(text, a[1..]) + KeywordsIn(text, b));
        (head + KeywordsIn(text, a[1..])) + KeywordsIn(text, b);
        KeywordsIn(text, a) + KeywordsIn(text, b);
      }
    }
  }

  /** `found_keywords`: the raw `keywords` entries occurring in the lower-cased title. */
  function FoundKeywords(title: string): (r: seq<string>)
    ensures |r| <= |KEYWORDS|
  {
    KeywordsIn(ToLower(title), KEYWORDS)
  }

  /** An entry with an upper-case letter ("APT", "OSINT", "CVE", "API security",
      "DevSecOps", "DLP", "SSL/TLS", ...) is never found. */
  lemma FoundKeywordsAreLowerCase(title: string)
    ensures forall k :: k in FoundKeywords(title) ==> k in KEYWORDS && !HasUpper(k)
  {
    KeywordsInMembers(ToLower(title), KEYWORDS);
    forall k | k in FoundKeywords(title) ensures !HasUpper(k) {
      if HasUpper(k) { UpperNeverInLowered(title, k); }
    }
  }

  /** The test `if found_keywords:`. */
  predicate Relevant(s: Submission)
    ensures Relevant(s) ==> exists i :: 0 <= i < |KEYWORDS| && Contains(ToLower(s.title), KEYWORDS[i])
  {
    var found := FoundKeywords(s.title);
    RelevantWitness(s.title);
    found != []
  }

  /** Every entry of FoundKeywords is an entry of KEYWORDS occurring in the lowered title. */
  lemma RelevantWitness(title: string)
    ensures FoundKeywords(title) != [] ==>
      exists i :: 0 <= i < |KEYWORDS| && Contains(ToLower(title), KEYWORDS[i])
  {
    var found := FoundKeywords(title);
    if found != [] {
      KeywordsInMembers(ToLower(title), KEYWORDS);
      assert found[0] in found;
      var i :| 0 <= i < |KEYWORDS| && KEYWORDS[i] == found[0];
    }
  }

  lemma RelevantIff(s: Submission)
    ensures Relevant(s) <==> AnyContained(ToLower(s.title), KEYWORDS)
  {
    var text := ToLower(s.title);
    var found := FoundKeywords(s.title);
    KeywordsInMembers(text, KEYWORDS);
    if AnyContained(text, KEYWORDS) {
      var i :| 0 <= i < |KEYWORDS| && Contains(text, KEYWORDS[i]);
      assert KEYWORDS[i] in found;
    }
    if found != [] {
      assert found[0] in found;
      var i :| 0 <= i < |KEYWORDS| && KEYWORDS[i] == found[0];
      assert Contains(text, KEYWORDS[i]);
    }
  }

  /** The relevant submissions of a feed, in feed order. */
  function Relevants(feed: seq<Submission>): (r: seq<Submission>)
    ensures |r| <= |feed|
    ensures forall i :: 0 <= i < |r| ==> Relevant(r[i])
  {
    if feed == [] then []
    else Relevants(feed[..|feed| - 1]) + if Relevant(feed[|feed| - 1]) then [feed[|feed| - 1]] else []
  }

  /** The kept submissions are exactly the relevant ones of the feed. */
  lemma {:induction false} RelevantsMembers(feed: seq<Submission>)
    ensures forall s :: s in Relevants(feed) <==> s in feed && Relevant(s)
    decreases |feed|
  {
    if feed != [] {
      var prefix := feed[..|feed| - 1];
      RelevantsMembers(prefix);
      assert feed == prefix + [feed[|feed| - 1]];
    }
  }

  lemma {:induction false} RelevantsConcat(a: seq<Submission>, b: seq<Submission>)
    ensures Relevants(a + b) == Relevants(a) + Relevants(b)
    decreases |b|
  {
    if b != [] {
      var b' := b[..|b| - 1];
      assert (a + b)[..|a + b| - 1] == a + b';
      assert (a + b)[|a + b| - 1] == b[|b| - 1];
      RelevantsConcat(a, b');
    } else {
      assert a + b == a;
    }
  }

  /** One more submission: the relevant ones of a longer feed. */
  lemma RelevantsSnoc(feed: seq<Submission>, s: Submission)
    ensures Relevants(feed + [s]) == Relevants(feed) + if Relevant(s) then [s] else []
  {
    InitOfSnoc(feed, s);
  }

  /** The post that becomes number `n` of the response. */
  function Numbered(n: nat, s: Submission): (r: Post)
    ensures r.url == s.url && r.score == s.score
    ensures r.keywords == FoundKeywords(s.title) && r.severity == DetectSeverity(s.title)
    ensures r.keywords != [] <==> Relevant(s)
    ensures |r.title| == |NatToString(n)| + 2 + |s.title|
  {
    Post(NatToString(n) + ". " + s.title, s.url, s.score, FoundKeywords(s.title), DetectSeverity(s.title))
  }

  /** The number written before a post's title reads back as `n`. */
  lemma NumberedTitleReadsBack(n: nat, s: Submission)
    ensures var t := Numbered(n, s).title;
      var digits := NatToString(n);
      t[..|digits|] == digits && t[|digits|..|digits| + 2] == ". " && t[|digits| + 2..] == s.title &&
      DecimalValue(t[..|digits|]) == n
  {
    var digits := NatToString(n);
    var t := Numbered(n, s).title;
    assert t[..|digits|] == digits;
    DecimalValueOfNatToString(n);
  }

  /** The relevant submissions numbered 1, 2, ... in order. */
  function NumberAll(relevant: seq<Submission>): (r: seq<Post>)
    ensures |r| == |relevant|
  {
    if relevant == [] then []
    else NumberAll(relevant[..|relevant| - 1]) + [Numbered(|relevant|, relevant[|relevant| - 1])]
  }

  lemma NumberAllSnoc(relevant: seq<Submission>, s: Submission)
    ensures NumberAll(relevant + [s]) == NumberAll(relevant) + [Numbered(|relevant| + 1, s)]
  {
    assert (relevant + [s])[..|relevant|] == relevant;
  }

  lemma {:induction false} NumberAllAt(relevant: seq<Submission>, i: nat)
    requires i < |relevant|
    ensures NumberAll(relevant)[i] == Numbered(i + 1, relevant[i])
    decreases |relevant|
  {
    if i < |relevant| - 1 {
      NumberAllAt(relevant[..|relevant| - 1], i);
    }
  }

  /** One more submission of the feed walked by the loop of fetch_posts. */
  lemma CollectStep(feed: seq<Submission>, k: nat)
    requires k < |feed|
    ensures NumberAll(Relevants(feed[..k + 1])) ==
      NumberAll(Relevants(feed[..k])) +
        if Relevant(feed[k]) then [Numbered(|Relevants(feed[..k])| + 1, feed[k])] else []
  {
    var prev := Relevants(feed[..k]);
    assert feed[..k + 1] == feed[..k] + [feed[k]];
    RelevantsSnoc(feed[..k], feed[k]);
    if Relevant(feed[k]) {
      assert Relevants(feed[..k + 1]) == prev + [feed[k]];
      NumberAllSnoc(prev, feed[k]);
    } else {
      assert Relevants(feed[..k + 1]) == prev;
    }
  }

  /** One pass of the loop of fetch_posts, at submission `k`: a relevant
      submission bumps the count and is appended under that number. */
  method VisitSubmission(feed: seq<Submission>, k: nat, posts: seq<Post>, count: nat)
    returns (posts': seq<Post>, count': nat)
    requires k < |feed| && posts == NumberAll(Relevants(feed[..k])) && count == |posts|
    ensures posts' == NumberAll(Relevants(feed[..k + 1])) && count' == |posts'|
  {
    var submission := feed[k];
    CollectStep(feed, k);
    posts', count' := posts, count;
    if Relevant(submission) {
      count' := count' + 1;
      posts' := posts' + [Numbered(count', submission)];
    }
  }

  /** fetch_posts of Cyber-Blogs-Crawler-main/app.py (and the first half of
      app.py's): every relevant submission, in feed order, numbered from 1;
      `count` ends as the number of posts. */
  method CollectPosts(feed: seq<Submission>) returns (posts: seq<Post>, count: nat)
    ensures posts == NumberAll(Relevants(feed))
    ensures count == |posts|
  {
    posts, count := [], 0;
    var k := 0;
    while k < |feed|
      invariant 0 <= k <= |feed|
      invariant posts == NumberAll(Relevants(feed[..k]))
      invariant count == |posts|
    {
      posts, count := VisitSubmission(feed, k, posts, count);
      k := k + 1;
    }
    assert feed[..|feed|] == feed;
  }
}
