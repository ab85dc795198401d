/** The threshold alert engine and alert store, class AlertRule of
    Cyber-Blogs-Crawler-main/alerts.py. Each alert is a record of the list
    `self.alerts`; save_alerts is the `saved` snapshot of that list. */
module Alerts {
  import opened Common
  import opened Feed

  datatype AlertSeverity = Medium | High | Critical

  datatype Status = Active | Dismissed

  /** One entry of `self.alerts`; `kind` is the record's 'type' key. */
  datatype Alert = Alert(id: int, timestamp: string, severity: AlertSeverity, kind: string,
                         message: string, count: nat, threshold: nat, status: Status, read: bool)

  /** `self.rules`: an alert fires when a category occurs MORE than this often. */
  const RULES: map<string, nat> := map[
    "malware" := 10, "phishing" := 5, "ransomware" := 8, "data_breach" := 7,
    "exploit" := 6, "zero-day" := 3, "apt" := 4, "vulnerability" := 15
  ]

  /** `self.rules.get(incident_type, 20)`. */
  function Threshold(kind: string): (r: nat)
    ensures kind !in RULES ==> r == 20
    ensures kind in RULES ==> r == RULES[kind]
    ensures 3 <= r <= 20
  {
    if kind in RULES then RULES[kind] else 20
  }

  /** `self.incident_map`, in declaration order (the order `.items()` visits). */
  const INCIDENT_MAP: seq<(string, seq<string>)> := [
    ("malware", ["malware", "worm", "trojan", "botnet"]),
    ("phishing", ["phishing", "spear phishing", "whaling"]),
    ("ransomware", ["ransomware", "lockbit", "wannacry", "conti"]),
    ("data_breach", ["data breach", "breach", "leaked"]),
    ("exploit", ["exploit", "RCE", "remote code execution"]),
    ("zero-day", ["zero-day", "0-day", "zero day"]),
    ("apt", ["APT", "advanced persistent threat"]),
    ("vulnerability", ["vulnerability", "CVE", "patch"])
  ]

  /** The category of a title that matches none of the table. */
  const GENERAL: string := "general"

  // ---------------------------------------------------------------------
  // categorize_incident
  // ---------------------------------------------------------------------

  /** The position of the first category of `table` with a keyword contained
      in `text`: the two nested loops with their early return. */
  function FirstCategory(text: string, table: seq<(string, seq<string>)>): (r: Option<nat>)
    ensures r.Some? ==> r.value < |table| && AnyContained(text, table[r.value].1)
    ensures r.Some? ==> forall j :: 0 <= j < r.value ==> !AnyContained(text, table[j].1)
    ensures r.None? <==> forall j :: 0 <= j < |table| ==> !AnyContained(text, table[j].1)
  {
    if table == [] then None
    else if FirstContained(text, table[0].1).Some? then Some(0)
    else match FirstCategory(text, table[1..])
      case None => None
      case Some(i) => Some(i + 1)
  }

  /** categorize_incident: the first matching category of the lower-cased
      title, or "general". */
  function Categorize(title: string): (r: string)
    ensures r == GENERAL || r in RULES
  {
    CategoryNames();
    match FirstCategory(ToLower(title), INCIDENT_MAP)
    case None => GENERAL
    case Some(i) => INCIDENT_MAP[i].0
  }

  /** True when category `i` has a keyword occurring in `text`. */
  predicate MatchesCategory(text: string, i: nat)
    requires i < |INCIDENT_MAP|
  {
    AnyContained(text, INCIDENT_MAP[i].1)
  }

  /** Every category name is a key of the rules, and none is "general". */
  lemma CategoryNames()
    ensures forall i :: 0 <= i < |INCIDENT_MAP| ==> INCIDENT_MAP[i].0 in RULES && INCIDENT_MAP[i].0 != GENERAL
  {
  }

  /** The title is "general" exactly when no category matches; otherwise it is
      the first matching category in declaration order. */
  lemma CategorizeIsFirstMatch(title: string)
    ensures Categorize(title) == GENERAL <==>
      forall i :: 0 <= i < |INCIDENT_MAP| ==> !MatchesCategory(ToLower(title), i)
    ensures Categorize(title) != GENERAL ==>
      exists i :: 0 <= i < |INCIDENT_MAP| && Categorize(title) == INCIDENT_MAP[i].0 &&
        MatchesCategory(ToLower(title), i) &&
        forall j :: 0 <= j < i ==> !MatchesCategory(ToLower(title), j)
  {
    CategoryNames();
    var f := FirstCategory(ToLower(title), INCIDENT_MAP);
    if f.Some? {
      assert MatchesCategory(ToLower(title), f.value);
    }
  }

  /** The result is "general" or a key of the rules, so every non-general
      category has its own threshold and "general" has the default 20. */
  lemma CategorizeRange(title: string)
    ensures Categorize(title) == GENERAL || Categorize(title) in RULES
    ensures Threshold(Categorize(title)) == 20 <==> Categorize(title) == GENERAL
  {
    RulesBelowDefault();
  }

  /** Every rule is stricter than the default, and "general" has none. */
  lemma RulesBelowDefault()
    ensures GENERAL !in RULES
    ensures forall k :: k in RULES ==> RULES[k] < 20
  {
  }

  /** The keyword that decided a category is one without upper-case letters:
      'RCE', 'APT' and 'CVE' never match a lower-cased title, so "exploit",
      "apt" and "vulnerability" are only ever reached through their
      lower-case keywords. */
  lemma CategoryHitIsLowerCase(title: string)
    ensures Categorize(title) != GENERAL ==>
      exists i, j :: 0 <= i < |INCIDENT_MAP| && INCIDENT_MAP[i].0 == Categorize(title) &&
        0 <= j < |INCIDENT_MAP[i].1| && !HasUpper(INCIDENT_MAP[i].1[j]) &&
        Contains(ToLower(title), INCIDENT_MAP[i].1[j])
  {
    var f := FirstCategory(ToLower(title), INCIDENT_MAP);
    if f.Some? {
      var i := f.value;
      var keywords := INCIDENT_MAP[i].1;
      var j :| 0 <= j < |keywords| && Contains(ToLower(title), keywords[j]);
      if HasUpper(keywords[j]) { UpperNeverInLowered(title, keywords[j]); }
    }
  }

  /** "new cve found" lacks a character of every keyword of the table; `p`
      is the position of that character in the keyword. */
  lemma CveTitleMissesKeyword(text: string, i: nat, j: nat)
    requires text == "new cve found"
    requires i < |INCIDENT_MAP| && j < |INCIDENT_MAP[i].1|
    ensures !Contains(text, INCIDENT_MAP[i].1[j])
  {
    var p :=
      if i == 0 then (if j == 1 then 2 else 0)
      else if i == 1 then (if j == 0 then 0 else 1)
      else if i == 2 then (if j == 2 then 1 else if j == 3 then 3 else 0)
      else if i == 3 then (if j == 0 then 1 else 0)
      else if i == 4 then (if j == 0 then 1 else 0)
      else if i == 7 then (if j == 0 then 2 else 0)
      else 0;
    AbsentCharAt(text, INCIDENT_MAP[i].1[j], p);
  }

  lemma CveTitleNoCategory(text: string)
    requires text == "new cve found"
    ensures forall i :: 0 <= i < |INCIDENT_MAP| ==> !MatchesCategory(text, i)
  {
    forall i, j | 0 <= i < |INCIDENT_MAP| && 0 <= j < |INCIDENT_MAP[i].1|
      ensures !Contains(text, INCIDENT_MAP[i].1[j])
    {
      CveTitleMissesKeyword(text, i, j);
    }
  }

  /** A title whose only candidate hit is "CVE" is "general". */
  lemma CveTitleIsGeneral()
    ensures Categorize("New CVE found") == GENERAL
  {
    var text := ToLower("New CVE found");
    assert text == "new cve found";
    CveTitleNoCategory(text);
    CategorizeIsFirstMatch("New CVE found");
  }

  // ---------------------------------------------------------------------
  // calculate_severity and the alert message
  // ---------------------------------------------------------------------

  /** The categories whose alerts become CRITICAL above 5 posts. */
  const SEVERE_KINDS: seq<string> := ["ransomware", "data_breach", "zero-day", "apt"]

  /** The categories whose alerts become CRITICAL above 15 posts. */
  const SPREADING_KINDS: seq<string> := ["malware", "exploit"]

  function SeverityRank(v: AlertSeverity): nat {
    match v
    case Medium => 0
    case High => 1
    case Critical => 2
  }

  /** calculate_severity: three tiers, decided by the category's group. */
  function CalculateSeverity(kind: string, count: nat): (r: AlertSeverity)
    ensures r == Critical <==>
      (kind in SEVERE_KINDS && count > 5) || (kind in SPREADING_KINDS && count > 15)
    ensures r == Medium <==>
      (if kind in SEVERE_KINDS then count <= 3
       else if kind in SPREADING_KINDS then count <= 10
       else count <= 20)
  {
    if kind in SEVERE_KINDS then
      if count > 5 then Critical else if count > 3 then High else Medium
    else if kind in SPREADING_KINDS then
      if count > 15 then Critical else if count > 10 then High else Medium
    else
      if count > 20 then High else Medium
  }

  /** More posts never lower the severity. */
  lemma SeverityMonotone(kind: string, fewer: nat, more: nat)
    requires fewer <= more
    ensures SeverityRank(CalculateSeverity(kind, fewer)) <= SeverityRank(CalculateSeverity(kind, more))
  {
  }

  /** What a fired alert is at least: ransomware and data breach alerts are
      always CRITICAL, zero-day, apt and malware ones at least HIGH, and those
      of a category without a rule ("general") always HIGH. */
  lemma FiredSeverity(kind: string, count: nat)
    requires count > Threshold(kind)
    ensures kind == "ransomware" || kind == "data_breach" ==> CalculateSeverity(kind, count) == Critical
    ensures kind == "zero-day" || kind == "apt" || kind == "malware" ==>
      SeverityRank(CalculateSeverity(kind, count)) >= 1
    ensures kind !in RULES ==> CalculateSeverity(kind, count) == High
  {
    assert forall k :: k in SEVERE_KINDS ==> k in RULES;
    assert forall k :: k in SPREADING_KINDS ==> k in RULES;
  }

  const ALERT_PREFIX: string := "\U{1F6A8} ALERT: "

  /** The alert's 'message': the count, the upper-cased category and the
      threshold. */
  function Message(kind: string, count: nat, threshold: nat): (m: string)
    ensures |m| > |ALERT_PREFIX| && m[..|ALERT_PREFIX|] == ALERT_PREFIX && m[|m| - 1] == ')'
  {
    ALERT_PREFIX + NatToString(count) + " " + ToUpper(kind) +
    " incidents detected (Threshold: " + NatToString(threshold) + ")"
  }

  /** The message reads back from the front: after the prefix come the
      count, a space and the upper-cased category. */
  lemma MessageReadsBack(kind: string, count: nat, threshold: nat)
    ensures var m := Message(kind, count, threshold);
      var p := |ALERT_PREFIX|;
      var c := NatToString(count);
      m[..p] == ALERT_PREFIX &&
      p + |c| + 1 + |kind| <= |m| &&
      DecimalValue(m[p..p + |c|]) == count &&
      m[p + |c|] == ' ' &&
      m[p + |c| + 1..p + |c| + 1 + |kind|] == ToUpper(kind)
  {
    var u := ToUpper(kind);
    assert |u| == |kind|;
    MessageParts(ALERT_PREFIX, NatToString(count), u, " incidents detected (Threshold: ",
                 NatToString(threshold));
    DecimalValueOfNatToString(count);
  }

  /** The message reads back from the end: the threshold, then ")". */
  lemma MessageEndsWithThreshold(kind: string, count: nat, threshold: nat)
    ensures var m := Message(kind, count, threshold);
      var t := NatToString(threshold);
      |t| + 1 <= |m| &&
      DecimalValue(m[|m| - 1 - |t|..|m| - 1]) == threshold &&
      m[|m| - 1] == ')'
  {
    MessageParts(ALERT_PREFIX, NatToString(count), ToUpper(kind), " incidents detected (Threshold: ",
                 NatToString(threshold));
    DecimalValueOfNatToString(threshold);
  }

  /** Where each part of a message-shaped concatenation sits. */
  lemma MessageParts(p: string, c: string, u: string, mid: string, t: string)
    ensures var m := p + c + " " + u + mid + t + ")";
      |m| == |p| + |c| + 1 + |u| + |mid| + |t| + 1 &&
      m[..|p|] == p &&
      m[|p|..|p| + |c|] == c &&
      m[|p| + |c|] == ' ' &&
      m[|p| + |c| + 1..|p| + |c| + 1 + |u|] == u &&
      m[|m| - 1 - |t|..|m| - 1] == t &&
      m[|m| - 1] == ')'
  {
    var m := p + c + " " + u + mid + t + ")";
    var n := |p| + |c| + 1 + |u| + |mid|;
    assert m[..|p|] == p;
    assert m[|p|..|p| + |c|] == c;
    assert m[|p| + |c| + 1..|p| + |c| + 1 + |u|] == u;
    assert m[n..n + |t|] == t;
  }

  /** The alert record built for a category that crossed its threshold. */
  function MakeAlert(id: int, now: string, kind: string, count: nat): (r: Alert)
    ensures r.status == Active && !r.read && r.kind == kind && r.count == count
  {
    Alert(id, now, CalculateSeverity(kind, count), kind, Message(kind, count, Threshold(kind)),
          count, Threshold(kind), Active, false)
  }

  // ---------------------------------------------------------------------
  // check_thresholds, as functions of the batch
  // ---------------------------------------------------------------------

  /** The category of every post of the batch, in batch order. */
  function Kinds(posts: seq<Post>): (r: seq<string>)
    ensures |r| == |posts|
  {
    if posts == [] then [] else Kinds(posts[..|posts| - 1]) + [Categorize(posts[|posts| - 1].title)]
  }

  /** Entry `i` is the category of post `i`. */
  lemma {:induction false} KindsAt(posts: seq<Post>, i: nat)
    requires i < |posts|
    ensures Kinds(posts)[i] == Categorize(posts[i].title)
    decreases |posts|
  {
    if i < |posts| - 1 {
      KindsAt(posts[..|posts| - 1], i);
    }
  }

  lemma KindsStep(posts: seq<Post>, i: nat)
    requires i < |posts|
    ensures Kinds(posts[..i + 1]) == Kinds(posts[..i]) + [Categorize(posts[i].title)]
  {
    assert posts[..i + 1][..i] == posts[..i];
  }

  /** The distinct entries of `s` in order of first appearance: the key order
      of the `incident_counts` dict. */
  function FirstSeen(s: seq<string>): (r: seq<string>)
    ensures forall k :: k in r <==> k in s
    ensures forall i, j :: 0 <= i < j < |r| ==> r[i] != r[j]
    ensures |r| <= |s|
  {
    if s == [] then []
    else
      var prev := FirstSeen(s[..|s| - 1]);
      assert s == s[..|s| - 1] + [s[|s| - 1]];
      if s[|s| - 1] in prev then prev else prev + [s[|s| - 1]]
  }

  /** The sum of the counts of the categories in `order`. */
  function Total(order: seq<string>, counts: multiset<string>): nat {
    if order == [] then 0 else Total(order[..|order| - 1], counts) + counts[order[|order| - 1]]
  }

  /** The alerts the second loop raises, walking `order` with the batch counts;
      `base` is len(self.alerts). */
  function Raised(base: int, order: seq<string>, counts: multiset<string>, now: string): (r: seq<Alert>)
    ensures |r| <= |order|
  {
    if order == [] then []
    else
      var prev := Raised(base, order[..|order| - 1], counts, now);
      var kind := order[|order| - 1];
      prev + if counts[kind] > Threshold(kind) then [MakeAlert(base + |prev| + 1, now, kind, counts[kind])] else []
  }

  /** The alerts check_thresholds returns for `posts` when the store holds
      `base` alerts. */
  function NewAlerts(base: int, posts: seq<Post>, now: string): (r: seq<Alert>)
    ensures |r| <= |posts|
  {
    var kinds := Kinds(posts);
    Raised(base, FirstSeen(kinds), multiset(kinds), now)
  }

  /** Every raised alert is the record of a category of `order` over its
      threshold, numbered consecutively after `base`. */
  lemma {:induction false} RaisedAt(base: int, order: seq<string>, counts: multiset<string>, now: string)
    ensures forall i :: 0 <= i < |Raised(base, order, counts, now)| ==>
      var a := Raised(base, order, counts, now)[i];
      a.kind in order && counts[a.kind] > Threshold(a.kind) &&
      a == MakeAlert(base + i + 1, now, a.kind, counts[a.kind])
    decreases |order|
  {
    if order != [] {
      var prefix := order[..|order| - 1];
      var r := Raised(base, order, counts, now);
      var prev := Raised(base, prefix, counts, now);
      var last := order[|order| - 1];
      assert r == prev + if counts[last] > Threshold(last) then [MakeAlert(base + |prev| + 1, now, last, counts[last])] else [];
      RaisedAt(base, prefix, counts, now);
      assert order == prefix + [order[|order| - 1]];
      forall i | 0 <= i < |r|
        ensures r[i].kind in order && counts[r[i].kind] > Threshold(r[i].kind) &&
          r[i] == MakeAlert(base + i + 1, now, r[i].kind, counts[r[i].kind])
      {
        if i < |prev| {
          assert r[i] == prev[i];
          assert prev[i].kind in prefix;
          assert prev[i] == MakeAlert(base + i + 1, now, prev[i].kind, counts[prev[i].kind]);
        } else {
          assert r[i] == MakeAlert(base + |prev| + 1, now, last, counts[last]);
        }
      }
    }
  }

  /** Some alert of `alerts` is about category `kind`. */
  predicate HasAlertFor(alerts: seq<Alert>, kind: string) {
    exists i :: 0 <= i < |alerts| && alerts[i].kind == kind
  }

  /** Every category of `order` over its threshold gets an alert. */
  lemma {:induction false} RaisedCovers(base: int, order: seq<string>, counts: multiset<string>, now: string)
    ensures forall k :: k in order && counts[k] > Threshold(k) ==> HasAlertFor(Raised(base, order, counts, now), k)
    decreases |order|
  {
    if order != [] {
      var prefix := order[..|order| - 1];
      var r := Raised(base, order, counts, now);
      var prev := Raised(base, prefix, counts, now);
      var last := order[|order| - 1];
      assert r == prev + if counts[last] > Threshold(last) then [MakeAlert(base + |prev| + 1, now, last, counts[last])] else [];
      RaisedCovers(base, prefix, counts, now);
      assert order == prefix + [order[|order| - 1]];
      forall k | k in order && counts[k] > Threshold(k) ensures HasAlertFor(r, k) {
        if k in prefix {
          var i :| 0 <= i < |prev| && prev[i].kind == k;
          assert r[i] == prev[i];
        } else {
          assert r[|prev|].kind == k;
        }
      }
    }
  }

  /** When `order` repeats no category, no category gets two alerts. */
  lemma {:induction false} RaisedDistinct(base: int, order: seq<string>, counts: multiset<string>, now: string)
    requires forall i, j :: 0 <= i < j < |order| ==> order[i] != order[j]
    ensures forall i, j :: 0 <= i < j < |Raised(base, order, counts, now)| ==>
      Raised(base, order, counts, now)[i].kind != Raised(base, order, counts, now)[j].kind
    decreases |order|
  {
    if order != [] {
      var prefix := order[..|order| - 1];
      var prev := Raised(base, prefix, counts, now);
      var r := Raised(base, order, counts, now);
      var last := order[|order| - 1];
      assert r == prev + if counts[last] > Threshold(last) then [MakeAlert(base + |prev| + 1, now, last, counts[last])] else [];
      RaisedDistinct(base, prefix, counts, now);
      RaisedAt(base, prefix, counts, now);
      assert order[|order| - 1] !in prefix;
      forall i, j | 0 <= i < j < |r| ensures r[i].kind != r[j].kind {
        assert r[i] == prev[i];
        if j < |prev| { assert r[j] == prev[j]; }
        else { assert prev[i].kind in prefix; }
      }
    }
  }

  /** The alerts of one batch: numbered base+1, base+2, ... in creation
      order, each active and unread, stamped `now`, and carrying its
      category's batch count, its threshold, the severity and the message
      derived from them. */
  lemma NewAlertsAreRecords(base: int, posts: seq<Post>, now: string)
    ensures forall i :: 0 <= i < |NewAlerts(base, posts, now)| ==>
      var a := NewAlerts(base, posts, now)[i];
      a.id == base + i + 1 && a.timestamp == now && a.status == Active && !a.read &&
      a.count == multiset(Kinds(posts))[a.kind] &&
      a.threshold == Threshold(a.kind) && a.count > a.threshold &&
      a.severity == CalculateSeverity(a.kind, a.count) &&
      a.message == Message(a.kind, a.count, a.threshold)
  {
    var kinds := Kinds(posts);
    var r := NewAlerts(base, posts, now);
    RaisedAt(base, FirstSeen(kinds), multiset(kinds), now);
    assert r == Raised(base, FirstSeen(kinds), multiset(kinds), now);
  }

  /** A category gets an alert exactly when more posts of the batch fall in
      it than its threshold allows; exactly `Threshold(k)` posts raise none. */
  lemma NewAlertsExactlyOverThreshold(base: int, posts: seq<Post>, now: string)
    ensures forall k :: HasAlertFor(NewAlerts(base, posts, now), k) <==> multiset(Kinds(posts))[k] > Threshold(k)
  {
    var kinds := Kinds(posts);
    var r := NewAlerts(base, posts, now);
    RaisedAt(base, FirstSeen(kinds), multiset(kinds), now);
    RaisedCovers(base, FirstSeen(kinds), multiset(kinds), now);
    forall k | multiset(kinds)[k] > Threshold(k) ensures HasAlertFor(r, k) {
      assert k in multiset(kinds);
    }
  }

  /** At most one alert per category of the batch. */
  lemma NewAlertsOnePerKind(base: int, posts: seq<Post>, now: string)
    ensures forall i, j :: 0 <= i < j < |NewAlerts(base, posts, now)| ==>
      NewAlerts(base, posts, now)[i].kind != NewAlerts(base, posts, now)[j].kind
  {
    var kinds := Kinds(posts);
    RaisedDistinct(base, FirstSeen(kinds), multiset(kinds), now);
    assert NewAlerts(base, posts, now) == Raised(base, FirstSeen(kinds), multiset(kinds), now);
  }

  /** Adding one occurrence of `x` adds one to the total when `x` is listed
      (once) in `order`, and nothing otherwise. */
  lemma {:induction false} TotalAdd(order: seq<string>, counts: multiset<string>, x: string)
    requires forall i, j :: 0 <= i < j < |order| ==> order[i] != order[j]
    ensures Total(order, counts + multiset{x}) == Total(order, counts) + if x in order then 1 else 0
    decreases |order|
  {
    if order != [] {
      var prefix := order[..|order| - 1];
      TotalAdd(prefix, counts, x);
      assert order == prefix + [order[|order| - 1]];
      assert order[|order| - 1] !in prefix;
    }
  }

  /** The per-category counts add up to the size of the batch. */
  lemma {:induction false} CountsCoverBatch(kinds: seq<string>)
    ensures Total(FirstSeen(kinds), multiset(kinds)) == |kinds|
    decreases |kinds|
  {
    if kinds != [] {
      var prefix := kinds[..|kinds| - 1];
      var x := kinds[|kinds| - 1];
      assert kinds == prefix + [x];
      CountsCoverBatch(prefix);
      var seen := FirstSeen(prefix);
      TotalAdd(seen, multiset(prefix), x);
      if x !in seen {
        assert x !in multiset(prefix);
        var order := seen + [x];
        assert order[..|order| - 1] == seen;
      }
    }
  }

  // ---------------------------------------------------------------------
  // The store: lookup by id, the two one-way flags, the queries
  // ---------------------------------------------------------------------

  /** The ids are 1, 2, ..., n in list order: what check_thresholds keeps
      when it starts from an empty store. */
  predicate IdsContiguous(alerts: seq<Alert>) {
    forall i :: 0 <= i < |alerts| ==> alerts[i].id == i + 1
  }

  /** A record as check_thresholds builds it: its threshold is its
      category's, its count is above it, and its severity is the one
      calculate_severity gives for that category and count. */
  predicate Consistent(a: Alert) {
    a.threshold == Threshold(a.kind) && a.count > a.threshold &&
    a.severity == CalculateSeverity(a.kind, a.count)
  }

  predicate RecordsConsistent(alerts: seq<Alert>) {
    forall i :: 0 <= i < |alerts| ==> Consistent(alerts[i])
  }

  /** The store invariant: ids 1..n in order, and every record consistent. */
  predicate StoreValid(alerts: seq<Alert>) {
    IdsContiguous(alerts) && RecordsConsistent(alerts)
  }

  /** The position of the first alert with id `id`: the loop of
      mark_alert_as_read and dismiss_alert. */
  function FindId(alerts: seq<Alert>, id: int): (r: Option<nat>)
    ensures r.Some? ==> r.value < |alerts| && alerts[r.value].id == id
    ensures r.Some? ==> forall j :: 0 <= j < r.value ==> alerts[j].id != id
    ensures r.None? <==> forall j :: 0 <= j < |alerts| ==> alerts[j].id != id
  {
    if alerts == [] then None
    else if alerts[0].id == id then Some(0)
    else match FindId(alerts[1..], id)
      case None => None
      case Some(i) => Some(i + 1)
  }

  /** With contiguous ids, id `n` is found at position n - 1 when 1 <= n <= len. */
  lemma FindIdContiguous(alerts: seq<Alert>, id: int)
    requires IdsContiguous(alerts)
    ensures FindId(alerts, id) == if 1 <= id <= |alerts| then Some(id - 1) else None
  {
    if 1 <= id <= |alerts| {
      assert alerts[id - 1].id == id;
    }
  }

  /** The two one-way changes a request can make to an alert. */
  datatype Flag = MarkRead | Dismiss

  /** The in-place update of mark_alert_as_read or dismiss_alert: only the
      flag changes, and it only goes one way. */
  function Flagged(a: Alert, f: Flag): (r: Alert)
    ensures r.id == a.id && r.timestamp == a.timestamp && r.severity == a.severity && r.kind == a.kind
    ensures r.message == a.message && r.count == a.count && r.threshold == a.threshold
    ensures r.read <==> a.read || f == MarkRead
    ensures r.status == (if f == Dismiss then Dismissed else a.status)
  {
    match f
    case MarkRead => a.(read := true)
    case Dismiss => a.(status := Dismissed)
  }

  /** The store after the first alert with id `id` got flag `f`; unchanged
      when no alert has that id. */
  function WithFlag(alerts: seq<Alert>, id: int, f: Flag): (r: seq<Alert>)
    ensures |r| == |alerts|
    ensures forall j :: 0 <= j < |r| ==> r[j].id == alerts[j].id && r[j].kind == alerts[j].kind
  {
    match FindId(alerts, id)
    case None => alerts
    case Some(i) => alerts[i := Flagged(alerts[i], f)]
  }

  /** Only the first alert with the id changes, and only in its flag: read
      becomes true, or status becomes dismissed. */
  lemma WithFlagChangesOneAlert(alerts: seq<Alert>, id: int, f: Flag)
    ensures |WithFlag(alerts, id, f)| == |alerts|
    ensures FindId(alerts, id).None? ==> WithFlag(alerts, id, f) == alerts
    ensures forall j :: 0 <= j < |alerts| && FindId(alerts, id) != Some(j) ==> WithFlag(alerts, id, f)[j] == alerts[j]
    ensures FindId(alerts, id).Some? ==>
      var a := alerts[FindId(alerts, id).value];
      var b := WithFlag(alerts, id, f)[FindId(alerts, id).value];
      b.id == a.id && b.timestamp == a.timestamp && b.severity == a.severity &&
      b.kind == a.kind && b.message == a.message && b.count == a.count && b.threshold == a.threshold &&
      (f == MarkRead ==> b.read && b.status == a.status) &&
      (f == Dismiss ==> b.status == Dismissed && b.read == a.read)
  {
  }

  /** The flags only ever go one way, and ids stay where they were. */
  lemma WithFlagMonotone(alerts: seq<Alert>, id: int, f: Flag)
    ensures forall j :: 0 <= j < |alerts| ==>
      WithFlag(alerts, id, f)[j].id == alerts[j].id &&
      (alerts[j].read ==> WithFlag(alerts, id, f)[j].read) &&
      (alerts[j].status == Dismissed ==> WithFlag(alerts, id, f)[j].status == Dismissed)
  {
  }

  /** Flagging keeps every id at its place, so every lookup finds the same position. */
  lemma WithFlagKeepsLookups(alerts: seq<Alert>, id: int, f: Flag, other: int)
    ensures FindId(WithFlag(alerts, id, f), other) == FindId(alerts, other)
  {
    var r := WithFlag(alerts, id, f);
    assert forall j :: 0 <= j < |alerts| ==> r[j].id == alerts[j].id;
    FindIdSameIds(alerts, r, other);
  }

  lemma {:induction false} FindIdSameIds(a: seq<Alert>, b: seq<Alert>, id: int)
    requires |a| == |b| && forall j :: 0 <= j < |a| ==> a[j].id == b[j].id
    ensures FindId(a, id) == FindId(b, id)
    decreases |a|
  {
    if a != [] && a[0].id != id {
      FindIdSameIds(a[1..], b[1..], id);
    }
  }

  /** Flagging keeps every record consistent. */
  lemma WithFlagKeepsConsistent(alerts: seq<Alert>, id: int, f: Flag)
    requires RecordsConsistent(alerts)
    ensures RecordsConsistent(WithFlag(alerts, id, f))
  {
  }

  /** Repeating a request changes nothing more. */
  lemma WithFlagIdempotent(alerts: seq<Alert>, id: int, f: Flag)
    ensures WithFlag(WithFlag(alerts, id, f), id, f) == WithFlag(alerts, id, f)
  {
    WithFlagKeepsLookups(alerts, id, f, id);
  }

  /** get_active_alerts: the active alerts, in store order. */
  function ActiveOf(alerts: seq<Alert>): (r: seq<Alert>)
    ensures |r| <= |alerts|
    ensures forall a :: a in r <==> a in alerts && a.status == Active
  {
    if alerts == [] then []
    else
      var prefix := alerts[..|alerts| - 1];
      var last := alerts[|alerts| - 1];
      assert alerts == prefix + [last];
      ActiveOf(prefix) + if last.status == Active then [last] else []
  }

  /** The positions of the active alerts of the store. */
  function ActiveIndices(alerts: seq<Alert>): set<int> {
    set i | 0 <= i < |alerts| && alerts[i].status == Active
  }

  /** The positions of the active alerts, in increasing order. */
  function ActivePositions(alerts: seq<Alert>): (r: seq<nat>)
    ensures |r| == |ActiveOf(alerts)|
  {
    if alerts == [] then []
    else ActivePositions(alerts[..|alerts| - 1]) + if alerts[|alerts| - 1].status == Active then [|alerts| - 1] else []
  }

  /** get_active_alerts keeps store order: its entries are the store's
      active alerts taken at increasing positions, and those positions are
      exactly the active ones. */
  lemma {:induction false} ActiveOfInStoreOrder(alerts: seq<Alert>)
    ensures var r, p := ActiveOf(alerts), ActivePositions(alerts);
      (forall k :: 0 <= k < |p| ==> p[k] < |alerts| && r[k] == alerts[p[k]]) &&
      (forall k, l :: 0 <= k < l < |p| ==> p[k] < p[l]) &&
      (forall i :: i in p <==> i in ActiveIndices(alerts))
    decreases |alerts|
  {
    if alerts != [] {
      var prefix := alerts[..|alerts| - 1];
      ActiveOfInStoreOrder(prefix);
      var last := alerts[|alerts| - 1];
      assert alerts == prefix + [last];
      forall i ensures i in ActiveIndices(prefix) <==> 0 <= i < |alerts| - 1 && alerts[i].status == Active {
        if 0 <= i < |prefix| { assert prefix[i] == alerts[i]; }
      }
    }
  }

  /** `active_count`: get_active_alerts returns one entry per active alert. */
  lemma {:induction false} ActiveCount(alerts: seq<Alert>)
    ensures |ActiveOf(alerts)| == |ActiveIndices(alerts)|
    decreases |alerts|
  {
    if alerts != [] {
      var n := |alerts| - 1;
      ActiveCount(alerts[..n]);
      ActiveIndicesStep(alerts);
    }
  }

  /** The active positions of a store: those of its front, and the last
      one when that alert is active. */
  lemma ActiveIndicesStep(alerts: seq<Alert>)
    requires alerts != []
    ensures var n := |alerts| - 1;
      n !in ActiveIndices(alerts[..n]) &&
      ActiveIndices(alerts) == ActiveIndices(alerts[..n]) + if alerts[n].status == Active then {n} else {}
  {
    var n := |alerts| - 1;
    var prefix := alerts[..n];
    forall i ensures i in ActiveIndices(alerts) <==>
      i in ActiveIndices(prefix) + if alerts[n].status == Active then {n} else {}
    {
      if 0 <= i < n { assert prefix[i] == alerts[i]; }
    }
  }

  /** The number of alerts of severity `v`. */
  function Tally(alerts: seq<Alert>, v: AlertSeverity): nat {
    if alerts == [] then 0
    else Tally(alerts[..|alerts| - 1], v) + if alerts[|alerts| - 1].severity == v then 1 else 0
  }

  /** Every alert has exactly one severity, so the tallies add up. */
  lemma {:induction false} TalliesAddUp(alerts: seq<Alert>)
    ensures Tally(alerts, Medium) + Tally(alerts, High) + Tally(alerts, Critical) == |alerts|
    decreases |alerts|
  {
    if alerts != [] {
      TalliesAddUp(alerts[..|alerts| - 1]);
    }
  }

  /** A positive tally means some alert has that severity. */
  lemma {:induction false} TallyWitness(alerts: seq<Alert>, v: AlertSeverity)
    ensures Tally(alerts, v) > 0 <==> exists i :: 0 <= i < |alerts| && alerts[i].severity == v
    decreases |alerts|
  {
    if alerts != [] {
      var prefix := alerts[..|alerts| - 1];
      TallyWitness(prefix, v);
      if exists i :: 0 <= i < |prefix| && prefix[i].severity == v {
        var i :| 0 <= i < |prefix| && prefix[i].severity == v;
        assert alerts[i] == prefix[i];
      }
      if exists i :: 0 <= i < |alerts| && alerts[i].severity == v {
        var i :| 0 <= i < |alerts| && alerts[i].severity == v;
        if i < |prefix| { assert prefix[i] == alerts[i]; }
      }
    }
  }

  /** `dict(severity_count)`: a key for each severity that occurs, with its count. */
  function BySeverity(alerts: seq<Alert>): (r: map<AlertSeverity, nat>)
    ensures forall v :: v in r <==> Tally(alerts, v) > 0
    ensures forall v :: v in r ==> r[v] == Tally(alerts, v)
  {
    map v | v in {Medium, High, Critical} && Tally(alerts, v) > 0 :: Tally(alerts, v)
  }

  /** The count of a severity, zero when the dict has no entry for it. */
  function CountOf(m: map<AlertSeverity, nat>, v: AlertSeverity): nat {
    if v in m then m[v] else 0
  }

  /** The result of get_alert_statistics. */
  datatype Statistics = Statistics(activeCount: nat, totalCount: nat, bySeverity: map<AlertSeverity, nat>)

  /** The statistics are consistent: no more active alerts than alerts, every
      count in `by_severity` positive, and the counts adding up to the total. */
  lemma StatisticsConsistent(alerts: seq<Alert>)
    ensures |ActiveOf(alerts)| == |ActiveIndices(alerts)| <= |alerts|
    ensures forall v :: v in BySeverity(alerts) ==> BySeverity(alerts)[v] > 0
    ensures CountOf(BySeverity(alerts), Medium) + CountOf(BySeverity(alerts), High) +
            CountOf(BySeverity(alerts), Critical) == |alerts|
  {
    ActiveCount(alerts);
    TalliesAddUp(alerts);
  }

  /** One more alert adds one to its severity's entry. */
  lemma BySeverityStep(alerts: seq<Alert>, k: nat)
    requires k < |alerts|
    ensures var m := BySeverity(alerts[..k]);
      var v := alerts[k].severity;
      BySeverity(alerts[..k + 1]) == m[v := if v in m then m[v] + 1 else 1]
  {
    var prefix, longer := alerts[..k], alerts[..k + 1];
    assert longer[..k] == prefix;
    var m := BySeverity(prefix);
    var v := alerts[k].severity;
    var n := m[v := if v in m then m[v] + 1 else 1];
    assert forall w :: Tally(longer, w) == Tally(prefix, w) + if w == v then 1 else 0;
    assert forall w :: w in BySeverity(longer) <==> w in n;
    assert forall w :: w in n ==> BySeverity(longer)[w] == n[w];
  }

  // ---------------------------------------------------------------------
  // get_recent_alerts: sorted(..., key=timestamp, reverse=True)[:limit]
  // ---------------------------------------------------------------------

  /** No alert is followed by a strictly newer one. */
  predicate NewestFirst(alerts: seq<Alert>) {
    forall i, j :: 0 <= i < j < |alerts| ==> !LexLess(alerts[i].timestamp, alerts[j].timestamp)
  }

  /** Places `a` after every alert at least as new, before the first older one. */
  function InsertNewest(a: Alert, sorted: seq<Alert>): (r: seq<Alert>)
    ensures multiset(r) == multiset(sorted) + multiset{a}
  {
    if sorted == [] then [a]
    else if LexLess(sorted[0].timestamp, a.timestamp) then [a] + sorted
    else
      assert sorted == [sorted[0]] + sorted[1..];
      [sorted[0]] + InsertNewest(a, sorted[1..])
  }

  /** A stable sort on the timestamps, newest first: later alerts are
      inserted behind earlier ones with the same timestamp. */
  function SortNewestFirst(alerts: seq<Alert>): (r: seq<Alert>)
    ensures multiset(r) == multiset(alerts)
  {
    if alerts == [] then []
    else
      assert alerts == alerts[..|alerts| - 1] + [alerts[|alerts| - 1]];
      InsertNewest(alerts[|alerts| - 1], SortNewestFirst(alerts[..|alerts| - 1]))
  }

  /** The case of InsertNewestKeepsOrder where `a` goes in front. */
  lemma InsertFrontKeepsOrder(a: Alert, sorted: seq<Alert>)
    requires NewestFirst(sorted) && sorted != [] && LexLess(sorted[0].timestamp, a.timestamp)
    ensures NewestFirst([a] + sorted)
  {
    var r := [a] + sorted;
    forall j | 1 <= j < |r| ensures !LexLess(a.timestamp, r[j].timestamp) {
      assert r[j] == sorted[j - 1];
      if LexLess(a.timestamp, r[j].timestamp) {
        LexLessTransitive(sorted[0].timestamp, a.timestamp, r[j].timestamp);
      }
    }
    forall i, j | 1 <= i < j < |r| ensures !LexLess(r[i].timestamp, r[j].timestamp) {
      assert r[i] == sorted[i - 1] && r[j] == sorted[j - 1];
    }
  }

  /** The head of a newest-first list is at least as new as everything of
      `rest`, when `rest` holds the tail and an alert that is not newer. */
  lemma HeadBeforeInserted(a: Alert, sorted: seq<Alert>, rest: seq<Alert>)
    requires NewestFirst(sorted) && sorted != [] && !LexLess(sorted[0].timestamp, a.timestamp)
    requires multiset(rest) == multiset(sorted[1..]) + multiset{a}
    ensures forall j :: 0 <= j < |rest| ==> !LexLess(sorted[0].timestamp, rest[j].timestamp)
  {
    var tail := sorted[1..];
    forall j | 0 <= j < |rest| ensures !LexLess(sorted[0].timestamp, rest[j].timestamp) {
      assert rest[j] in multiset(rest);
      assert rest[j] == a || rest[j] in tail;
      if rest[j] != a {
        var k :| 0 <= k < |tail| && tail[k] == rest[j];
        assert sorted[k + 1] == rest[j];
      }
    }
  }

  lemma {:induction false} InsertNewestKeepsOrder(a: Alert, sorted: seq<Alert>)
    requires NewestFirst(sorted)
    ensures NewestFirst(InsertNewest(a, sorted))
    decreases |sorted|
  {
    if sorted == [] {
    } else if LexLess(sorted[0].timestamp, a.timestamp) {
      InsertFrontKeepsOrder(a, sorted);
    } else {
      var tail := sorted[1..];
      NewestFirstTail(sorted);
      InsertNewestKeepsOrder(a, tail);
      var rest := InsertNewest(a, tail);
      HeadBeforeInserted(a, sorted, rest);
      var r := [sorted[0]] + rest;
      assert InsertNewest(a, sorted) == r;
      forall i, j | 0 <= i < j < |r| ensures !LexLess(r[i].timestamp, r[j].timestamp) {
        if i > 0 { assert r[i] == rest[i - 1] && r[j] == rest[j - 1]; }
        else { assert r[j] == rest[j - 1]; }
      }
    }
  }

  /** The sort orders newest first. */
  lemma {:induction false} SortIsNewestFirst(alerts: seq<Alert>)
    ensures NewestFirst(SortNewestFirst(alerts))
    decreases |alerts|
  {
    if alerts != [] {
      SortIsNewestFirst(alerts[..|alerts| - 1]);
      InsertNewestKeepsOrder(alerts[|alerts| - 1], SortNewestFirst(alerts[..|alerts| - 1]));
    }
  }

  /** Python's `s[:limit]`: a negative limit counts from the end. */
  function Head(s: seq<Alert>, limit: int): (r: seq<Alert>)
    ensures limit >= 0 ==> |r| == if limit < |s| then limit else |s|
    ensures limit < 0 ==> |r| == if |s| + limit > 0 then |s| + limit else 0
    ensures r == s[..|r|]
  {
    var n := if limit >= 0 then (if limit < |s| then limit else |s|)
             else if |s| + limit > 0 then |s| + limit else 0;
    s[..n]
  }

  /** The alerts with timestamp `t`, in list order. */
  function Stamped(alerts: seq<Alert>, t: string): (r: seq<Alert>)
    ensures |r| <= |alerts|
  {
    if alerts == [] then []
    else (if alerts[0].timestamp == t then [alerts[0]] else []) + Stamped(alerts[1..], t)
  }

  lemma {:induction false} StampedConcat(a: seq<Alert>, b: seq<Alert>, t: string)
    ensures Stamped(a + b, t) == Stamped(a, t) + Stamped(b, t)
    decreases |a|
  {
    if a == [] {
      assert a + b == b;
    } else {
      assert (a + b)[0] == a[0] && (a + b)[1..] == a[1..] + b;
      StampedConcat(a[1..], b, t);
      var head := if a[0].timestamp == t then [a[0]] else [];
      calc {
        Stamped(a + b, t);
        head + Stamped(a[1..] + b, t);
        head + (Stamped(a[1..], t) + Stamped(b, t));
        (head + Stamped(a[1..], t)) + Stamped(b, t);
      }
    }
  }

  /** In a newest-first list whose head is older than `t`, nothing is stamped `t`. */
  lemma {:induction false} NoneStampedAfterOlderHead(sorted: seq<Alert>, t: string)
    requires NewestFirst(sorted) && sorted != [] && LexLess(sorted[0].timestamp, t)
    ensures Stamped(sorted, t) == []
    decreases |sorted|
  {
    if sorted[0].timestamp == t { LexLessIrreflexive(t); }
    var tail := sorted[1..];
    if tail != [] {
      assert tail[0] == sorted[1];
      if tail[0].timestamp != sorted[0].timestamp {
        LexLessTotal(tail[0].timestamp, sorted[0].timestamp);
        LexLessTransitive(tail[0].timestamp, sorted[0].timestamp, t);
      }
      NewestFirstTail(sorted);
      NoneStampedAfterOlderHead(tail, t);
    }
  }

  lemma NewestFirstTail(sorted: seq<Alert>)
    requires NewestFirst(sorted) && sorted != []
    ensures NewestFirst(sorted[1..])
  {
    var tail := sorted[1..];
    forall i, j | 0 <= i < j < |tail| ensures !LexLess(tail[i].timestamp, tail[j].timestamp) {
      assert tail[i] == sorted[i + 1] && tail[j] == sorted[j + 1];
    }
  }

  /** The case of InsertNewestIsStable where `a` goes in front. */
  lemma InsertBeforeOlderIsStable(a: Alert, sorted: seq<Alert>, t: string)
    requires NewestFirst(sorted) && sorted != [] && LexLess(sorted[0].timestamp, a.timestamp)
    ensures Stamped(InsertNewest(a, sorted), t) == Stamped(sorted, t) + if a.timestamp == t then [a] else []
  {
    assert InsertNewest(a, sorted) == [a] + sorted;
    StampedConcat([a], sorted, t);
    assert Stamped([a], t) == (if a.timestamp == t then [a] else []) + Stamped([], t);
    if a.timestamp == t { NoneStampedAfterOlderHead(sorted, t); }
  }

  /** Putting the same alert in front of two lists whose stamped parts differ
      by `extra` keeps that difference. */
  lemma StampedConsStep(x: Alert, tail: seq<Alert>, rest: seq<Alert>, extra: seq<Alert>, t: string)
    requires Stamped(rest, t) == Stamped(tail, t) + extra
    ensures Stamped([x] + rest, t) == Stamped([x] + tail, t) + extra
  {
    StampedConcat([x], rest, t);
    StampedConcat([x], tail, t);
    assert Stamped([x], t) + (Stamped(tail, t) + extra) == (Stamped([x], t) + Stamped(tail, t)) + extra;
  }

  /** Inserting `a` puts it behind every alert with the same timestamp. */
  lemma {:induction false} InsertNewestIsStable(a: Alert, sorted: seq<Alert>, t: string)
    requires NewestFirst(sorted)
    ensures Stamped(InsertNewest(a, sorted), t) == Stamped(sorted, t) + if a.timestamp == t then [a] else []
    decreases |sorted|
  {
    if sorted == [] {
      assert InsertNewest(a, sorted) == [a];
      assert Stamped([a], t) == (if a.timestamp == t then [a] else []) + Stamped([], t);
    } else if LexLess(sorted[0].timestamp, a.timestamp) {
      InsertBeforeOlderIsStable(a, sorted, t);
    } else {
      var tail := sorted[1..];
      NewestFirstTail(sorted);
      InsertNewestIsStable(a, tail, t);
      assert InsertNewest(a, sorted) == [sorted[0]] + InsertNewest(a, tail);
      StampedConsStep(sorted[0], tail, InsertNewest(a, tail), if a.timestamp == t then [a] else [], t);
      assert [sorted[0]] + tail == sorted;
    }
  }

  /** The sort is stable: alerts sharing a timestamp (the alerts of one
      check_thresholds call do) keep their store order. */
  lemma {:induction false} SortIsStable(alerts: seq<Alert>, t: string)
    ensures Stamped(SortNewestFirst(alerts), t) == Stamped(alerts, t)
    decreases |alerts|
  {
    if alerts != [] {
      SortIsStable(alerts[..|alerts| - 1], t);
      SortStepIsStable(alerts, t);
    }
  }

  /** Sorting one more alert keeps the stamped parts, given it did before. */
  lemma SortStepIsStable(alerts: seq<Alert>, t: string)
    requires alerts != []
    requires Stamped(SortNewestFirst(alerts[..|alerts| - 1]), t) == Stamped(alerts[..|alerts| - 1], t)
    ensures Stamped(SortNewestFirst(alerts), t) == Stamped(alerts, t)
  {
    var prefix := alerts[..|alerts| - 1];
    var last := alerts[|alerts| - 1];
    var sorted := SortNewestFirst(prefix);
    assert SortNewestFirst(alerts) == InsertNewest(last, sorted);
    SortIsNewestFirst(prefix);
    InsertNewestIsStable(last, sorted, t);
    StampedSnoc(prefix, last, t);
    FrontLast(alerts);
  }

  /** Stamping a list with one more alert at the end. */
  lemma StampedSnoc(s: seq<Alert>, a: Alert, t: string)
    ensures Stamped(s + [a], t) == Stamped(s, t) + if a.timestamp == t then [a] else []
  {
    StampedConcat(s, [a], t);
    assert Stamped([a], t) == (if a.timestamp == t then [a] else []) + Stamped([], t);
  }

  /** A prefix of a newest-first list is newest first, and holds the newest
      alerts: nothing behind it is newer than anything in it. */
  lemma PrefixIsNewest(sorted: seq<Alert>, n: nat)
    requires NewestFirst(sorted) && n <= |sorted|
    ensures NewestFirst(sorted[..n])
    ensures forall i, a :: 0 <= i < n && a in multiset(sorted) - multiset(sorted[..n]) ==>
      !LexLess(sorted[..n][i].timestamp, a.timestamp)
  {
    var r := sorted[..n];
    TakeDrop(sorted, n);
    forall i, a | 0 <= i < n && a in multiset(sorted) - multiset(r)
      ensures !LexLess(r[i].timestamp, a.timestamp)
    {
      assert a in sorted[n..];
      var j :| n <= j < |sorted| && sorted[j] == a;
    }
  }

  /** get_recent_alerts: at most `limit` alerts of the store (Python's slice
      for a negative limit), newest first, and none left out is newer than
      one returned. */
  function Recent(alerts: seq<Alert>, limit: int): (r: seq<Alert>)
    ensures limit >= 0 ==> |r| == if limit < |alerts| then limit else |alerts|
    ensures limit < 0 ==> |r| == if |alerts| + limit > 0 then |alerts| + limit else 0
    ensures multiset(r) <= multiset(alerts)
    ensures NewestFirst(r)
    ensures forall i, a :: 0 <= i < |r| && a in multiset(alerts) - multiset(r) ==>
      !LexLess(r[i].timestamp, a.timestamp)
  {
    var sorted := SortNewestFirst(alerts);
    SortIsNewestFirst(alerts);
    var r := Head(sorted, limit);
    PrefixIsNewest(sorted, |r|);
    assert sorted == r + sorted[|r|..];
    r
  }

  // ---------------------------------------------------------------------
  // class AlertRule
  // ---------------------------------------------------------------------

  /** `counts` and `order` are the `incident_counts` dict after the
      categories `s`: its keys in insertion order and each one's count. */
  ghost predicate CountsAgree(s: seq<string>, counts: map<string, nat>, order: seq<string>) {
    order == FirstSeen(s) &&
    (forall k :: k in counts <==> k in order) &&
    (forall k :: k in counts ==> counts[k] == multiset(s)[k])
  }

  /** The first-seen order and the tally after one more category. */
  lemma FirstSeenSnoc(s: seq<string>, kind: string)
    ensures FirstSeen(s + [kind]) == if kind in s then FirstSeen(s) else FirstSeen(s) + [kind]
    ensures multiset(s + [kind]) == multiset(s) + multiset{kind}
  {
    assert (s + [kind])[..|s|] == s;
  }

  /** `incident_counts[kind] += 1` on a category already counted keeps the
      agreement. */
  lemma CountsAgreeBump(s: seq<string>, counts: map<string, nat>, order: seq<string>, kind: string)
    requires CountsAgree(s, counts, order) && kind in counts
    ensures CountsAgree(s + [kind], counts[kind := counts[kind] + 1], order)
  {
    FirstSeenSnoc(s, kind);
  }

  /** The first occurrence of a category enters it with count 1, last in
      the key order. */
  lemma CountsAgreeInsert(s: seq<string>, counts: map<string, nat>, order: seq<string>, kind: string)
    requires CountsAgree(s, counts, order) && kind !in counts
    ensures CountsAgree(s + [kind], counts[kind := 1], order + [kind])
  {
    FirstSeenSnoc(s, kind);
    assert kind !in multiset(s);
  }

  /** A listed category's entry is its count in the batch. */
  lemma CountsAgreeAt(kinds: seq<string>, counts: map<string, nat>, order: seq<string>, k: string)
    requires CountsAgree(kinds, counts, order) && k in order
    ensures k in counts && counts[k] == multiset(kinds)[k]
  {
  }

  /** The new alerts of a batch are consistent records, so appending them
      to a consistent store keeps it consistent. */
  lemma AppendKeepsRecordsConsistent(alerts: seq<Alert>, posts: seq<Post>, now: string)
    requires RecordsConsistent(alerts)
    ensures RecordsConsistent(alerts + NewAlerts(|alerts|, posts, now))
  {
    var created := NewAlerts(|alerts|, posts, now);
    NewAlertsAreRecords(|alerts|, posts, now);
    forall i | 0 <= i < |alerts + created| ensures Consistent((alerts + created)[i]) {
      if i >= |alerts| { assert (alerts + created)[i] == created[i - |alerts|]; }
    }
  }

  /** Appending the batch's alerts to a store with ids 1..n gives ids 1..n+k. */
  lemma AppendKeepsIdsContiguous(alerts: seq<Alert>, posts: seq<Post>, now: string)
    requires IdsContiguous(alerts)
    ensures IdsContiguous(alerts + NewAlerts(|alerts|, posts, now))
  {
    var created := NewAlerts(|alerts|, posts, now);
    NewAlertsAreRecords(|alerts|, posts, now);
    var all := alerts + created;
    forall i | 0 <= i < |all| ensures all[i].id == i + 1 {
      if i >= |alerts| { assert all[i] == created[i - |alerts|]; }
    }
  }

  /** One more category of `order` walked by the second loop, whose count
      in the batch is `count`. */
  lemma RaisedStep(base: int, order: seq<string>, counts: multiset<string>, now: string, j: nat, count: nat)
    requires j < |order| && counts[order[j]] == count
    ensures Raised(base, order[..j + 1], counts, now) ==
      Raised(base, order[..j], counts, now) +
        if count > Threshold(order[j])
        then [MakeAlert(base + |Raised(base, order[..j], counts, now)| + 1, now, order[j], count)] else []
  {
    assert order[..j + 1][..j] == order[..j];
  }

  /** One pass of the first loop: bump the category's count, or insert it
      at 1 at the end of the key order. */
  method CountOne(ghost s: seq<string>, counts: map<string, nat>, order: seq<string>, kind: string)
    returns (counts': map<string, nat>, order': seq<string>)
    requires CountsAgree(s, counts, order)
    ensures CountsAgree(s + [kind], counts', order')
  {
    if kind in counts {
      CountsAgreeBump(s, counts, order, kind);
      counts', order' := counts[kind := counts[kind] + 1], order;
    } else {
      CountsAgreeInsert(s, counts, order, kind);
      counts', order' := counts[kind := 1], order + [kind];
    }
  }

  /** The first loop of check_thresholds: `incident_counts`, as a map and
      the order its keys were inserted in. */
  method CountIncidents(posts: seq<Post>) returns (counts: map<string, nat>, order: seq<string>)
    ensures CountsAgree(Kinds(posts), counts, order)
  {
    counts, order := map[], [];
    var i := 0;
    while i < |posts|
      invariant 0 <= i <= |posts|
      invariant CountsAgree(Kinds(posts[..i]), counts, order)
    {
      var kind := Categorize(posts[i].title);
      KindsStep(posts, i);
      counts, order := CountOne(Kinds(posts[..i]), counts, order, kind);
      i := i + 1;
    }
    assert posts[..|posts|] == posts;
  }

  /** One pass of the second loop, at position `j` of the key order: append
      the category's alert when its count is over its threshold. */
  method RaiseOne(base: int, ghost tally: multiset<string>, order: seq<string>, counts: map<string, nat>,
                  now: string, j: nat, created: seq<Alert>) returns (created': seq<Alert>)
    requires j < |order| && order[j] in counts && counts[order[j]] == tally[order[j]]
    requires created == Raised(base, order[..j], tally, now)
    ensures created' == Raised(base, order[..j + 1], tally, now)
  {
    var kind := order[j];
    var count := counts[kind];
    RaisedStep(base, order, tally, now, j, count);
    created' := created;
    if count > Threshold(kind) {
      created' := created + [MakeAlert(base + |created| + 1, now, kind, count)];
    }
  }

  /** The second loop of check_thresholds: one alert per category over its
      threshold, numbered on from `base` (len(self.alerts)). */
  method RaiseAlerts(base: int, ghost tally: multiset<string>, order: seq<string>, counts: map<string, nat>,
                     now: string) returns (created: seq<Alert>)
    requires forall k :: k in order ==> k in counts && counts[k] == tally[k]
    ensures created == Raised(base, order, tally, now)
  {
    created := [];
    var j := 0;
    while j < |order|
      invariant 0 <= j <= |order|
      invariant created == Raised(base, order[..j], tally, now)
    {
      created := RaiseOne(base, tally, order, counts, now, j, created);
      j := j + 1;
    }
    assert order[..|order|] == order;
  }

  /** Both loops of check_thresholds, for a store holding `base` alerts. */
  method ThresholdAlerts(base: int, posts: seq<Post>, now: string) returns (created: seq<Alert>)
    ensures created == NewAlerts(base, posts, now)
  {
    var counts, order := CountIncidents(posts);
    forall k | k in order ensures k in counts && counts[k] == multiset(Kinds(posts))[k] {
      CountsAgreeAt(Kinds(posts), counts, order, k);
    }
    created := RaiseAlerts(base, multiset(Kinds(posts)), order, counts, now);
  }

  class AlertRule {
    /** `self.alerts`. */
    var alerts: seq<Alert>
    /** The list as save_alerts last wrote it to alerts.json. After a load
        that found no file, or a file that did not parse, it is the empty
        list, although nothing was written and alerts.json keeps whatever
        it held until the next save. */
    var saved: seq<Alert>

    /** Ids 1..n in order and every record consistent; kept by every method below. */
    ghost predicate Valid()
      reads this
    {
      StoreValid(alerts)
    }

    /** __init__ with load_alerts: `stored` is what alerts.json holds, None
        when the file is missing or does not parse. */
    constructor (stored: Option<seq<Alert>>)
      ensures alerts == (if stored.Some? then stored.value else [])
      ensures saved == alerts
      ensures Valid() <==> stored.None? || StoreValid(stored.value)
    {
      alerts := if stored.Some? then stored.value else [];
      saved := alerts;
    }

    /** check_thresholds: count the categories of the batch in first-seen
        order, raise an alert for each one over its threshold, append them
        and save when there are any. */
    method CheckThresholds(posts: seq<Post>, now: string) returns (created: seq<Alert>)
      modifies this
      ensures created == NewAlerts(|old(alerts)|, posts, now)
      ensures alerts == old(alerts) + created
      ensures saved == if created == [] then old(saved) else alerts
      ensures old(Valid()) ==> Valid()
    {
      created := ThresholdAlerts(|alerts|, posts, now);
      ghost var valid := StoreValid(alerts);
      if valid {
        AppendKeepsIdsContiguous(alerts, posts, now);
        AppendKeepsRecordsConsistent(alerts, posts, now);
      }
      if created != [] {
        alerts := alerts + created;
        saved := alerts;
      }
    }

    /** The loop shared by mark_alert_as_read and dismiss_alert: flag the
        first alert with the id, save, and report whether there was one. */
    method SetFlag(id: int, f: Flag) returns (found: bool)
      modifies this
      ensures found <==> FindId(old(alerts), id).Some?
      ensures alerts == WithFlag(old(alerts), id, f)
      ensures saved == if found then alerts else old(saved)
      ensures old(Valid()) ==> Valid()
    {
      var i := 0;
      while i < |alerts|
        invariant 0 <= i <= |alerts|
        invariant forall j :: 0 <= j < i ==> alerts[j].id != id
      {
        if alerts[i].id == id {
          alerts := alerts[i := Flagged(alerts[i], f)];
          saved := alerts;
          return true;
        }
        i := i + 1;
      }
      return false;
    }

    /** mark_alert_as_read. */
    method MarkAlertAsRead(id: int) returns (found: bool)
      modifies this
      ensures found <==> FindId(old(alerts), id).Some?
      ensures alerts == WithFlag(old(alerts), id, MarkRead)
      ensures saved == if found then alerts else old(saved)
      ensures old(Valid()) ==> Valid()
    {
      found := SetFlag(id, MarkRead);
    }

    /** dismiss_alert. */
    method DismissAlert(id: int) returns (found: bool)
      modifies this
      ensures found <==> FindId(old(alerts), id).Some?
      ensures alerts == WithFlag(old(alerts), id, Dismiss)
      ensures saved == if found then alerts else old(saved)
      ensures old(Valid()) ==> Valid()
    {
      found := SetFlag(id, Dismiss);
    }

    /** get_recent_alerts, with Python's default `limit=10`. */
    function GetRecentAlerts(limit: int := 10): (r: seq<Alert>)
      reads this
      ensures limit >= 0 ==> |r| == if limit < |alerts| then limit else |alerts|
      ensures limit < 0 ==> |r| == if |alerts| + limit > 0 then |alerts| + limit else 0
      ensures multiset(r) <= multiset(alerts)
      ensures NewestFirst(r)
      ensures forall i, a :: 0 <= i < |r| && a in multiset(alerts) - multiset(r) ==>
        !LexLess(r[i].timestamp, a.timestamp)
    {
      Recent(alerts, limit)
    }

    /** get_active_alerts. */
    function GetActiveAlerts(): (r: seq<Alert>)
      reads this
      ensures forall a :: a in r <==> a in alerts && a.status == Active
      ensures |r| == |ActiveIndices(alerts)|
    {
      ActiveCount(alerts);
      ActiveOf(alerts)
    }

    /** get_alert_statistics: the active and total counts and the count of
        each severity that occurs. */
    method GetAlertStatistics() returns (stats: Statistics)
      ensures stats.activeCount == |ActiveOf(alerts)|
      ensures stats.totalCount == |alerts|
      ensures stats.bySeverity == BySeverity(alerts)
    {
      var activeCount := |GetActiveAlerts()|;
      var totalCount := |alerts|;
      var bySeverity: map<AlertSeverity, nat> := map[];
      var i := 0;
      while i < |alerts|
        invariant 0 <= i <= |alerts|
        invariant bySeverity == BySeverity(alerts[..i])
      {
        var v := alerts[i].severity;
        BySeverityStep(alerts, i);
        bySeverity := bySeverity[v := if v in bySeverity then bySeverity[v] + 1 else 1];
        i := i + 1;
      }
      assert alerts[..|alerts|] == alerts;
      stats := Statistics(activeCount, totalCount, bySeverity);
    }
  }
}
