# Cyber threat monitoring crawler, modelled in Dafny

The crawler reads new submissions of the r/cybersecurity subreddit. It keeps
those whose lower-cased title holds a keyword of a fixed list, and rates each
kept post HIGH, MEDIUM or LOW with an ordered keyword search. Over a batch of
kept posts, a threshold engine counts incident categories. Whenever a
category occurs more often than its rule allows, it raises an alert. The
alerts live in a store that web requests query and flag. This project models
four pieces:

- `Vocabulary`, `Severity` and `Feed` are the keyword tables, the two
  variants of `detect_severity`, and the filter-and-number loop of
  `fetch_posts`.
  - In app.py and Cyber-Blogs-Crawler-main/app.py, `detect_severity`
    lower-cases each keyword.
  - In scrapper.py it compares the keywords as written.
  - Cyber-Blogs-Crawler-main/app.py repeats app.py's tables,
    `detect_severity` (its lines 56-74) and loop (its lines 80-104), minus
    the alert call.
- `Alerts` is class `AlertRule` of Cyber-Blogs-Crawler-main/alerts.py:
  - `categorize_incident` and `calculate_severity`;
  - both loops of `check_thresholds`;
  - the alert store with its lookups, its two one-way flags, the recent and
    active queries, and the statistics.
  - `self.alerts` is a `seq<Alert>` field.
  - What `save_alerts` last wrote is the `saved` field.
- `Scraper` is the `while True` body of scrapper.py. `seen_posts` and
  `count` are the fields of a `Scraper` object, and each poll cycle is a
  method over the batch the listing yields.
- `WebApp` is the `/fetch_posts` route of app.py: the numbering loop, then
  `check_thresholds` on the posts it built.

Python's `str.lower()` is modelled as a character-wise ASCII `ToLower`. `in`
on strings is modelled as `Contains`, a contiguous occurrence. A dict's
iteration order is the order of first insertion.

Most functions are paired with reference descriptions:
- the loops (`CollectPosts`, `CountIncidents`, `RaiseAlerts`, `PollCycle`) are
  proved equal to recursive functions;
- those functions have their own characterisations: membership, the first
  match, the threshold test, fresh ids and numbering.

## Model

| member | source | states |
|---|---|---|
| Common.ToLower | app.py:59 | lower-casing keeps the length, maps each upper-case letter to the letter 32 code points above it, leaves no upper-case letter and keeps every other character |
| Common.ToUpper | Cyber-Blogs-Crawler-main/alerts.py:87 | upper-casing keeps the length, maps each lower-case letter to the letter 32 code points below it, leaves no lower-case letter and keeps every other character |
| Common.LowerAll | app.py:62-70 | each `keyword.lower()` keeps its position and is the lower-casing of that keyword: it holds no upper-case letter, and equals the keyword when that has none |
| Common.ToLowerIdempotent | app.py:59 | lower-casing twice is lower-casing once |
| Common.UpperNeverInLowered | app.py:89-90 | a string holding an upper-case letter never occurs in a lower-cased title |
| Common.FirstContained | app.py:62-65 | the position found holds a contained keyword and no earlier keyword is contained; none is found exactly when no keyword is contained |
| Common.Contains | app.py:90 | Python's `k in title`: a contained string is no longer than the text, and the empty string is contained in every text |
| Common.NatToString | app.py:95 | the count printed in an f-string: at least one character, all decimal digits, with a leading '0' only for zero |
| Common.DecimalValueOfNatToString | app.py:95 | the number printed in an f-string reads back as itself |
| Common.LexLess | Cyber-Blogs-Crawler-main/alerts.py:127 | Python's `<` on the timestamp strings that `sorted` compares: a string is never before itself |
| Common.NatToStringInjective | app.py:95 | distinct counts print as distinct numbers |
| Severity.DetectSeverity | app.py:57-75 | HIGH iff a lower-cased HIGH keyword occurs in the lower-cased title; MEDIUM iff none does and a lower-cased MEDIUM keyword occurs; LOW, the remaining level, iff neither does |
| Severity.SeverityDependsOnlyOnLowered | app.py:59 | both variants give a title and its lower-cased form the same rating |
| Severity.DetectSeverityCaseSensitive | scrapper.py:51-66 | the same iffs with the keywords as written |
| Severity.RawMatchImpliesLoweredMatch | scrapper.py:56-57 | a keyword found as written is also found lower-cased |
| Severity.CaseSensitiveNeverAbove | scrapper.py:56-63 | scrapper.py never rates a title above app.py |
| Severity.CaseSensitiveIgnoresUpperCaseKeywords | scrapper.py:36-44 | in scrapper.py a HIGH rating comes from neither "APT" nor "RCE", and a MEDIUM rating never from "CVE" |
| Severity.CveTitleExample | scrapper.py:53-66 | "New CVE found" is MEDIUM for app.py and LOW for scrapper.py |
| Feed.KeywordsIn | app.py:90 | the comprehension keeps no more entries than there are listed keywords, and each kept one is listed and contained in the text |
| Feed.FoundKeywords | app.py:89-90 | `found_keywords` has no more entries than `keywords`; its members are those of KeywordsInMembers |
| Feed.KeywordsInMembers | app.py:90 | `found_keywords` holds exactly the listed keywords contained in the lower-cased title |
| Feed.KeywordsInConcat | Cyber-Blogs-Crawler-main/app.py:89 | filtering a concatenated list filters each part in turn, so list order is kept |
| Feed.FoundKeywordsAreLowerCase | app.py:29-39 | every found keyword is listed and has no upper-case letter, so "APT", "OSINT", "CVE", "API security", "DevSecOps", "DLP" and "SSL/TLS" are never found |
| Feed.Relevant | app.py:89-91 | the test `if found_keywords:` (the same test as scrapper.py:78-80) holds only when some listed keyword occurs in the lower-cased title |
| Feed.RelevantIff | app.py:89-91 | a submission is kept iff some keyword is contained in its lower-cased title |
| Feed.Relevants | app.py:88-91 | no more kept submissions than submissions, and every kept one has a found keyword |
| Feed.RelevantsMembers | Cyber-Blogs-Crawler-main/app.py:87-90 | the kept submissions are exactly the relevant submissions of the feed |
| Feed.RelevantsConcat | Cyber-Blogs-Crawler-main/app.py:87-100 | the kept submissions of a concatenated feed are the kept ones of each part, in feed order |
| Feed.Numbered | app.py:92-100 | the `post_data` record keeps the submission's url and score, its keywords are the found keywords of the title and its severity is app.py's `detect_severity` of the title as written, it has keywords exactly when the submission is relevant, and its title is as long as the number, ". " and the title |
| Feed.NumberedTitleReadsBack | app.py:95 | a post's title is its number, ". " and the submission's title, and the number reads back |
| Feed.NumberAll | app.py:92-101 | one post per kept submission; post i is given by NumberAllAt |
| Feed.NumberAllAt | app.py:93-101 | post i is kept submission i, numbered i + 1, with its keywords and its app.py severity |
| Feed.CollectStep | app.py:91-101 | one more submission appends one post, numbered after the kept ones, exactly when it is relevant |
| Feed.VisitSubmission | app.py:88-102 | one loop pass turns the posts and count of a feed prefix into those of the next prefix |
| Feed.CollectPosts | Cyber-Blogs-Crawler-main/app.py:80-104 | the response holds every relevant submission in feed order, numbered from 1, and `count` ends as the number of posts |
| WebApp.FetchPosts | app.py:81-109 | the posts are those of the numbering loop; the alerts returned are exactly the ones check_thresholds appends to the store, which is saved when there are any |
| Alerts.Threshold | Cyber-Blogs-Crawler-main/alerts.py:79 | a category with a rule gets that rule's value, one without a rule the default 20; every threshold lies between 3 and 20 |
| Alerts.FirstCategory | Cyber-Blogs-Crawler-main/alerts.py:57-60 | the category found has a contained keyword and no earlier category has one; none is found iff no category has one |
| Alerts.CategoryNames | Cyber-Blogs-Crawler-main/alerts.py:14-36 | every category of the incident map has a rule and none is named "general" |
| Alerts.Categorize | Cyber-Blogs-Crawler-main/alerts.py:54-61 | the category is "general" or a key of the rules |
| Alerts.CategorizeIsFirstMatch | Cyber-Blogs-Crawler-main/alerts.py:54-61 | "general" iff no category matches the lower-cased title; otherwise the first matching category in declaration order |
| Alerts.CategorizeRange | Cyber-Blogs-Crawler-main/alerts.py:61 | the result is "general" or a key of the rules, and its threshold is 20 iff it is "general" |
| Alerts.RulesBelowDefault | Cyber-Blogs-Crawler-main/alerts.py:79 | every rule is below the default 20, and "general" has no rule |
| Alerts.CategoryHitIsLowerCase | Cyber-Blogs-Crawler-main/alerts.py:32-35 | a category is always reached through one of its keywords without upper-case letters, never through 'RCE', 'APT' or 'CVE' |
| Alerts.CveTitleIsGeneral | Cyber-Blogs-Crawler-main/alerts.py:56-59 | "New CVE found", whose only candidate hit is 'CVE', is "general" |
| Alerts.CalculateSeverity | Cyber-Blogs-Crawler-main/alerts.py:103-123 | CRITICAL iff a ransomware, data_breach, zero-day or apt count is above 5 or a malware or exploit count above 15; MEDIUM iff the count is at most 3, 10 or 20 by group; HIGH otherwise |
| Alerts.SeverityMonotone | Cyber-Blogs-Crawler-main/alerts.py:103-123 | more posts never give a lower severity |
| Alerts.FiredSeverity | Cyber-Blogs-Crawler-main/alerts.py:79-85 | once over its threshold, a ransomware or data_breach alert is CRITICAL, a zero-day, apt or malware alert at least HIGH, and a "general" alert HIGH |
| Alerts.Message | Cyber-Blogs-Crawler-main/alerts.py:87 | the message starts with the alarm prefix and ends with ")" |
| Alerts.MakeAlert | Cyber-Blogs-Crawler-main/alerts.py:82-92 | a new record is active and unread, of the given category and count |
| Alerts.MessageReadsBack | Cyber-Blogs-Crawler-main/alerts.py:87 | the message is the prefix, then the count (reading back as the count), a space and the upper-cased category |
| Alerts.MessageEndsWithThreshold | Cyber-Blogs-Crawler-main/alerts.py:87 | the message ends with the threshold (reading back as the threshold) and ")" |
| Alerts.Kinds | Cyber-Blogs-Crawler-main/alerts.py:72-73 | one category per post of the batch; entry i is given by KindsAt |
| Alerts.KindsAt | Cyber-Blogs-Crawler-main/alerts.py:72-73 | entry i of the category list is the category of post i |
| Alerts.FirstSeen | Cyber-Blogs-Crawler-main/alerts.py:70-74 | the keys of `incident_counts`: each category of the batch once, and nothing else |
| Alerts.CountsCoverBatch | Cyber-Blogs-Crawler-main/alerts.py:72-74 | the per-category counts add up to the number of posts |
| Alerts.Raised | Cyber-Blogs-Crawler-main/alerts.py:78-93 | no more alerts than categories walked; RaisedAt, RaisedCovers and RaisedDistinct characterise them |
| Alerts.RaisedAt | Cyber-Blogs-Crawler-main/alerts.py:78-93 | every raised alert belongs to a listed category over its threshold and is that category's record, numbered consecutively after the store |
| Alerts.RaisedCovers | Cyber-Blogs-Crawler-main/alerts.py:78-81 | every listed category over its threshold gets an alert |
| Alerts.RaisedDistinct | Cyber-Blogs-Crawler-main/alerts.py:78 | with no category listed twice, no category gets two alerts |
| Alerts.NewAlerts | Cyber-Blogs-Crawler-main/alerts.py:63-101 | no more alerts than posts in the batch |
| Alerts.NewAlertsAreRecords | Cyber-Blogs-Crawler-main/alerts.py:82-93 | new alert i has id len + i + 1, the call's timestamp, active and unread status, the batch count of its category above its threshold, the severity of calculate_severity and the message built from them |
| Alerts.NewAlertsExactlyOverThreshold | Cyber-Blogs-Crawler-main/alerts.py:72-81 | a category gets an alert iff its batch count is strictly above its threshold, so exactly the threshold raises none |
| Alerts.NewAlertsOnePerKind | Cyber-Blogs-Crawler-main/alerts.py:76-93 | no two new alerts share a category |
| Alerts.CountIncidents | Cyber-Blogs-Crawler-main/alerts.py:70-74 | the loop leaves each category's count in the batch, with the keys in first-seen order |
| Alerts.CountOne | Cyber-Blogs-Crawler-main/alerts.py:72-74 | one pass of the first loop keeps the dict equal to the counts of the categories seen so far, keys in first-seen order |
| Alerts.RaisedStep | Cyber-Blogs-Crawler-main/alerts.py:78-93 | one more category appends its alert exactly when its count is above its threshold |
| Alerts.RaiseOne | Cyber-Blogs-Crawler-main/alerts.py:78-93 | one pass of the second loop extends the alerts built so far to those of one more category |
| Alerts.RaiseAlerts | Cyber-Blogs-Crawler-main/alerts.py:76-93 | the second loop builds exactly the raised alerts of the categories in dict order |
| Alerts.ThresholdAlerts | Cyber-Blogs-Crawler-main/alerts.py:63-93 | both loops together give exactly the new alerts of the batch |
| Alerts.AppendKeepsRecordsConsistent | Cyber-Blogs-Crawler-main/alerts.py:82-92 | appending a batch's new alerts to a store whose records are consistent (threshold of the category, count above it, severity from calculate_severity) keeps every record consistent |
| Alerts.AppendKeepsIdsContiguous | Cyber-Blogs-Crawler-main/alerts.py:83 | appending the new alerts to a store with ids 1..n gives ids 1..n+k |
| Alerts.FindId | Cyber-Blogs-Crawler-main/alerts.py:135-136 | the position found holds the id and no earlier alert has it; none is found iff no alert has it |
| Alerts.FindIdContiguous | Cyber-Blogs-Crawler-main/alerts.py:83 | with ids 1..n, id k is at position k - 1 exactly when 1 <= k <= n |
| Alerts.Flagged | Cyber-Blogs-Crawler-main/alerts.py:137-146 | the in-place update changes only the flag: read becomes true for a read request, status becomes dismissed for a dismiss request, every other field is kept |
| Alerts.WithFlag | Cyber-Blogs-Crawler-main/alerts.py:133-149 | the store keeps its length, and every position keeps its id and category |
| Alerts.WithFlagChangesOneAlert | Cyber-Blogs-Crawler-main/alerts.py:133-149 | only the first alert with the id changes, and only its read flag or its status; with no such alert nothing changes |
| Alerts.WithFlagMonotone | Cyber-Blogs-Crawler-main/alerts.py:137-146 | read never goes back to false, dismissed never back to active, and ids stay in place |
| Alerts.WithFlagKeepsLookups | Cyber-Blogs-Crawler-main/alerts.py:135-140 | after flagging, every id is found where it was before |
| Alerts.WithFlagKeepsConsistent | Cyber-Blogs-Crawler-main/alerts.py:137-146 | flagging an alert keeps every record consistent |
| Alerts.WithFlagIdempotent | Cyber-Blogs-Crawler-main/alerts.py:142-149 | repeating a request leaves the store as the first one left it |
| Alerts.ActiveOf | Cyber-Blogs-Crawler-main/alerts.py:129-131 | the active alerts are exactly the store's alerts with status active, no more of them than alerts |
| Alerts.ActiveOfInStoreOrder | Cyber-Blogs-Crawler-main/alerts.py:129-131 | the result is the store's alerts at increasing positions, and those positions are exactly the ones with status active |
| Alerts.ActiveCount | Cyber-Blogs-Crawler-main/alerts.py:129-131 | the result has one entry per active alert of the store |
| Alerts.BySeverity | Cyber-Blogs-Crawler-main/alerts.py:157-164 | `dict(severity_count)` has a key exactly for each severity some alert has, holding the number of alerts of that severity |
| Alerts.TalliesAddUp | Cyber-Blogs-Crawler-main/alerts.py:157-159 | the counts of the three severities add up to the number of alerts |
| Alerts.TallyWitness | Cyber-Blogs-Crawler-main/alerts.py:158-159 | a severity has a positive count iff some alert has it |
| Alerts.StatisticsConsistent | Cyber-Blogs-Crawler-main/alerts.py:151-165 | active_count is the number of active alerts and at most total_count; every by_severity entry is positive, and the entries add up to total_count |
| Alerts.BySeverityStep | Cyber-Blogs-Crawler-main/alerts.py:158-159 | one more alert adds one to its severity's entry, creating it at 1 |
| Alerts.InsertNewest | Cyber-Blogs-Crawler-main/alerts.py:127 | insertion adds the alert and loses none |
| Alerts.SortNewestFirst | Cyber-Blogs-Crawler-main/alerts.py:127 | the sort is a permutation of the store |
| Alerts.SortIsNewestFirst | Cyber-Blogs-Crawler-main/alerts.py:127 | the sort orders by timestamp, newest first |
| Alerts.SortIsStable | Cyber-Blogs-Crawler-main/alerts.py:127 | alerts with equal timestamps stay in store order |
| Alerts.Head | Cyber-Blogs-Crawler-main/alerts.py:127 | `[:limit]` is a prefix of min(limit, len) alerts, or of len + limit for a negative limit |
| Alerts.Recent | Cyber-Blogs-Crawler-main/alerts.py:125-127 | alerts of the store, newest first, min(limit, len) of them for a non-negative limit and max(len + limit, 0) for a negative one (Python's `[:limit]`), and no alert left out is newer than one returned |
| Alerts.AlertRule.GetRecentAlerts | Cyber-Blogs-Crawler-main/alerts.py:125-127 | with a limit of 10 by default: min(limit, len) alerts for a non-negative limit and max(len + limit, 0) for a negative one, all from the store, newest first, and no alert left out is newer than one returned |
| Alerts.AlertRule.GetActiveAlerts | Cyber-Blogs-Crawler-main/alerts.py:129-131 | exactly the stored alerts with status active, one entry per active alert |
| Alerts.AlertRule.constructor | Cyber-Blogs-Crawler-main/alerts.py:38-47 | the store is what alerts.json held, or empty when the file is missing or unreadable; the store invariant holds exactly when nothing was loaded or the loaded list satisfies it |
| Alerts.AlertRule.CheckThresholds | Cyber-Blogs-Crawler-main/alerts.py:63-101 | returns the new alerts of the batch, appends them to the store, saves only when there are any, and keeps the store invariant: ids 1..n, and every record consistent |
| Alerts.AlertRule.SetFlag | Cyber-Blogs-Crawler-main/alerts.py:135-140 | true iff some alert has the id; the store becomes the flagged list and is saved only then; the store invariant is kept |
| Alerts.AlertRule.MarkAlertAsRead | Cyber-Blogs-Crawler-main/alerts.py:133-140 | marks the first alert with the id read, and reports whether there was one |
| Alerts.AlertRule.DismissAlert | Cyber-Blogs-Crawler-main/alerts.py:142-149 | dismisses the first alert with the id, and reports whether there was one |
| Alerts.AlertRule.GetAlertStatistics | Cyber-Blogs-Crawler-main/alerts.py:151-165 | the active count, the total and the per-severity counts of the store |
| Scraper.Report.Keywords | scrapper.py:78-86 | the printed keywords are listed keywords without upper-case letters |
| Scraper.Report.Rating | scrapper.py:79-87 | the printed severity is never above the rating app.py gives the same title |
| Scraper.Visit | scrapper.py:74-82 | the submission's id ends up seen, and a submission already seen changes nothing |
| Scraper.Run | scrapper.py:73-88 | `seen_posts` only grows, `count` grows by at most the batch size and by exactly the number of new reports, and earlier reports are kept |
| Scraper.RunIsExpected | scrapper.py:73-88 | a pass marks every id of the batch seen and reports the new relevant submissions, numbered on from the old count |
| Scraper.FreshAreNew | scrapper.py:74-76 | the submissions a pass does not skip are from the batch, with ids not seen before and all distinct |
| Scraper.FreshIdsAreNewIds | scrapper.py:74-76 | the ids a pass does not skip are exactly the batch's ids that were not seen before |
| Scraper.SeenAfterPass | scrapper.py:74-76 | afterwards `seen_posts` is the old set plus every visited id, so it only grows |
| Scraper.CountAfterPass | scrapper.py:79-83 | `count` grows by exactly the number of reports, which are numbered count + 1, count + 2, ... |
| Scraper.SeenIsSkipped | scrapper.py:74-75 | a submission whose id was seen before is never reported |
| Scraper.ReportsAreFreshAndRelevant | scrapper.py:74-82 | every report is a submission of the batch with an unseen id and a found keyword |
| Scraper.LaterPassRepeatsNothing | scrapper.py:67-76 | a later cycle reports no id an earlier cycle visited |
| Scraper.PassesCompose | scrapper.py:69-73 | two cycles are one cycle over both listings |
| Scraper.Scraper.constructor | scrapper.py:67-68 | `seen_posts` starts empty and `count` at 0 |
| Scraper.Scraper.VisitOne | scrapper.py:74-82 | one submission of the loop body changes `seen_posts`, `count` and the reports as Visit does |
| Scraper.Scraper.PollCycle | scrapper.py:73-88 | one cycle leaves `seen_posts`, `count` and its reports as a pass over the batch |

## Left out

- Unicode: `str.lower()` and `str.upper()` are modelled on ASCII letters only. Python also maps other cased letters.
- Reddit access: `praw.Reddit`, `subreddit.new(limit=...)` and the list limits. A feed is an input sequence of (id, title, url, score) records.
- Exceptions and retries: the exception handlers and `time.sleep(60)` of scrapper.py. A listing cut short by an exception is modelled as the prefix it yielded before the exception.
- alerts.json: the file I/O of `load_alerts` and `save_alerts`. A save is the `saved` snapshot field. A load is a parameter of the constructor: absent when the file is missing or does not parse. After such a failed load `saved` starts as the empty list by convention, although nothing was written and alerts.json keeps its old content until the next save. The stored records' JSON types are assumed to be well-formed alerts.
- `datetime.now()`: the timestamp is a string parameter. Its `isoformat` text is compared as Python compares strings. `one_hour_ago` is computed but never used, so it is not modelled.
- Flask: the routes that only forward to the store (`/api/alerts`, `/api/alerts/active`, `/api/alerts/stats`, and the read and dismiss routes) are not modelled, nor is their JSON. Their logic is the corresponding `AlertRule` member.
- Printing: every `print`, including the keyword join and the severity lines of scrapper.py. `Scraper.Report` keeps a reported post's number and submission. Its `Keywords()` and `Rating()` give the printed keyword list and severity.
- `LOW_SEVERITY` is declared by every copy and consulted by none, as in the source.
- `post.get('title', '')`: posts always carry a title here. The records are the ones `fetch_posts` builds.
- Concurrency: the global `alert_manager` singleton and the interleaving of web requests.
- The environment: `.env`, the printed credentials and `app.run`.
