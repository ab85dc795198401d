/** The post severity classifier `detect_severity`. app.py and
    Cyber-Blogs-Crawler-main/app.py lower-case every keyword before the test;
    scrapper.py compares the keywords exactly as written. */
module Severity {
  import opened Common
  import opened Vocabulary

  datatype Level = Low | Medium | High

  function Rank(l: Level): nat {
    match l
    case Low => 0
    case Medium => 1
    case High => 2
  }

  /** detect_severity of app.py and of Cyber-Blogs-Crawler-main/app.py: the
      HIGH list is searched first, then the MEDIUM list, each keyword
      lower-cased, against the lower-cased title. */
  function DetectSeverity(title: string): (r: Level)
    ensures r == High <==> AnyContained(ToLower(title), LowerAll(HIGH_SEVERITY))
    ensures r == Medium <==>
      !AnyContained(ToLower(title), LowerAll(HIGH_SEVERITY)) &&
      AnyContained(ToLower(title), LowerAll(MEDIUM_SEVERITY))
  {
    var text := ToLower(title);
    if FirstContained(text, LowerAll(HIGH_SEVERITY)).Some? then High
    else if FirstContained(text, LowerAll(MEDIUM_SEVERITY)).Some? then Medium
    else Low
  }

  /** detect_severity of scrapper.py: the same ordered search, but the
      keywords are compared as written against the lower-cased title. */
  function DetectSeverityCaseSensitive(title: string): (r: Level)
    ensures r == High <==> AnyContained(ToLower(title), HIGH_SEVERITY)
    ensures r == Medium <==>
      !AnyContained(ToLower(title), HIGH_SEVERITY) &&
      AnyContained(ToLower(title), MEDIUM_SEVERITY)
  {
    var text := ToLower(title);
    if FirstContained(text, HIGH_SEVERITY).Some? then High
    else if FirstContained(text, MEDIUM_SEVERITY).Some? then Medium
    else Low
  }

  /** Both classifiers see the title only through its lower-cased form. */
  lemma SeverityDependsOnlyOnLowered(title: string)
    ensures DetectSeverity(ToLower(title)) == DetectSeverity(title)
    ensures DetectSeverityCaseSensitive(ToLower(title)) == DetectSeverityCaseSensitive(title)
  {
    ToLowerIdempotent(title);
  }

  /** A raw keyword found in a lower-cased text is found by its lower-cased
      form too, so over any keyword list the case-sensitive search finds
      nothing the lower-casing search misses. */
  lemma RawMatchImpliesLoweredMatch(text: string, keywords: seq<string>)
    requires AnyContained(ToLower(text), keywords)
    ensures AnyContained(ToLower(text), LowerAll(keywords))
  {
    var i :| 0 <= i < |keywords| && Contains(ToLower(text), keywords[i]);
    if HasUpper(keywords[i]) {
      UpperNeverInLowered(text, keywords[i]);
    }
    assert LowerAll(keywords)[i] == keywords[i];
  }

  /** scrapper.py never rates a title above what app.py rates it. */
  lemma CaseSensitiveNeverAbove(title: string)
    ensures Rank(DetectSeverityCaseSensitive(title)) <= Rank(DetectSeverity(title))
  {
    if AnyContained(ToLower(title), HIGH_SEVERITY) {
      RawMatchImpliesLoweredMatch(title, HIGH_SEVERITY);
    }
    if AnyContained(ToLower(title), MEDIUM_SEVERITY) {
      RawMatchImpliesLoweredMatch(title, MEDIUM_SEVERITY);
    }
  }

  /** In scrapper.py "APT" (position 2) and "RCE" (position 6) can never give
      HIGH, and "CVE" (position 1 of the MEDIUM list) can never give MEDIUM. */
  lemma CaseSensitiveIgnoresUpperCaseKeywords(title: string)
    ensures DetectSeverityCaseSensitive(title) == High ==>
      exists i :: 0 <= i < |HIGH_SEVERITY| && i != 2 && i != 6 &&
        Contains(ToLower(title), HIGH_SEVERITY[i])
    ensures DetectSeverityCaseSensitive(title) == Medium ==>
      exists i :: 0 <= i < |MEDIUM_SEVERITY| && i != 1 &&
        Contains(ToLower(title), MEDIUM_SEVERITY[i])
  {
    assert IsUpper(HIGH_SEVERITY[2][0]) && IsUpper(HIGH_SEVERITY[6][0]);
    assert IsUpper(MEDIUM_SEVERITY[1][0]);
    UpperNeverInLowered(title, HIGH_SEVERITY[2]);
    UpperNeverInLowered(title, HIGH_SEVERITY[6]);
    UpperNeverInLowered(title, MEDIUM_SEVERITY[1]);
  }

  /** A text lacking the lower-cased form of one character of `k` cannot
      contain `k` lower-cased. */
  lemma AbsentLoweredChar(text: string, k: string, j: nat)
    requires j < |k| && ToLowerChar(k[j]) !in text
    ensures !Contains(text, ToLower(k))
  {
    AbsentCharAt(text, ToLower(k), j);
  }

  /** "new cve found" lacks a character of every HIGH keyword, as written
      and lower-cased; `p` is its position in the keyword. */
  lemma CveTitleNotHigh(text: string)
    requires text == "new cve found"
    ensures !AnyContained(text, HIGH_SEVERITY)
    ensures !AnyContained(text, LowerAll(HIGH_SEVERITY))
  {
    forall i | 0 <= i < |HIGH_SEVERITY| ensures !Contains(text, HIGH_SEVERITY[i]) {
      AbsentCharAt(text, HIGH_SEVERITY[i], HighGap(i));
    }
    CveTitleNotLoweredHigh(text);
  }

  /** The position, in the i-th HIGH keyword, of a character "new cve found" lacks. */
  function HighGap(i: int): nat {
    if i == 1 || i == 4 || i == 5 then 1 else if i == 7 then 2 else 0
  }

  lemma CveTitleNotLoweredHigh(text: string)
    requires text == "new cve found"
    ensures !AnyContained(text, LowerAll(HIGH_SEVERITY))
  {
    var l := LowerAll(HIGH_SEVERITY);
    forall i | 0 <= i < |l| ensures !Contains(text, l[i]) {
      CveTitleNotLoweredHighAt(text, i);
    }
  }

  lemma CveTitleNotLoweredHighAt(text: string, i: int)
    requires text == "new cve found" && 0 <= i < |HIGH_SEVERITY|
    ensures !Contains(text, ToLower(HIGH_SEVERITY[i]))
  {
    AbsentLoweredChar(text, HIGH_SEVERITY[i], HighGap(i));
  }

  lemma CveTitleNoRawMedium(text: string)
    requires text == "new cve found"
    ensures !AnyContained(text, MEDIUM_SEVERITY)
  {
    forall i | 0 <= i < |MEDIUM_SEVERITY| ensures !Contains(text, MEDIUM_SEVERITY[i]) {
      var p := if i == 0 || i == 7 then 2 else if i == 6 then 1 else 0;
      AbsentCharAt(text, MEDIUM_SEVERITY[i], p);
    }
  }

  lemma CveTitleLowered()
    ensures ToLower("New CVE found") == "new cve found"
  {
  }

  /** "New CVE found": app.py rates it MEDIUM through "cve", scrapper.py
      rates it LOW because "CVE" never occurs in a lower-cased title. */
  lemma CveTitleExample()
    ensures DetectSeverity("New CVE found") == Medium
    ensures DetectSeverityCaseSensitive("New CVE found") == Low
  {
    var text := ToLower("New CVE found");
    CveTitleLowered();
    var l := LowerAll(MEDIUM_SEVERITY);
    assert l[1] == ToLower("CVE") == "cve";
    assert OccursAt(text, l[1], 4);
    CveTitleNotHigh(text);
    CveTitleNoRawMedium(text);
  }
}
