/** The content scorer of the command-line tool: a length bucket, the share of a fixed vocabulary of
    "valuable" terms, the share of external links and the share of matched interests, blended into a
    content score and an overall score. Scores are exact rationals; the HTML parse of an article body
    (entity unescaping and the document's text and anchors) is an input. */
module Analyzer {
  import opened Wrappers
  import opened Text
  import opened Seqs
  import opened Feed

  /** The terms whose presence marks valuable content. */
  const ValueKeywords: seq<string> := [
    "research", "study", "analysis", "guide", "tutorial",
    "introduction", "review", "comparison", "best practices",
    "how to", "explained", "deep dive", "architecture",
    "performance", "security", "scalability"]

  /** A parsed article body: its text and the href of each anchor (None when it has none). */
  datatype Document = Document(text: string, hrefs: seq<Option<string>>)

  datatype ArticleScore = ArticleScore(article: Article, score: real, interestScore: real, contentScore: real)

  /** What opening and scanning the interests file produced. */
  datatype InterestsFile = OpenFailed(message: string) | Scanned(lines: seq<string>, scanError: Option<string>)

  // ---------------------------------------------------------------------------
  // Interests

  predicate NonEmpty(s: string) { s != "" }

  /** The interests of a file: its trimmed lines that are not empty, in file order. */
  function Interests(lines: seq<string>): (r: seq<string>) {
    Filter(Map(TrimSpace, lines), NonEmpty)
  }

  /** Every interest is a non-empty trimmed line of the file, and every line that is not blank
      contributes its trimmed text. */
  lemma InterestsSpec(lines: seq<string>)
    ensures forall i :: 0 <= i < |Interests(lines)| ==>
              Interests(lines)[i] != "" && Interests(lines)[i] in Map(TrimSpace, lines)
    ensures forall j :: 0 <= j < |lines| && TrimSpace(lines[j]) != "" ==> TrimSpace(lines[j]) in Interests(lines)
    ensures |Interests(lines)| <= |lines|
  {
    FilterMembers(Map(TrimSpace, lines), NonEmpty);
    forall j | 0 <= j < |lines| && TrimSpace(lines[j]) != "" ensures TrimSpace(lines[j]) in Interests(lines) {
      FilterKeeps(Map(TrimSpace, lines), NonEmpty);
      assert Map(TrimSpace, lines)[j] == TrimSpace(lines[j]);
    }
  }

  class ContentAnalyzer {
    const valueKeywords: seq<string> := ValueKeywords
    var interests: seq<string>

    /** An analyzer with the fixed vocabulary and no interests. */
    constructor ()
      ensures interests == []
    {
      interests := [];
    }

    /** Appends the interests scanned from the file's lines. */
    method LoadInterests(lines: seq<string>)
      modifies this
      ensures interests == old(interests) + Interests(lines)
    {
      var found := ScanInterests(lines);
      interests := interests + found;
    }

    /** AnalyzeArticle with this analyzer's vocabulary and interests. */
    method AnalyzeArticle(article: Article, parse: string -> Result<Document>) returns (r: Result<ArticleScore>)
      ensures r == Analyze(interests, article, parse)
      ensures r.Ok? ==> 0.0 <= r.value.score <= 1.0 && r.value.article == article
    {
      ScoresBounded(interests, article, parse);
      r := Analyze(interests, article, parse);
    }
  }

  /** The scan loop: collects the trimmed, non-empty lines in order. */
  method ScanInterests(lines: seq<string>) returns (found: seq<string>)
    ensures found == Interests(lines)
  {
    found := [];
    var i := 0;
    while i < |lines|
      invariant 0 <= i <= |lines|
      invariant found == Interests(lines[..i])
    {
      InterestsStep(lines, i);
      var interest := TrimSpace(lines[i]);
      if interest != "" {
        found := found + [interest];
      }
      i := i + 1;
    }
    assert lines[..i] == lines;
  }

  lemma InterestsStep(lines: seq<string>, i: nat)
    requires i < |lines|
    ensures Interests(lines[..i + 1]) == Interests(lines[..i]) + (if TrimSpace(lines[i]) != "" then [TrimSpace(lines[i])] else [])
  {
    assert lines[..i + 1] == lines[..i] + [lines[i]];
    InterestsSnoc(lines[..i], lines[i]);
  }

  lemma InterestsSnoc(lines: seq<string>, line: string)
    ensures Interests(lines + [line]) == Interests(lines) + (if TrimSpace(line) != "" then [TrimSpace(line)] else [])
  {
    var trimmed := Map(TrimSpace, lines);
    var x := TrimSpace(line);
    MapConcat(TrimSpace, lines, [line]);
    assert Map(TrimSpace, [line]) == [x];
    FilterConcat(trimmed, [x], NonEmpty);
    assert Filter([x], NonEmpty) == (if x != "" then [x] else []) by {
      assert [x][1..] == [];
    }
  }

  /** NewContentAnalyzer: without an interests file there are no interests; an unreadable file is
      an error; otherwise the interests are the file's non-blank trimmed lines. */
  method NewContentAnalyzer(interestsFile: string, file: InterestsFile) returns (r: Result<ContentAnalyzer>)
    ensures interestsFile == "" ==> r.Ok? && fresh(r.value) && r.value.interests == []
    ensures interestsFile != "" && file.OpenFailed? ==> r == Err(file.message)
    ensures interestsFile != "" && file.Scanned? && file.scanError.Some? ==> r == Err(file.scanError.value)
    ensures interestsFile != "" && file.Scanned? && file.scanError.None? ==>
              r.Ok? && fresh(r.value) && r.value.interests == Interests(file.lines)
  {
    var analyzer := new ContentAnalyzer();
    if interestsFile != "" {
      match file {
        case OpenFailed(m) =>
          return Err(m);
        case Scanned(lines, scanError) =>
          analyzer.LoadInterests(lines);
          if scanError.Some? {
            return Err(scanError.value);
          }
      }
    }
    return Ok(analyzer);
  }

  // ---------------------------------------------------------------------------
  // Component scores

  /** The length bucket of a text of `runes` code points. */
  function LengthScore(runes: int): (r: real) {
    if runes > 2000 then 1.0
    else if runes > 1000 then 0.8
    else if runes > 500 then 0.6
    else if runes > 200 then 0.4
    else 0.2
  }

  /** Longer text never scores lower, and every bucket lies in 0.2..1. */
  lemma LengthScoreMonotone(m: int, n: int)
    requires m <= n
    ensures LengthScore(m) <= LengthScore(n)
    ensures 0.2 <= LengthScore(m) <= 1.0
  {
  }

  /** How many vocabulary terms occur, case-insensitively, in the text. */
  function KeywordCount(text: string): (n: nat)
    ensures n <= |ValueKeywords|
  {
    Count(ValueKeywords, (k: string) => Contains(ToLower(text), ToLower(k)))
  }

  function KeywordScore(text: string): (r: real) {
    KeywordCount(text) as real / |ValueKeywords| as real
  }

  predicate IsExternal(href: Option<string>) {
    href.Some? && HasPrefix(href.value, "http")
  }

  /** The share of anchors whose href starts with "http", or 0.5 for a text without anchors. */
  function LinkScore(hrefs: seq<Option<string>>): (r: real) {
    if |hrefs| == 0 then 0.5
    else Count(hrefs, IsExternal) as real / |hrefs| as real
  }

  /** How many words of an interest occur in the lower-cased text. */
  function WordMatches(interest: string, lowerText: string): nat {
    Count(Fields(ToLower(interest)), (w: string) => Contains(lowerText, w))
  }

  /** An interest matches when at least half of its words occur. */
  predicate InterestMatches(interest: string, lowerText: string) {
    2 * WordMatches(interest, lowerText) >= |Fields(ToLower(interest))|
  }

  function MatchCount(interests: seq<string>, text: string): (n: nat)
    ensures n <= |interests|
  {
    Count(interests, (i: string) => InterestMatches(i, ToLower(text)))
  }

  /** The share of matched interests, or 0.5 when there are no interests. */
  function InterestScore(interests: seq<string>, text: string): real {
    if |interests| == 0 then 0.5
    else MatchCount(interests, text) as real / |interests| as real
  }

  /** The body analysed: the content, else the summary. */
  function Body(article: Article): string {
    if article.content != "" then article.content else article.summary
  }

  /** 40% length, 40% vocabulary and 20% links. */
  function ContentScore(doc: Document): real {
    LengthScore(|doc.text|) * 0.4 + KeywordScore(doc.text) * 0.4 + LinkScore(doc.hrefs) * 0.2
  }

  /** AnalyzeArticle: a body that does not parse is an error; otherwise half interest relevance
      (over the title and the body's text) and half content quality. */
  function Analyze(interests: seq<string>, article: Article, parse: string -> Result<Document>): Result<ArticleScore> {
    match parse(Body(article))
    case Err(e) => Err(e)
    case Ok(doc) =>
      var interest := InterestScore(interests, article.title + " " + doc.text);
      var content := ContentScore(doc);
      Ok(ArticleScore(article, interest * 0.5 + content * 0.5, interest, content))
  }

  lemma RatioBounds(k: nat, n: nat)
    requires 0 < n && k <= n
    ensures 0.0 <= k as real / n as real <= 1.0
  {
    var q := k as real / n as real;
    assert q * n as real == k as real;
  }

  /** Every component score (interest, length, keyword, link), the content score and the overall
      score lie in 0..1. */
  lemma ScoresBounded(interests: seq<string>, article: Article, parse: string -> Result<Document>)
    ensures var r := Analyze(interests, article, parse);
            r.Ok? ==> && r.value.article == article
                      && 0.0 <= r.value.interestScore <= 1.0
                      && 0.0 <= LengthScore(|parse(Body(article)).value.text|) <= 1.0
                      && 0.0 <= KeywordScore(parse(Body(article)).value.text) <= 1.0
                      && 0.0 <= LinkScore(parse(Body(article)).value.hrefs) <= 1.0
                      && 0.0 <= r.value.contentScore <= 1.0
                      && 0.0 <= r.value.score <= 1.0
  {
    match parse(Body(article)) {
      case Err(_) =>
      case Ok(doc) =>
        InterestScoreBounded(interests, article.title + " " + doc.text);
        ContentScoreBounded(doc);
    }
  }

  lemma InterestScoreBounded(interests: seq<string>, text: string)
    ensures 0.0 <= InterestScore(interests, text) <= 1.0
  {
    if |interests| > 0 {
      RatioBounds(MatchCount(interests, text), |interests|);
    }
  }

  /** The length, keyword and link components each lie in 0..1, and so does their weighted sum. */
  lemma ContentScoreBounded(doc: Document)
    ensures 0.0 <= LengthScore(|doc.text|) <= 1.0
    ensures 0.0 <= KeywordScore(doc.text) <= 1.0
    ensures 0.0 <= LinkScore(doc.hrefs) <= 1.0
    ensures 0.0 <= ContentScore(doc) <= 1.0
  {
    ValueKeywordsSize();
    RatioBounds(KeywordCount(doc.text), |ValueKeywords|);
    if |doc.hrefs| > 0 {
      RatioBounds(Count(doc.hrefs, IsExternal), |doc.hrefs|);
    }
    LengthScoreMonotone(|doc.text|, |doc.text|);
  }

  lemma SingleInterest(interest: string, text: string)
    requires InterestMatches(interest, ToLower(text))
    ensures InterestScore([interest], text) == 1.0
  {
    CountSingleton([interest], (i: string) => InterestMatches(i, ToLower(text)));
  }

  /** A 2500-rune body with 3 of the 16 terms and 2 external anchors out of 5, read by an analyzer
      whose single interest matches: content score 0.555, overall score 0.7775. */
  lemma WorkedExample(interest: string, article: Article, parse: string -> Result<Document>)
    requires parse(Body(article)).Ok?
    requires var doc := parse(Body(article)).value;
             && |doc.text| == 2500 && KeywordCount(doc.text) == 3
             && |doc.hrefs| == 5 && Count(doc.hrefs, IsExternal) == 2
             && InterestMatches(interest, ToLower(article.title + " " + doc.text))
    ensures Analyze([interest], article, parse) == Ok(ArticleScore(article, 0.7775, 1.0, 0.555))
  {
    var doc := parse(Body(article)).value;
    SingleInterest(interest, article.title + " " + doc.text);
    ContentExample(doc);
  }

  /** The content score of that body: 0.4 * 1.0 + 0.4 * 3/16 + 0.2 * 2/5. */
  lemma ContentExample(doc: Document)
    requires |doc.text| == 2500 && KeywordCount(doc.text) == 3
    requires |doc.hrefs| == 5 && Count(doc.hrefs, IsExternal) == 2
    ensures ContentScore(doc) == 0.555
  {
    KeywordExample(doc.text);
    LinkExample(doc.hrefs);
    assert LengthScore(|doc.text|) == 1.0;
  }

  lemma KeywordExample(text: string)
    requires KeywordCount(text) == 3
    ensures KeywordScore(text) == 3.0 / 16.0
  {
    ValueKeywordsSize();
  }

  lemma ValueKeywordsSize()
    ensures |ValueKeywords| == 16
  {
  }

  lemma LinkExample(hrefs: seq<Option<string>>)
    requires |hrefs| == 5 && Count(hrefs, IsExternal) == 2
    ensures LinkScore(hrefs) == 0.4
  {
    assert LinkScore(hrefs) == 2.0 / 5.0;
  }
}
