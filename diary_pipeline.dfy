/**
 * The diary half of backend/app/pipeline.py (`DiaryPipeline`): the sentiment
 * label of an entry, the suggestion list read from a language-model reply,
 * and `generate_summary`, the counting pass over the stored entries.
 */
module DiaryPipeline {
  import opened Wrappers
  import opened Text
  import opened Llm
  import opened Tally
  import opened Ranking

  /**
   * A stored diary entry: the dictionary `create_diary_entry` builds, with all
   * five keys present; the timestamp is a point in time as an integer.
   */
  datatype DiaryEntry = DiaryEntry(id: string, text: string, entryType: string, timestamp: int, sentiment: string)

  // ---------------------------------------------------------------------------
  // analyze_sentiment
  // ---------------------------------------------------------------------------

  const Labels: seq<string> := ["positive", "negative", "neutral"]

  /**
   * `analyze_sentiment`: the reply, stripped and lower-cased, when it is one of
   * the three labels; "neutral" without a client, on a failed call or for any
   * other reply.
   */
  function AnalyzeSentiment(reply: LlmReply): (r: string)
    ensures r in Labels
    ensures reply.Replied? && Lower(Strip(reply.content)) in Labels ==> r == Lower(Strip(reply.content))
    ensures !(reply.Replied? && Lower(Strip(reply.content)) in Labels) ==> r == "neutral"
  {
    if reply.Replied? && Lower(Strip(reply.content)) in Labels then Lower(Strip(reply.content))
    else "neutral"
  }

  // ---------------------------------------------------------------------------
  // _generate_suggestions
  // ---------------------------------------------------------------------------

  /** `s.strip().lstrip("- ").lstrip("* ")`. */
  function CleanSuggestion(line: string): (r: string)
    ensures |r| <= |Strip(line)| && r == Strip(line)[|Strip(line)| - |r|..]
    ensures r == [] || r[0] !in {'*', ' '}
  {
    TrimLeft(TrimLeft(Strip(line), {'-', ' '}), {'*', ' '})
  }

  /** The list comprehension: every line that is not blank, cleaned, in order. */
  function CleanLines(lines: seq<string>): (r: seq<string>)
    ensures |r| == NonBlankCount(lines) <= |lines|
  {
    if lines == [] then []
    else if Strip(lines[0]) != "" then [CleanSuggestion(lines[0])] + CleanLines(lines[1..])
    else CleanLines(lines[1..])
  }

  /** How many of the lines are not blank. */
  function NonBlankCount(lines: seq<string>): nat {
    if lines == [] then 0
    else (if Strip(lines[0]) != "" then 1 else 0) + NonBlankCount(lines[1..])
  }

  /**
   * The suggestions read from a reply: the stripped reply is cut into lines and
   * at most the first three cleaned non-blank lines are kept.
   */
  function ParseSuggestions(content: string): (r: seq<string>)
    ensures |r| <= 3
    ensures var n := NonBlankCount(Split(Strip(content), "\n")); |r| == if n < 3 then n else 3
    ensures r == CleanLines(Split(Strip(content), "\n"))[..|r|]
  {
    var items := CleanLines(Split(Strip(content), "\n"));
    if |items| <= 3 then items else items[..3]
  }

  /**
   * `_generate_suggestions`: nothing without a client or without entries, two
   * fixed suggestions when the call fails, the parsed reply otherwise.
   */
  function GenerateSuggestions(entries: seq<DiaryEntry>, reply: LlmReply): (r: seq<string>)
    ensures |r| <= 3
    ensures reply.NoClient? || entries == [] ==> r == []
    ensures reply.Failed? && entries != [] ==>
      r == ["Consider maintaining regular sleep patterns", "Stay hydrated throughout the day"]
    ensures reply.Replied? && entries != [] ==> r == ParseSuggestions(reply.content)
  {
    if reply.NoClient? || entries == [] then []
    else if reply.Failed? then ["Consider maintaining regular sleep patterns", "Stay hydrated throughout the day"]
    else ParseSuggestions(reply.content)
  }

  // ---------------------------------------------------------------------------
  // generate_summary: the counting pass
  // ---------------------------------------------------------------------------

  /** The symptom words looked for in symptom entries, in the order they are tried. */
  const Vocabulary: seq<string> := ["headache", "pain", "fever", "nausea", "fatigue", "cough", "sore throat"]

  /** The mood bucket of a mood entry's lower-cased text: happy/good, else sad/bad, else neutral. */
  function MoodOf(moodText: string): (r: string)
    ensures r in Labels
    ensures r == "positive" <==> Contains(moodText, "happy") || Contains(moodText, "good")
    ensures r == "negative" <==> (!(Contains(moodText, "happy") || Contains(moodText, "good"))
      && (Contains(moodText, "sad") || Contains(moodText, "bad")))
  {
    if Contains(moodText, "happy") || Contains(moodText, "good") then "positive"
    else if Contains(moodText, "sad") || Contains(moodText, "bad") then "negative"
    else "neutral"
  }

  /** The inner loop over the vocabulary: each word found in the text is counted once. */
  function TallyWords(symptoms: Counts, text: string, words: seq<string>): Counts
    decreases |words|
  {
    if words == [] then symptoms
    else
      var before := TallyWords(symptoms, text, words[..|words| - 1]);
      var w := words[|words| - 1];
      if Contains(text, w) then Bump(before, w) else before
  }

  /** The body of the entry loop: symptom words of a symptom entry, the bucket of a mood entry. */
  function TallyEntry(symptoms: Counts, moods: Counts, e: DiaryEntry): (Counts, Counts) {
    (if e.entryType == "symptom" then TallyWords(symptoms, Lower(e.text), Vocabulary) else symptoms,
     if e.entryType == "mood" then Bump(moods, MoodOf(Lower(e.text))) else moods)
  }

  /** The `symptoms` and `moods` dictionaries after the entry loop has seen `entries`. */
  function Tallies(entries: seq<DiaryEntry>): (Counts, Counts)
    decreases |entries|
  {
    if entries == [] then ([], [])
    else
      var before := Tallies(entries[..|entries| - 1]);
      TallyEntry(before.0, before.1, entries[|entries| - 1])
  }

  /** `sentiment_counts` before the loop. */
  const InitialSentiments: Counts := [("positive", 0), ("negative", 0), ("neutral", 0)]

  /** `sentiment_counts` after the sentiment loop has seen `entries`. */
  function SentimentTally(entries: seq<DiaryEntry>): Counts
    decreases |entries|
  {
    if entries == [] then InitialSentiments
    else Bump(SentimentTally(entries[..|entries| - 1]), entries[|entries| - 1].sentiment)
  }

  /** One element of `time_series`. */
  datatype Point = Point(date: int, sentiment: string, entryType: string)

  function PointOf(e: DiaryEntry): Point {
    Point(e.timestamp, e.sentiment, e.entryType)
  }

  function TimeSeries(entries: seq<DiaryEntry>): (r: seq<Point>)
    ensures |r| == |entries|
    ensures forall i :: 0 <= i < |entries| ==> r[i] == PointOf(entries[i])
  {
    seq(|entries|, i requires 0 <= i < |entries| => PointOf(entries[i]))
  }

  /** `min(dates)`. */
  function Earliest(entries: seq<DiaryEntry>): (r: int)
    requires entries != []
    ensures exists i :: 0 <= i < |entries| && entries[i].timestamp == r
    ensures forall i :: 0 <= i < |entries| ==> r <= entries[i].timestamp
  {
    if |entries| == 1 then entries[0].timestamp
    else
      var rest := Earliest(entries[1..]);
      assert forall i :: 1 <= i < |entries| ==> entries[i] == entries[1..][i - 1];
      if entries[0].timestamp <= rest then entries[0].timestamp else rest
  }

  /** `max(dates)`. */
  function Latest(entries: seq<DiaryEntry>): (r: int)
    requires entries != []
    ensures exists i :: 0 <= i < |entries| && entries[i].timestamp == r
    ensures forall i :: 0 <= i < |entries| ==> entries[i].timestamp <= r
  {
    if |entries| == 1 then entries[0].timestamp
    else
      var rest := Latest(entries[1..]);
      assert forall i :: 1 <= i < |entries| ==> entries[i] == entries[1..][i - 1];
      if entries[0].timestamp >= rest then entries[0].timestamp else rest
  }

  datatype DateRange = DateRange(start: int, end: int)

  datatype Visualization = Visualization(timeSeries: seq<Point>, sentimentDistribution: Counts)

  /**
   * The summary dictionary. `dateRange` and `visualization` are `None` where the
   * source returns an empty dictionary (no entries).
   */
  datatype Summary = Summary(
    totalEntries: nat,
    dateRange: Option<DateRange>,
    sentimentTrend: Counts,
    commonSymptoms: Counts,
    moodPatterns: Counts,
    suggestions: seq<string>,
    visualization: Option<Visualization>)

  const EmptySummary := Summary(0, None, [], [], [], [], None)

  /** `generate_summary` as a function of the entries and the suggestion call's reply. */
  function Summarize(entries: seq<DiaryEntry>, reply: LlmReply): Summary {
    if entries == [] then EmptySummary
    else
      var tallies := Tallies(entries);
      var sentiments := SentimentTally(entries);
      Summary(
        |entries|,
        Some(DateRange(Earliest(entries), Latest(entries))),
        sentiments,
        TopFive(tallies.0),
        tallies.1,
        GenerateSuggestions(entries, reply),
        Some(Visualization(TimeSeries(entries), sentiments)))
  }

  // ---------------------------------------------------------------------------
  // generate_summary: the loops
  // ---------------------------------------------------------------------------

  /** The entry loop, with the vocabulary loop inside it. */
  method CountSymptomsAndMoods(entries: seq<DiaryEntry>) returns (symptoms: Counts, moods: Counts)
    ensures (symptoms, moods) == Tallies(entries)
  {
    symptoms, moods := [], [];
    for i := 0 to |entries|
      invariant (symptoms, moods) == Tallies(entries[..i])
    {
      var entry := entries[i];
      assert entries[..i + 1][..i] == entries[..i];
      if entry.entryType == "symptom" {
        var text := Lower(entry.text);
        ghost var start := symptoms;
        for k := 0 to |Vocabulary|
          invariant symptoms == TallyWords(start, text, Vocabulary[..k])
        {
          assert Vocabulary[..k + 1][..k] == Vocabulary[..k];
          var symptom := Vocabulary[k];
          if Contains(text, symptom) {
            symptoms := Bump(symptoms, symptom);
          }
        }
        assert Vocabulary[..|Vocabulary|] == Vocabulary;
      }
      if entry.entryType == "mood" {
        var moodText := Lower(entry.text);
        if Contains(moodText, "happy") || Contains(moodText, "good") {
          moods := Bump(moods, "positive");
        } else if Contains(moodText, "sad") || Contains(moodText, "bad") {
          moods := Bump(moods, "negative");
        } else {
          moods := Bump(moods, "neutral");
        }
      }
    }
    assert entries[..|entries|] == entries;
  }

  /** The sentiment loop. */
  method CountSentiments(entries: seq<DiaryEntry>) returns (sentimentCounts: Counts)
    ensures sentimentCounts == SentimentTally(entries)
  {
    sentimentCounts := InitialSentiments;
    for i := 0 to |entries|
      invariant sentimentCounts == SentimentTally(entries[..i])
    {
      assert entries[..i + 1][..i] == entries[..i];
      sentimentCounts := Bump(sentimentCounts, entries[i].sentiment);
    }
    assert entries[..|entries|] == entries;
  }

  /** The time-series loop: one point appended per entry. */
  method BuildTimeSeries(entries: seq<DiaryEntry>) returns (timeSeries: seq<Point>)
    ensures timeSeries == TimeSeries(entries)
  {
    timeSeries := [];
    for i := 0 to |entries|
      invariant timeSeries == TimeSeries(entries[..i])
    {
      timeSeries := timeSeries + [PointOf(entries[i])];
    }
    assert entries[..|entries|] == entries;
  }

  /** `generate_summary`. */
  method GenerateSummary(entries: seq<DiaryEntry>, reply: LlmReply) returns (summary: Summary)
    ensures summary == Summarize(entries, reply)
  {
    if entries == [] {
      return EmptySummary;
    }
    var symptoms, moods := CountSymptomsAndMoods(entries);
    var suggestions := GenerateSuggestions(entries, reply);
    var sentimentCounts := CountSentiments(entries);
    var timeSeries := BuildTimeSeries(entries);
    summary := Summary(
      |entries|,
      Some(DateRange(Earliest(entries), Latest(entries))),
      sentimentCounts,
      TopFive(symptoms),
      moods,
      suggestions,
      Some(Visualization(timeSeries, sentimentCounts)));
  }
}
