/**
 * What `generate_summary` and its helpers promise, proved about
 * `DiaryPipeline.Summarize` against independent counts over the entries.
 */
module DiaryProperties {
  import opened Wrappers
  import opened Text
  import opened Llm
  import opened Tally
  import opened Ranking
  import opened DiaryPipeline

  // ---------------------------------------------------------------------------
  // Independent counts
  // ---------------------------------------------------------------------------

  /** How many symptom entries mention `s` in their lower-cased text. */
  function SymptomEntries(entries: seq<DiaryEntry>, s: string): nat
    decreases |entries|
  {
    if entries == [] then 0
    else
      var e := entries[|entries| - 1];
      SymptomEntries(entries[..|entries| - 1], s)
        + (if e.entryType == "symptom" && Contains(Lower(e.text), s) then 1 else 0)
  }

  /** How many mood entries fall into bucket `m`. */
  function MoodEntries(entries: seq<DiaryEntry>, m: string): nat
    decreases |entries|
  {
    if entries == [] then 0
    else
      var e := entries[|entries| - 1];
      MoodEntries(entries[..|entries| - 1], m)
        + (if e.entryType == "mood" && MoodOf(Lower(e.text)) == m then 1 else 0)
  }

  /** How many mood entries there are. */
  function MoodEntryCount(entries: seq<DiaryEntry>): nat
    decreases |entries|
  {
    if entries == [] then 0
    else MoodEntryCount(entries[..|entries| - 1]) + (if entries[|entries| - 1].entryType == "mood" then 1 else 0)
  }

  /** How many entries carry sentiment `l`. */
  function SentimentEntries(entries: seq<DiaryEntry>, l: string): nat
    decreases |entries|
  {
    if entries == [] then 0
    else SentimentEntries(entries[..|entries| - 1], l) + (if entries[|entries| - 1].sentiment == l then 1 else 0)
  }

  predicate Distinct(words: seq<string>) {
    forall i, j :: 0 <= i < j < |words| ==> words[i] != words[j]
  }

  // ---------------------------------------------------------------------------
  // The sentiment distribution
  // ---------------------------------------------------------------------------

  lemma {:induction false} GetOfZeros(c: Counts, k: string)
    requires forall i :: 0 <= i < |c| ==> c[i].1 == 0
    ensures Get(c, k) == 0
    decreases |c|
  {
    if c != [] {
      GetOfZeros(c[1..], k);
    }
  }

  lemma InitialSentimentsFacts()
    ensures Keys(InitialSentiments) == Labels
    ensures DistinctKeys(InitialSentiments)
    ensures Sum(InitialSentiments) == 0
    ensures forall l :: Get(InitialSentiments, l) == 0
  {
    assert InitialSentiments[1..][1..][1..] == [];
    forall l {
      GetOfZeros(InitialSentiments, l);
    }
  }

  /**
   * `sentiment_counts` always lists positive, negative and neutral first, in
   * that order; its counts add up to the number of entries; and each label's
   * count is the number of entries carrying it.
   */
  lemma {:induction false} SentimentTallyCounts(entries: seq<DiaryEntry>)
    ensures |SentimentTally(entries)| >= 3
    ensures Keys(SentimentTally(entries))[..3] == Labels
    ensures DistinctKeys(SentimentTally(entries))
    ensures Sum(SentimentTally(entries)) == |entries|
    ensures forall l :: Get(SentimentTally(entries), l) == SentimentEntries(entries, l)
    decreases |entries|
  {
    if entries == [] {
      InitialSentimentsFacts();
    } else {
      var init := entries[..|entries| - 1];
      var e := entries[|entries| - 1];
      var before := SentimentTally(init);
      SentimentTallyCounts(init);
      BumpKeepsDistinct(before, e.sentiment);
      BumpSum(before, e.sentiment);
      BumpKeys(before, e.sentiment);
      assert SentimentTally(entries) == Bump(before, e.sentiment);
      var ks := Keys(before);
      assert (ks + [e.sentiment])[..3] == ks[..3];
    }
  }

  // ---------------------------------------------------------------------------
  // The symptom tally
  // ---------------------------------------------------------------------------

  lemma VocabularyIsDistinct()
    ensures Distinct(Vocabulary)
  {
    assert Vocabulary[0][0] == 'h' && Vocabulary[1][0] == 'p' && Vocabulary[2][..2] == "fe";
    assert Vocabulary[3][0] == 'n' && Vocabulary[4][..2] == "fa" && Vocabulary[5][0] == 'c';
    assert Vocabulary[6][0] == 's';
  }

  /** The vocabulary loop adds one to the count of every word of the list found in the text. */
  lemma {:induction false} TallyWordsCounts(c: Counts, text: string, words: seq<string>, s: string)
    requires Distinct(words)
    ensures Get(TallyWords(c, text, words), s) == Get(c, s) + (if s in words && Contains(text, s) then 1 else 0)
    decreases |words|
  {
    if words != [] {
      var init := words[..|words| - 1];
      var w := words[|words| - 1];
      TallyWordsCounts(c, text, init, s);
      assert words == init + [w];
      assert s in words <==> s in init || s == w;
      if s == w {
        assert s !in init;
      }
    }
  }

  /** Every key the vocabulary loop adds is a word of the list. */
  lemma {:induction false} TallyWordsKeys(c: Counts, text: string, words: seq<string>)
    requires DistinctKeys(c)
    ensures DistinctKeys(TallyWords(c, text, words))
    ensures forall k :: k in Keys(TallyWords(c, text, words)) ==> k in Keys(c) || k in words
    decreases |words|
  {
    if words != [] {
      var init := words[..|words| - 1];
      var w := words[|words| - 1];
      TallyWordsKeys(c, text, init);
      BumpKeepsDistinct(TallyWords(c, text, init), w);
      BumpKeys(TallyWords(c, text, init), w);
    }
  }

  /**
   * Each vocabulary symptom is counted once per symptom entry whose lower-cased
   * text contains it; words outside the vocabulary are never counted; every key
   * of the tally is a distinct vocabulary word.
   */
  lemma {:induction false} SymptomTallyCounts(entries: seq<DiaryEntry>, s: string)
    ensures Get(Tallies(entries).0, s) == if s in Vocabulary then SymptomEntries(entries, s) else 0
    decreases |entries|
  {
    if entries != [] {
      var init := entries[..|entries| - 1];
      var e := entries[|entries| - 1];
      SymptomTallyCounts(init, s);
      if e.entryType == "symptom" {
        VocabularyIsDistinct();
        TallyWordsCounts(Tallies(init).0, Lower(e.text), Vocabulary, s);
      }
    }
  }

  /** The vocabulary loop over a text that mentions none of the words leaves the tally as it was. */
  lemma {:induction false} TallyWordsNoMatch(c: Counts, text: string, words: seq<string>)
    requires forall w :: w in words ==> !Contains(text, w)
    ensures TallyWords(c, text, words) == c
    decreases |words|
  {
    if words != [] {
      TallyWordsNoMatch(c, text, words[..|words| - 1]);
    }
  }

  /** A vocabulary symptom mentioned by some symptom entry puts at least one pair in the tally. */
  lemma MentionedSymptomIsTallied(entries: seq<DiaryEntry>, w: string)
    requires w in Vocabulary && SymptomEntries(entries, w) > 0
    ensures Tallies(entries).0 != []
  {
    SymptomTallyCounts(entries, w);
  }

  /** When no symptom entry mentions a vocabulary symptom, the tally stays empty. */
  lemma {:induction false} UnmentionedSymptomsLeaveTallyEmpty(entries: seq<DiaryEntry>)
    requires forall w :: w in Vocabulary ==> SymptomEntries(entries, w) == 0
    ensures Tallies(entries).0 == []
    decreases |entries|
  {
    if entries != [] {
      var init := entries[..|entries| - 1];
      var e := entries[|entries| - 1];
      UnmentionedSymptomsLeaveTallyEmpty(init);
      if e.entryType == "symptom" {
        TallyWordsNoMatch([], Lower(e.text), Vocabulary);
      }
    }
  }

  /** `common_symptoms` is empty exactly when no symptom entry mentions a vocabulary symptom. */
  lemma NoCommonSymptomsIffNoMentions(entries: seq<DiaryEntry>, reply: LlmReply)
    ensures Summarize(entries, reply).commonSymptoms == [] <==>
      forall w :: w in Vocabulary ==> SymptomEntries(entries, w) == 0
  {
    if forall w :: w in Vocabulary ==> SymptomEntries(entries, w) == 0 {
      UnmentionedSymptomsLeaveTallyEmpty(entries);
    } else {
      var w :| w in Vocabulary && SymptomEntries(entries, w) != 0;
      MentionedSymptomIsTallied(entries, w);
    }
  }

  lemma {:induction false} SymptomTallyKeys(entries: seq<DiaryEntry>)
    ensures DistinctKeys(Tallies(entries).0)
    ensures forall k :: k in Keys(Tallies(entries).0) ==> k in Vocabulary
    decreases |entries|
  {
    if entries != [] {
      var init := entries[..|entries| - 1];
      var e := entries[|entries| - 1];
      SymptomTallyKeys(init);
      if e.entryType == "symptom" {
        TallyWordsKeys(Tallies(init).0, Lower(e.text), Vocabulary);
      }
    }
  }

  // ---------------------------------------------------------------------------
  // The mood tally
  // ---------------------------------------------------------------------------

  /**
   * Every mood entry lands in exactly one bucket: each bucket's count is the
   * number of mood entries classified into it, the counts add up to the number
   * of mood entries, and the only keys are the three labels.
   */
  lemma {:induction false} MoodTallyCounts(entries: seq<DiaryEntry>)
    ensures forall m :: Get(Tallies(entries).1, m) == MoodEntries(entries, m)
    ensures Sum(Tallies(entries).1) == MoodEntryCount(entries)
    ensures DistinctKeys(Tallies(entries).1)
    ensures forall k :: k in Keys(Tallies(entries).1) ==> k in Labels
    decreases |entries|
  {
    if entries != [] {
      var init := entries[..|entries| - 1];
      var e := entries[|entries| - 1];
      MoodTallyCounts(init);
      if e.entryType == "mood" {
        BumpKeepsDistinct(Tallies(init).1, MoodOf(Lower(e.text)));
        BumpSum(Tallies(init).1, MoodOf(Lower(e.text)));
        BumpKeys(Tallies(init).1, MoodOf(Lower(e.text)));
      }
    }
  }

  // ---------------------------------------------------------------------------
  // The summary
  // ---------------------------------------------------------------------------

  /** A pair listed in a tally with distinct keys carries that key's count. */
  lemma {:induction false} ListedPairIsCount(c: Counts, p: (string, nat))
    requires DistinctKeys(c) && p in c
    ensures Get(c, p.0) == p.1
    decreases |c|
  {
    if c[0] != p {
      assert p in c[1..];
      assert DistinctKeys(c[1..]);
      ListedPairIsCount(c[1..], p);
      var i :| 0 <= i < |c[1..]| && c[1..][i] == p;
      assert c[0].0 != c[i + 1].0;
    }
  }

  /**
   * `common_symptoms`: at most five vocabulary symptoms, each with its count of
   * symptom entries, in descending order of count, and no symptom left out has
   * a higher count than one listed.
   */
  lemma CommonSymptomsAreTopCounts(entries: seq<DiaryEntry>, reply: LlmReply)
    requires entries != []
    ensures var top := Summarize(entries, reply).commonSymptoms;
      && |top| <= 5
      && SortedByCountDesc(top)
      && (forall i :: 0 <= i < |top| ==> top[i].0 in Vocabulary && top[i].1 == SymptomEntries(entries, top[i].0))
      && (forall p :: p in Tallies(entries).0 && p !in top ==> |top| == 5 && p.1 <= top[4].1)
  {
    var top := Summarize(entries, reply).commonSymptoms;
    assert top == TopFive(Tallies(entries).0);
    TopFiveIsTop(Tallies(entries).0);
    TopSymptomsAreCounted(entries);
  }

  /** Every pair kept among the top five is a vocabulary symptom with its true count. */
  lemma TopSymptomsAreCounted(entries: seq<DiaryEntry>)
    ensures var top := TopFive(Tallies(entries).0);
      forall i :: 0 <= i < |top| ==> top[i].0 in Vocabulary && top[i].1 == SymptomEntries(entries, top[i].0)
  {
    var tally := Tallies(entries).0;
    var top := TopFive(tally);
    TopFiveIsTop(tally);
    SymptomTallyKeys(entries);
    forall i | 0 <= i < |top|
      ensures top[i].0 in Vocabulary && top[i].1 == SymptomEntries(entries, top[i].0)
    {
      assert top[i] in multiset(tally);
      var j :| 0 <= j < |tally| && tally[j] == top[i];
      assert top[i].0 == Keys(tally)[j];
      ListedPairIsCount(tally, top[i]);
      SymptomTallyCounts(entries, top[i].0);
    }
  }

  /**
   * The counts of the summary add up: one time-series point per entry, in input
   * order; the sentiment distribution (also the trend) lists the three labels
   * first and sums to the number of entries; the date range is the earliest and
   * latest timestamp.
   */
  lemma SummaryTotals(entries: seq<DiaryEntry>, reply: LlmReply)
    requires entries != []
    ensures var s := Summarize(entries, reply);
      && s.totalEntries == |entries|
      && s.visualization.Some?
      && s.sentimentTrend == s.visualization.value.sentimentDistribution
      && |s.sentimentTrend| >= 3
      && Keys(s.sentimentTrend)[..3] == Labels
      && Sum(s.sentimentTrend) == |entries|
      && (forall l :: Get(s.sentimentTrend, l) == SentimentEntries(entries, l))
      && |s.visualization.value.timeSeries| == |entries|
      && (forall i :: 0 <= i < |entries| ==> s.visualization.value.timeSeries[i] == PointOf(entries[i]))
      && s.dateRange.Some?
      && (forall i :: 0 <= i < |entries| ==>
            s.dateRange.value.start <= entries[i].timestamp <= s.dateRange.value.end)
      && |s.suggestions| <= 3
  {
    SentimentTallyCounts(entries);
  }

  // ---------------------------------------------------------------------------
  // Sentiment labels and suggestions
  // ---------------------------------------------------------------------------

  /** A word of lower-case letters is left as it is by the normaliser. */
  lemma LowerWordIsNormal(w: string)
    requires forall i :: 0 <= i < |w| ==> 'a' <= w[i] <= 'z'
    ensures Lower(Strip(w)) == w
  {
    StripUnchanged(w);
    LowerUnchanged(w);
  }

  /** Each of the three labels is its own normal form. */
  lemma LabelsAreNormal(l: string)
    requires l in Labels
    ensures Lower(Strip(l)) == l
  {
    assert forall i :: 0 <= i < |l| ==> 'a' <= l[i] <= 'z' by {
      assert l == Labels[0] || l == Labels[1] || l == Labels[2];
    }
    LowerWordIsNormal(l);
  }

  /** A label read back through the normaliser is itself. */
  lemma SentimentRoundTrip(reply: LlmReply)
    ensures AnalyzeSentiment(Replied(AnalyzeSentiment(reply))) == AnalyzeSentiment(reply)
  {
    LabelsAreNormal(AnalyzeSentiment(reply));
  }

  /** The cleaned-line list keeps the order of the lines it comes from. */
  lemma {:induction false} CleanLinesConcat(a: seq<string>, b: seq<string>)
    ensures CleanLines(a + b) == CleanLines(a) + CleanLines(b)
    decreases |a|
  {
    if a == [] {
      assert a + b == b;
    } else {
      assert (a + b)[1..] == a[1..] + b;
      CleanLinesConcat(a[1..], b);
    }
  }

  /** When no line is blank, every line gives exactly one suggestion, in order. */
  lemma {:induction false} CleanLinesOfNonBlank(lines: seq<string>)
    requires forall i :: 0 <= i < |lines| ==> Strip(lines[i]) != ""
    ensures |CleanLines(lines)| == |lines|
    ensures forall i :: 0 <= i < |lines| ==> CleanLines(lines)[i] == CleanSuggestion(lines[i])
    decreases |lines|
  {
    if lines != [] {
      CleanLinesOfNonBlank(lines[1..]);
    }
  }

  /**
   * The blank test is made before the bullet characters are removed, so a line
   * of dashes is kept and becomes an empty suggestion.
   */
  lemma DashLineGivesEmptySuggestion(line: string)
    requires |line| > 0 && forall i :: 0 <= i < |line| ==> line[i] == '-'
    ensures Strip(line) != "" && CleanSuggestion(line) == ""
  {
    StripUnchanged(line);
    CleanSuggestionIsTwoPasses(line);
    DashesInSet(line, {'-', ' '});
    TrimLeftOfAll(line, {'-', ' '});
  }

  /** A line of dashes is made of characters of the dash pass's set. */
  lemma DashesInSet(line: string, dash: set<char>)
    requires dash == {'-', ' '} && forall i :: 0 <= i < |line| ==> line[i] == '-'
    ensures forall i :: 0 <= i < |line| ==> line[i] in dash
  {
  }

  /** Cleaning a suggestion line removes, after the strip, only dashes, stars and spaces. */
  lemma CleanSuggestionDropsOnlyBullets(line: string)
    ensures forall i :: 0 <= i < |Strip(line)| - |CleanSuggestion(line)| ==>
      Strip(line)[i] == '-' || Strip(line)[i] == '*' || Strip(line)[i] == ' '
  {
    CleanSuggestionIsTwoPasses(line);
    TrimLeftTwice(Strip(line), {'-', ' '}, {'*', ' '});
    InBulletSets(Strip(line), |Strip(line)| - |CleanSuggestion(line)|, {'-', ' '}, {'*', ' '});
  }

  /** Cleaning is the dash pass followed by the star pass on the stripped line. */
  lemma CleanSuggestionIsTwoPasses(line: string)
    ensures CleanSuggestion(line) == TrimLeft(TrimLeft(Strip(line), {'-', ' '}), {'*', ' '})
  {
  }

  /** A prefix made of the two bullet sets' characters is made of dashes, stars and spaces.
      The sets are parameters so that no `TrimLeft` term shares the proof with their
      displays, which makes the solver unfold `TrimLeft` without end. */
  lemma InBulletSets(s: string, n: int, dash: set<char>, star: set<char>)
    requires 0 <= n <= |s| && dash == {'-', ' '} && star == {'*', ' '}
    requires forall i :: 0 <= i < n ==> s[i] in dash || s[i] in star
    ensures forall i :: 0 <= i < n ==> s[i] == '-' || s[i] == '*' || s[i] == ' '
  {
  }

  /** A line opening with a star and ending in a non-space is already stripped. */
  lemma StarLineIsStripped(line: string)
    requires |line| >= 1 && line[0] == '*' && !IsSpace(line[|line| - 1])
    ensures Strip(line) == line
  {
    StripUnchanged(line);
  }

  /** The dash pass leaves a line opening with a star alone. */
  lemma DashPassStopsAtStar(line: string)
    requires |line| >= 1 && line[0] == '*'
    ensures TrimLeft(line, {'-', ' '}) == line
  {
    TrimLeftStops(line, {'-', ' '});
  }

  /** A stripped line that opens with a star loses no dash: only the star pass acts on it. */
  lemma StarLineSkipsDashPass(line: string)
    requires |line| >= 1 && line[0] == '*' && !IsSpace(line[|line| - 1])
    ensures CleanSuggestion(line) == TrimLeft(line, {'*', ' '})
  {
    StarLineIsStripped(line);
    DashPassStopsAtStar(line);
  }

  /**
   * The dashes are removed before the stars, so a dash right after a leading star
   * stays: "*-x" is suggested as "-x".
   */
  lemma StarBeforeDashKeepsDash(line: string)
    requires |line| >= 2 && line[0] == '*' && line[1] == '-' && !IsSpace(line[|line| - 1])
    ensures CleanSuggestion(line) == line[1..]
  {
    StarLineSkipsDashPass(line);
    TrimLeftStops(line[1..], {'*', ' '});
  }
}
