# healthcare_ai: the diary and SOAP-note core in Dafny

This project models the deterministic core of the healthcare_ai backend and
proves what it promises.

- **SOAP-note parser** (`backend/app/pipeline.py`,
  `SOAPPipeline._parse_soap_response` and `generate_soap_note`):
  - a language-model reply is cut into lines;
  - a line that carries a header keyword switches the current section, and the
    keyword is removed from it;
  - what is left of each line is appended to the current section;
  - when no section received text, the reply is shared out by blank-line
    paragraphs;
  - every section still empty gets a placeholder.
- **Diary summary** (`DiaryPipeline.generate_summary`):
  - symptom-word tallies, mood buckets and the sentiment histogram;
  - the five most frequent symptoms, by a stable sort;
  - the time series and the date range;
  - the suggestion lines read from a reply;
  - the sentiment label normaliser of `analyze_sentiment`.
- **In-memory diary** (`backend/app/main.py`): the list `diary_entries`, with
  `create_diary_entry` (append) and `delete_diary_entry` (filter by id, 404
  when nothing was removed), plus `get_diary_summary`.
- **Audio upload rules** (`backend/app/utils_audio.py`): `validate_audio_format`
  and the data-URL handling of `decode_audio_base64`.

Modules, one concern each:
- `Text` (text.dfy): Python's `str` operations with their Python meaning.
  `strip()` uses the full `isspace()` set.
- `Tally` and `Ranking` (tally.dfy, ranking.dfy): insertion-ordered
  dictionaries of counts, and the stable descending sort with its `[:5]`.
- `SoapPipeline` and `SoapPipelineProperties` (soap_pipeline.dfy).
- `DiaryPipeline` (diary_pipeline.dfy) and `DiaryProperties` (diary_properties.dfy).
- `DiaryStore` and `DiaryStoreProperties` (diary_store.dfy). The store is a
  class whose field `entries` the methods reassign.
- `AudioUtils` (audio.dfy).
- `Wrappers` and `Llm`: `Option`/`Result`, and the outcome of a
  language-model call (`NoClient`, `Failed`, or `Replied(content)`).

The loops of the source are methods with loop invariants. They are proved equal
to specification functions, and the properties are lemmas about those functions.

The parser has only the header scan, the paragraph fallback and the
placeholders.

## Model

| member | source | states |
|---|---|---|
| Text.Strip | backend/app/pipeline.py:28 | `strip()` yields a string no longer than its input that neither starts nor ends with whitespace |
| Text.StripIsBothStrips | backend/app/pipeline.py:28 | `strip()` is `lstrip()` followed by `rstrip()` |
| Text.StripLeadingIsBlankCut | backend/app/pipeline.py:28 | `lstrip()` keeps a suffix and removes only whitespace before it |
| Text.StripTrailingIsBlankCut | backend/app/pipeline.py:28 | `strip()` keeps a prefix of the `lstrip()` result and removes only whitespace after it |
| Text.StripIsInfix | backend/app/pipeline.py:28 | `strip()` is the slice of its input that starts after the leading whitespace, with only whitespace before and after it |
| Text.StripOfBlank | backend/app/pipeline.py:140 | `s.strip()` is empty exactly when `s` is whitespace only (the truthiness test of the comprehension) |
| Text.TrimLeft | backend/app/pipeline.py:138 | `lstrip(chars)` removes a prefix made only of `chars` and leaves a suffix not starting with one |
| Text.TrimLeftTwice | backend/app/pipeline.py:138 | two `lstrip` passes in a row remove only characters of the first set or of the second |
| Text.TrimLeftOfAll | backend/app/pipeline.py:138 | `lstrip(chars)` of text made only of `chars` is empty |
| Text.TrimLeftCutSlice | backend/app/pipeline.py:239 | `lstrip(chars)` keeps a slice of its input with only whitespace or `chars` before it and only whitespace after it (that nothing follows it is `Text.TrimLeft`'s suffix clause) |
| Text.StripCutSlice | backend/app/pipeline.py:239 | `strip()` keeps a slice of its input with only whitespace before and after it |
| Text.CutSliceOfCutSlice | backend/app/pipeline.py:239 | a slice cut out of a slice is a slice of the original, with only whitespace or the extra characters before it and only whitespace after it |
| Text.StripTrimStripSlice | backend/app/pipeline.py:239 | `.strip().lstrip(chars).strip()` keeps a slice of its input with only whitespace or `chars` before it and only whitespace after it |
| Text.Split | backend/app/pipeline.py:226 | `split(sep)` gives at least one piece; joining the pieces with `sep` gives the text back; no piece contains `sep`; text without `sep` is its own single piece, and otherwise the first piece is the text before the first occurrence of `sep`, so an overlapping separator is cut at its leftmost occurrence |
| Text.FirstPieceOfSplit | backend/app/pipeline.py:226 | the text is what comes before the first occurrence of `sep`, then `sep`, then the rest, and what comes before contains no `sep` |
| Text.Lower | backend/app/pipeline.py:230 | `lower()` keeps the length of the text |
| Text.LowerHasNoUpper | backend/app/pipeline.py:230 | `lower()` leaves no upper-case ASCII letter |
| Text.LowerTwice | backend/app/pipeline.py:230 | lower-casing twice is lower-casing once |
| Text.Find | backend/app/pipeline.py:239 | `find(kw)` is -1 when `kw` occurs nowhere, and otherwise the least position where it occurs |
| Text.ContainsAt | backend/app/pipeline.py:238 | `kw in line_lower` holds as soon as `kw` occurs at some position, and `find` is at most that position |
| Text.ContainsIffOccurs | backend/app/pipeline.py:238 | `kw in line_lower` holds exactly when `kw` occurs at some position |
| Tally.Bump | backend/app/pipeline.py:62 | `d[k] = d.get(k, 0) + 1` raises the count of `k` by one and leaves every other count as it was |
| Tally.BumpSum | backend/app/pipeline.py:62 | one increment raises the total of the counts by exactly one |
| Tally.BumpKeys | backend/app/pipeline.py:62 | a key already present keeps its place; a new key is inserted last (dictionary insertion order) |
| Tally.BumpKeepsDistinct | backend/app/pipeline.py:62 | the dictionary never lists a key twice |
| Ranking.Insert | backend/app/pipeline.py:100 | one insertion step of the sort adds exactly that pair (multiset) |
| Ranking.InsertSorted | backend/app/pipeline.py:100 | inserting into a list sorted by descending count keeps it sorted |
| Ranking.SortByCount | backend/app/pipeline.py:100 | `sorted(..., key=count, reverse=True)` is sorted by descending count and is a permutation of the items |
| Ranking.TopFive | backend/app/pipeline.py:100 | `[:5]` keeps min(5, n) pairs, the head of the sorted list |
| Ranking.TopFiveIsTop | backend/app/pipeline.py:100 | the kept pairs are sorted, come from the tally, and no pair left out has a higher count than the fifth one kept |
| Ranking.LeftOutOfTopFive | backend/app/pipeline.py:100 | a pair left out of the top five exists only when five were kept, and its count is at most the fifth one's |
| Ranking.WithCountInsert | backend/app/pipeline.py:100 | an insertion places the new pair after every pair with the same count |
| Ranking.SortIsStable | backend/app/pipeline.py:100 | for every count, the pairs with that count keep their original order (ties broken by first insertion) |
| SoapPipeline.Keywords | backend/app/pipeline.py:219-224 | the keyword table; every keyword has at least two characters |
| SoapPipeline.DetectSection | backend/app/pipeline.py:233-235 | the chosen section announces itself on the line (a keyword starts the stripped, lower-cased line or occurs in its first 20 characters), and no section tried before it does; `None` exactly when no section does |
| SoapPipeline.FirstContained | backend/app/pipeline.py:237-240 | the keyword used to cut is the first of the section's list that occurs anywhere in the line |
| SoapPipeline.MarkedKeywordIsContained | backend/app/pipeline.py:234-238 | a keyword that starts the line or occurs in its first 20 characters occurs in the line, so the inner `kw in line_lower` test finds it |
| SoapPipeline.AnnouncedHeaderIsFound | backend/app/pipeline.py:234-238 | on a line where a section announces itself, some keyword of its list passes the `kw in line_lower` test, so the cut always happens |
| SoapPipeline.HeaderEnd | backend/app/pipeline.py:239 | `find(kw) + len(kw)` is the end of the first occurrence of `kw`: `kw` ends there and starts nowhere earlier |
| SoapPipeline.RemoveHeader | backend/app/pipeline.py:234-240 | on a line where the section announces itself, a keyword of its list is found and the raw line is cut just past the first occurrence of the first keyword of the list found in the lower-cased line |
| SoapPipeline.CutAfter | backend/app/pipeline.py:239 | `line[cut:].strip().lstrip(":").strip()` neither starts nor ends with whitespace |
| SoapPipeline.OrPlaceholder | backend/app/pipeline.py:262-263 | a filled section is never empty: non-empty text is kept as it is, and empty text becomes the section's placeholder |
| SoapPipeline.FillsEverySection | backend/app/pipeline.py:261-263 | after the final loop each section is its text, or its placeholder when that text is empty |
| SoapPipeline.ParseSoap | backend/app/pipeline.py:206-265 | all four sections of the parsed note are non-empty |
| SoapPipeline.Paragraphs | backend/app/pipeline.py:251 | the paragraph list has no empty item and is no longer than the parts |
| SoapPipeline.ScanLine | backend/app/pipeline.py:230-246 | one iteration of the line loop is one `Step` of the scan; `Step` is the function that models these lines, and its behaviour is stated by `SoapPipelineProperties.StepAppendsPiece` and `StepExtends` |
| SoapPipeline.ScanLines | backend/app/pipeline.py:226-246 | the line loop computes the scan `Run` (the fold of `Step`, the function that models this loop) from no section and four empty texts; `Run` is characterised by `RunConcat`, `ScanOnlyAppends` and `LinesBeforeFirstHeaderDropped` |
| SoapPipeline.FallBackToParagraphs | backend/app/pipeline.py:249-258 | the fallback block computes `Distribute`, the function that models these lines; what it gives is stated by `FallbackWhenScanEmpty` |
| SoapPipeline.FillEmptySections | backend/app/pipeline.py:261-263 | the closing loop computes `FillPlaceholders`, the function that models these lines; each section is then its text or its placeholder (`FillsEverySection`) |
| SoapPipeline.ParseSoapResponse | backend/app/pipeline.py:206-265 | the method equals `ParseSoap` and every section it returns is non-empty |
| SoapPipeline.GenerateSoapNote | backend/app/pipeline.py:153-204 | no client: the transcription as subjective and three fixed texts; failed call: the other fixed note; reply: the parse of the stripped reply, all four sections non-empty |
| SoapPipelineProperties.RunConcat | backend/app/pipeline.py:229-246 | the scan of `a + b` is the scan of `a` continued over `b` |
| SoapPipelineProperties.PlainLinesCollectNothing | backend/app/pipeline.py:243-246 | without a current section, lines with no header leave the state untouched |
| SoapPipelineProperties.LinesBeforeFirstHeaderDropped | backend/app/pipeline.py:227-246 | lines before the first header are dropped: the scan is as if they were absent |
| SoapPipelineProperties.CollectExtends | backend/app/pipeline.py:243-246 | appending a piece only extends a section at its end |
| SoapPipelineProperties.StepExtends | backend/app/pipeline.py:229-246 | one line never rewrites what a section already holds |
| SoapPipelineProperties.StepAppendsPiece | backend/app/pipeline.py:229-246 | one line switches to the section it announces (or keeps the current one), adds its stripped rest after a single space or as the first text, adds nothing when the rest is empty, and leaves other sections alone |
| SoapPipelineProperties.ScanOnlyAppends | backend/app/pipeline.py:229-246 | order preservation: each section's text after any prefix of the lines is a prefix of its final text |
| SoapPipelineProperties.PlaceholdersNameTheirSection | backend/app/pipeline.py:263 | a placeholder starts with its key's capitalised initial, and the four placeholders differ |
| SoapPipelineProperties.ShortLineIsPlain | backend/app/pipeline.py:234 | a line shorter than two characters never announces a section |
| SoapPipelineProperties.SplitOfBlankIsBlank | backend/app/pipeline.py:226 | splitting blank text gives only blank pieces |
| SoapPipelineProperties.NoParagraphsInBlankParts | backend/app/pipeline.py:251 | blank parts yield no paragraph |
| SoapPipelineProperties.ParagraphOfOnePart | backend/app/pipeline.py:251 | one part gives no paragraph when it is blank, and its `strip()` otherwise |
| SoapPipelineProperties.ParagraphsConcat | backend/app/pipeline.py:251 | the paragraphs of `a + b` are those of `a` followed by those of `b`, so the parts' order is kept |
| SoapPipelineProperties.ParagraphsOfNonBlank | backend/app/pipeline.py:251 | with no blank part, paragraph i is the `strip()` of part i |
| SoapPipelineProperties.BlankLineIsPlain | backend/app/pipeline.py:230-235 | a blank line is never a header |
| SoapPipelineProperties.FallbackWhenScanEmpty | backend/app/pipeline.py:248-263 | when the scan filled no section (a reply of bare headers included): four or more paragraphs go to the sections in order; otherwise the whole text is the subjective and the other three are placeholders |
| SoapPipelineProperties.NoFallbackWhenScanFilled | backend/app/pipeline.py:248-263 | when the scan filled some section, the paragraphs are ignored and only the placeholders are added |
| SoapPipelineProperties.HeaderlessTextUsesParagraphs | backend/app/pipeline.py:249-263 | with no header line: four or more paragraphs go to the sections in order; otherwise the whole text is the subjective and the other three are placeholders |
| SoapPipelineProperties.BlankTextIsSubjective | backend/app/pipeline.py:249-263 | a whitespace-only argument of the parser survives as the subjective (the fill test is on emptiness), and the three other sections are placeholders |
| SoapPipelineProperties.StrippedBlankGetsPlaceholder | backend/app/pipeline.py:192 | a whitespace-only reply is empty once stripped, so a section holding it gets its placeholder |
| SoapPipelineProperties.BlankReplyGivesPlaceholders | backend/app/pipeline.py:192-263 | `generate_soap_note` strips the reply first, so a whitespace-only reply gives the four placeholders |
| SoapPipelineProperties.CutIsStripped | backend/app/pipeline.py:239-246 | the rest of a header line is already stripped when it is appended |
| SoapPipelineProperties.CutAfterIsSlice | backend/app/pipeline.py:239 | what is kept of a header line is a slice of the line after the cut, with only whitespace and colons before it there and only whitespace after it |
| SoapPipelineProperties.LowerCharKeepsSpace | backend/app/pipeline.py:230 | lower-casing keeps whether a character is whitespace |
| SoapPipelineProperties.SubjectiveHeaderCutsRawLine | backend/app/pipeline.py:230-246 | a line whose stripped, lower-cased form opens with "subjective" switches to the subjective section and keeps the raw line cut after position 10 |
| SoapPipelineProperties.OpeningSubjectiveIsDetected | backend/app/pipeline.py:233-235 | a line opening with "subjective" switches to the subjective section |
| SoapPipelineProperties.OpeningSubjectiveEndsAtTen | backend/app/pipeline.py:237-239 | for such a line the cut keyword is "subjective" and it ends at index 10 of the stripped line |
| SoapPipelineProperties.IndentedSubjectiveIsFound | backend/app/pipeline.py:230 | indentation is stripped before the keyword test, so an indented "Subjective" opens the tested line |
| SoapPipelineProperties.CleanRestIsKept | backend/app/pipeline.py:239 | a remainder with no surrounding whitespace and no leading colon is kept unchanged |
| SoapPipelineProperties.IndentedHeaderCut | backend/app/pipeline.py:239 | the index from the stripped line applied to "  Subjective: pain" leaves "ve: pain" |
| SoapPipelineProperties.IndentedHeaderLeavesKeywordTail | backend/app/pipeline.py:230-246 | so that line opens the subjective section with the text "ve: pain" |
| SoapPipelineProperties.EarlySColonIsSubjective | backend/app/pipeline.py:233-235 | "s:" within the first 20 characters makes the line subjective, whatever later section it also announces |
| SoapPipelineProperties.VitalSignsLineIsSubjective | backend/app/pipeline.py:219-235 | "vital signs: bp 120/80" announces the objective section yet is taken as subjective |
| DiaryPipeline.AnalyzeSentiment | backend/app/pipeline.py:13-33 | the label is always one of the three; it is the stripped, lower-cased reply when that is a label, and "neutral" otherwise, without a client or on failure |
| DiaryPipeline.CleanSuggestion | backend/app/pipeline.py:138 | the cleaned line is a suffix of the stripped line and does not start with a star or a space |
| DiaryPipeline.CleanLines | backend/app/pipeline.py:137-141 | one suggestion per non-blank line |
| DiaryPipeline.ParseSuggestions | backend/app/pipeline.py:135-142 | min(3, number of non-blank lines) suggestions, and they are the first of the cleaned lines of the stripped reply, in order |
| DiaryPipeline.GenerateSuggestions | backend/app/pipeline.py:112-144 | at most three; none without a client or entries; on failure exactly "Consider maintaining regular sleep patterns" and "Stay hydrated throughout the day"; otherwise the parse of the reply |
| DiaryPipeline.MoodOf | backend/app/pipeline.py:64-71 | every mood text gets exactly one bucket: positive iff happy/good, negative iff sad/bad and not happy/good, else neutral |
| DiaryPipeline.TimeSeries | backend/app/pipeline.py:82-88 | one point per entry, in input order |
| DiaryPipeline.Earliest | backend/app/pipeline.py:93 | `min(dates)`: a timestamp of some entry, at most every timestamp |
| DiaryPipeline.Latest | backend/app/pipeline.py:94 | `max(dates)`: a timestamp of some entry, at least every timestamp |
| DiaryPipeline.CountSymptomsAndMoods | backend/app/pipeline.py:53-71 | the entry loop with its vocabulary loop computes `Tallies`, built on `TallyWords`, the functions that model these lines; their counts are checked against independent entry counts by `SymptomTallyCounts`, `TallyWordsCounts` and `MoodTallyCounts` |
| DiaryPipeline.CountSentiments | backend/app/pipeline.py:77-79 | the sentiment loop computes `SentimentTally`, the function that models these lines; its counts are checked by `SentimentTallyCounts` |
| DiaryPipeline.BuildTimeSeries | backend/app/pipeline.py:82-88 | the time-series loop computes one point per entry |
| DiaryPipeline.GenerateSummary | backend/app/pipeline.py:35-110 | the method computes `Summarize`, the function that models these lines: the empty summary for no entries, otherwise all seven fields; its totals and bounds are stated by `SummaryTotals` and `CommonSymptomsAreTopCounts` |
| DiaryProperties.InitialSentimentsFacts | backend/app/pipeline.py:77 | the initial histogram lists positive, negative, neutral, all at zero |
| DiaryProperties.SentimentTallyCounts | backend/app/pipeline.py:77-79 | the histogram lists the three labels first, has distinct keys, sums to the number of entries, and counts each label's entries |
| DiaryProperties.VocabularyIsDistinct | backend/app/pipeline.py:59 | the symptom vocabulary lists no word twice |
| DiaryProperties.TallyWordsCounts | backend/app/pipeline.py:60-62 | the vocabulary loop adds one for each listed word found in the text, and nothing for other words |
| DiaryProperties.TallyWordsKeys | backend/app/pipeline.py:60-62 | the vocabulary loop adds only listed words as keys and keeps them distinct |
| DiaryProperties.SymptomTallyCounts | backend/app/pipeline.py:55-62 | each vocabulary symptom's count is the number of symptom entries whose lower-cased text contains it (at most once per entry); other words count zero |
| DiaryProperties.TallyWordsNoMatch | backend/app/pipeline.py:60-62 | the vocabulary loop over a text mentioning none of the words leaves the tally as it was |
| DiaryProperties.MentionedSymptomIsTallied | backend/app/pipeline.py:55-62 | a vocabulary symptom mentioned by a symptom entry puts a pair in the tally |
| DiaryProperties.UnmentionedSymptomsLeaveTallyEmpty | backend/app/pipeline.py:55-62 | when no symptom entry mentions a vocabulary symptom the tally stays empty |
| DiaryProperties.NoCommonSymptomsIffNoMentions | backend/app/pipeline.py:55-101 | `common_symptoms` is empty iff no symptom entry mentions a vocabulary symptom |
| DiaryProperties.SymptomTallyKeys | backend/app/pipeline.py:55-62 | the symptom tally's keys are distinct vocabulary words |
| DiaryProperties.MoodTallyCounts | backend/app/pipeline.py:64-71 | each bucket counts its mood entries, the buckets sum to the number of mood entries, and the keys are labels |
| DiaryProperties.ListedPairIsCount | backend/app/pipeline.py:100 | an item of a dictionary with distinct keys carries that key's count |
| DiaryProperties.CommonSymptomsAreTopCounts | backend/app/pipeline.py:99-101 | `common_symptoms` has at most five vocabulary symptoms with their true counts, in descending count order; no symptom left out outranks the fifth |
| DiaryProperties.TopSymptomsAreCounted | backend/app/pipeline.py:100 | every kept pair is a vocabulary symptom with its count of symptom entries |
| DiaryProperties.SummaryTotals | backend/app/pipeline.py:90-110 | `total_entries` is the number of entries; trend and distribution are the same histogram, starting with the three labels and summing to the number of entries; the time series has one point per entry in order; the date range bounds every timestamp; at most three suggestions |
| DiaryProperties.LowerWordIsNormal | backend/app/pipeline.py:28 | a lower-case word is unchanged by `.strip().lower()` |
| DiaryProperties.LabelsAreNormal | backend/app/pipeline.py:28-31 | each of the three labels is unchanged by `.strip().lower()` |
| DiaryProperties.SentimentRoundTrip | backend/app/pipeline.py:28-31 | a label fed back through the normaliser returns itself |
| DiaryProperties.CleanLinesConcat | backend/app/pipeline.py:137-141 | the suggestion list keeps the order of the lines |
| DiaryProperties.CleanLinesOfNonBlank | backend/app/pipeline.py:137-141 | with no blank line, line i gives suggestion i |
| DiaryProperties.DashLineGivesEmptySuggestion | backend/app/pipeline.py:137-141 | a line of dashes passes the blank test and becomes an empty suggestion |
| DiaryProperties.StarLineSkipsDashPass | backend/app/pipeline.py:138 | a stripped line starting with a star only goes through the star pass |
| DiaryProperties.StarBeforeDashKeepsDash | backend/app/pipeline.py:138 | the dash pass runs before the star pass, so "*-x" becomes "-x" |
| DiaryProperties.CleanSuggestionDropsOnlyBullets | backend/app/pipeline.py:138 | cleaning a suggestion line removes from the front of the stripped line only dashes, stars and spaces |
| AudioUtils.ValidateAudioFormat | backend/app/utils_audio.py:17-36 | accepted iff unreadable as WAV, or rate in [8000, 48000] and 1 or 2 channels; the rate is checked first, so a bad rate is the reason even when the channels are also bad |
| AudioUtils.BetweenFirstCommas | backend/app/utils_audio.py:12 | the second comma-separated piece contains no comma |
| AudioUtils.SecondPiece | backend/app/utils_audio.py:12 | `split(",")[1]` exists iff the text has a comma, and is the text between the first two commas |
| AudioUtils.AudioPayload | backend/app/utils_audio.py:11-12 | a data URL (`data:audio...`) is reduced to the piece between its first two commas; with no comma it is an index error; other input is kept whole |
| AudioUtils.DecodeAudioBase64 | backend/app/utils_audio.py:8-14 | the decoder is applied to that payload; an index error or a decoder failure is the result's error |
| DiaryStore.Transcribe | backend/app/main.py:156-164 | the audio branch succeeds iff decoding succeeds, the format is accepted and the transcriber answers, and then yields that transcription; every other outcome is "Audio transcription failed" (the 400 of line 160 is caught and becomes 500) |
| DiaryStore.ResolveText | backend/app/main.py:154-167 | given text wins; the result text is never empty; no text and no audio gives 400; with audio in place of missing text, a failed transcription gives 500, a truthy one is the text and an empty one gives 400; a 500 only arises that way |
| DiaryStore.EntryTimestamp | backend/app/main.py:170-175 | the parsed timestamp when one is given and parses; the current time when none is given and when it does not parse |
| DiaryStore.WithoutId | backend/app/main.py:242 | the filtered list has only entries with another id, and all of them |
| DiaryStore.PresentIdShrinks | backend/app/main.py:242-244 | deleting an id some entry carries removes at least one entry, so the count changes |
| DiaryStore.AbsentIdKeepsAll | backend/app/main.py:242-244 | deleting an id no entry carries leaves the list exactly as it was |
| DiaryStore.NotFoundIffAbsent | backend/app/main.py:241-245 | nothing is removed iff no entry had the id, and the store is then unchanged |
| DiaryStore.Diary.constructor | backend/app/main.py:73 | the store starts empty |
| DiaryStore.Diary.CreateEntry | backend/app/main.py:144-207 | on success exactly one entry is appended at the end, with the resolved text, the given type, the timestamp and the sentiment, and the response carries it and its suggestions; on failure the store is unchanged |
| DiaryStore.Diary.DeleteEntry | backend/app/main.py:237-247 | the store becomes the filtered list, no entry with the id remains, and 404 is signalled iff none had it (store then unchanged) |
| DiaryStore.Diary.GetSummary | backend/app/main.py:227-234 | the summary of the stored entries when `DiarySummaryResponse` accepts it; otherwise (a non-empty `common_symptoms`) the 500 of the endpoint's `except` |
| DiaryStore.Diary.GetSummaryAsIntended | backend/app/main.py:227-234 | with `common_symptoms` declared as `Dict[str, Any]` items, the endpoint returns the summary of the stored entries for every store |
| DiaryStoreProperties.WithoutIdConcat | backend/app/main.py:242 | filtering distributes over concatenation, so entries keep their relative order |
| DiaryStoreProperties.CreateThenDelete | backend/app/main.py:193-242 | deleting the fresh id of an entry just appended restores the store |
| DiaryStoreProperties.DeleteIsIdempotent | backend/app/main.py:241-245 | a second delete changes nothing and reports not found |
| DiaryStoreProperties.InvalidAudioIsServerError | backend/app/main.py:156-164 | a rejected audio format surfaces as 500, not 400 |
| DiaryStoreProperties.HeadacheEntryIsRejected | backend/app/main.py:227-234 | a store holding one symptom entry "headache" gets the 500 from the summary endpoint |
| DiaryStoreProperties.SummaryRejectedIffSymptomMentioned | backend/app/main.py:227-234 | the summary endpoint answers 500 iff some symptom entry mentions a vocabulary symptom |
| DiaryStoreProperties.EmptyTranscriptionIsMissingText | backend/app/main.py:162-167 | an empty transcription is refused with 400 |

## Left out

- Language-model calls: prompts, entity context (`health_entities`), the `recent_entries[-10:]` prompt text, temperature, model output. Each reply is an input, `NoClient`, `Failed` or `Replied(content)`; a `None` content that raises on `.strip()` counts as `Failed`.
- `str.lower()` is modelled for ASCII letters only. `capitalize()` likewise: Unicode case mapping is not modelled.
- Base64 decoding (RFC 4648 section 4), `wave.open` header reading and Azure speech transcription are parameters: functions that return `None` where the library raises.
- `datetime.now()`, `fromisoformat` (including the "Z" to "+00:00" rewrite) and `isoformat()` are parameters or left out. Timestamps are integers.
- `uuid4()` is the `id` parameter of `CreateEntry`. `CreateThenDelete` requires that id to be fresh.
- Entries are stored with all five keys present, as `create_diary_entry` builds them. The `.get(..., default)` fallbacks of `generate_summary` are therefore not modelled.
- The `detail` messages of the HTTP errors are not modelled, nor the text of the `validate_audio_format` messages beyond their fields. Errors are `CreateError` values with their status codes.
- The outer `except Exception` (500 "Error creating diary entry") of `create_diary_entry` is not modelled: nothing in the modelled body raises outside the audio branch.
- Pydantic response shapes (`DiaryEntryResponse`, `SOAPNote`) and their validation. The entry response and the note are plain datatypes. Of `DiarySummaryResponse` (backend/app/schemas.py:26-34) only the outcome is modelled, by `DiaryStore.ResponseAccepts`: `common_symptoms` is declared `List[Dict[str, int]]` but its items carry the symptom name under "symptom", so a non-empty list is refused.
- DiaryStore.Diary.GetSummary: does not model the 500 that `min(dates)` raises when stored timestamps mix naive and timezone-aware datetimes, because timestamps are integers here.
- `get_audio_duration`: floating-point arithmetic.
- The hard-coded confidence constants of the clinical-note endpoints, `transcribe_clinical_note` and `text_to_soap`: calls into the pipelines plus service plumbing.
- FastAPI routing, CORS, `.env` loading, the root and health endpoints and the request-size patch. `get_diary_entries` is a read-only listing.
- Concurrency between requests on the shared list is not modelled. Each method runs alone.
- SoapPipeline.ParseSoap: its own contract states only that every section is non-empty. The rest of what the parser promises is in the `SoapPipelineProperties` lemmas.
- DiaryPipeline.CleanLines: its contract states only the count. Order and contents are in `DiaryProperties.CleanLinesOfNonBlank` and `CleanLinesConcat`.

## Findings

| source | as written | input that shows it | evidently intended | confidence | as-written member | corrected member |
|---|---|---|---|---|---|---|
| backend/app/schemas.py:31 | `common_symptoms: List[Dict[str, int]]`, while each item is `{"symptom": name, "count": n}` (backend/app/pipeline.py:99-101), so validation fails and `get_diary_summary` answers 500 | one stored entry of type "symptom" with text "headache" | items typed `Dict[str, Any]`, like the other lists of the response, so the summary is returned | high (read from the code; not executed) | DiaryStoreProperties.HeadacheEntryIsRejected | DiaryStore.Diary.GetSummaryAsIntended |
