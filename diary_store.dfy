/**
 * The in-memory diary of backend/app/main.py: the module-level list
 * `diary_entries`, appended to by `create_diary_entry` and replaced by a
 * filtered copy in `delete_diary_entry`.
 */
module DiaryStore {
  import opened Wrappers
  import opened Llm
  import opened AudioUtils
  import opened DiaryPipeline

  /** Python truthiness of an optional form field: present and not empty. */
  predicate Truthy(v: Option<string>) {
    v.Some? && v.value != ""
  }

  /**
   * What the audio branch calls out to: the base64 decoder, `wave.open` on the
   * decoded bytes, and the speech service (`None` where each raises).
   */
  datatype AudioServices = AudioServices(
    b64decode: string -> Option<Bytes>,
    readWav: Bytes -> Option<WavHeader>,
    transcribe: Bytes -> Option<string>)

  /** Why `create_diary_entry` refuses a request. */
  datatype CreateError =
    | AudioTranscriptionFailed  // anything raised in the audio branch
    | MissingText               // no text and no usable transcription

  function CreateStatus(e: CreateError): int {
    match e
    case AudioTranscriptionFailed => 500
    case MissingText => 400
  }

  /** Why `get_diary_summary` answers with an error. */
  datatype SummaryError =
    | SummaryRejected  // the response model refused the summary dictionary

  function SummaryStatus(e: SummaryError): int {
    match e
    case SummaryRejected => 500
  }

  /**
   * Whether `DiarySummaryResponse(**summary)` accepts the summary. Every field
   * fits its declared type except `common_symptoms`, declared a list of
   * `Dict[str, int]`: each of its items holds the symptom's name under
   * "symptom", and a symptom name is never an integer, so the response is
   * accepted exactly when that list is empty.
   */
  predicate ResponseAccepts(s: Summary) {
    s.commonSymptoms == []
  }

  /**
   * The audio branch: decode, validate, transcribe. Every failure, the
   * rejected format included, is caught by the branch's `except Exception`
   * and becomes the same 500 error.
   */
  function Transcribe(audioData: string, svc: AudioServices): (r: Result<Option<string>, CreateError>)
    ensures r.Failure? ==> r.error == AudioTranscriptionFailed
    ensures DecodeAudioBase64(audioData, svc.b64decode).Failure? ==> r.Failure?
    ensures DecodeAudioBase64(audioData, svc.b64decode).Success?
      && !ValidateAudioFormat(svc.readWav(DecodeAudioBase64(audioData, svc.b64decode).value)).IsValid()
      ==> r.Failure?
    ensures r.Success? <==> (DecodeAudioBase64(audioData, svc.b64decode).Success?
      && ValidateAudioFormat(svc.readWav(DecodeAudioBase64(audioData, svc.b64decode).value)).IsValid()
      && svc.transcribe(DecodeAudioBase64(audioData, svc.b64decode).value).Some?)
    ensures r.Success? ==> r.value == svc.transcribe(DecodeAudioBase64(audioData, svc.b64decode).value)
  {
    var bytes := DecodeAudioBase64(audioData, svc.b64decode);
    if bytes.Failure? then Failure(AudioTranscriptionFailed)
    else if !ValidateAudioFormat(svc.readWav(bytes.value)).IsValid() then Failure(AudioTranscriptionFailed)
    else
      var text := svc.transcribe(bytes.value);
      if text.None? then Failure(AudioTranscriptionFailed) else Success(Some(text.value))
  }

  /**
   * The entry text `create_diary_entry` settles on: the given text when it is
   * truthy; otherwise the transcription of truthy audio; a request left with
   * no text fails with 400.
   */
  function ResolveText(text: Option<string>, audioData: Option<string>, svc: AudioServices): (r: Result<string, CreateError>)
    ensures Truthy(text) ==> r == Success(text.value)
    ensures r.Success? ==> r.value != ""
    ensures !Truthy(text) && !Truthy(audioData) ==> r == Failure(MissingText)
    ensures r == Failure(AudioTranscriptionFailed) ==> !Truthy(text) && Truthy(audioData)
    ensures !Truthy(text) && Truthy(audioData) ==>
      var t := Transcribe(audioData.value, svc);
      r == if t.Failure? then Failure(AudioTranscriptionFailed)
           else if Truthy(t.value) then Success(t.value.value)
           else Failure(MissingText)
  {
    var transcribed :=
      if Truthy(audioData) && !Truthy(text) then Transcribe(audioData.value, svc)
      else Success(text);
    if transcribed.Failure? then Failure(transcribed.error)
    else if !Truthy(transcribed.value) then Failure(MissingText)
    else Success(transcribed.value.value)
  }

  /**
   * The entry's timestamp: the parsed `timestamp` field when it is truthy and
   * parses, otherwise the current time.
   */
  function EntryTimestamp(timestamp: Option<string>, now: int, parseTime: string -> Option<int>): (r: int)
    ensures !Truthy(timestamp) ==> r == now
    ensures Truthy(timestamp) && parseTime(timestamp.value).Some? ==> r == parseTime(timestamp.value).value
    ensures Truthy(timestamp) && parseTime(timestamp.value).None? ==> r == now
  {
    if Truthy(timestamp) && parseTime(timestamp.value).Some? then parseTime(timestamp.value).value else now
  }

  /** `DiaryEntryResponse` as `create_diary_entry` fills it. */
  datatype EntryResponse = EntryResponse(entry: DiaryEntry, suggestions: seq<string>)

  /** `delete_diary_entry`: the store without every entry carrying `id`. */
  function WithoutId(entries: seq<DiaryEntry>, id: string): (r: seq<DiaryEntry>)
    ensures |r| <= |entries|
    ensures forall e :: e in r ==> e in entries && e.id != id
    ensures forall e :: e in entries && e.id != id ==> e in r
    decreases |entries|
  {
    if entries == [] then []
    else if entries[0].id != id then [entries[0]] + WithoutId(entries[1..], id)
    else WithoutId(entries[1..], id)
  }

  /** Whether some stored entry carries `id`. */
  predicate HasId(entries: seq<DiaryEntry>, id: string) {
    exists i :: 0 <= i < |entries| && entries[i].id == id
  }

  /** Past a first entry that does not carry `id`, the id is carried in the tail or nowhere. */
  lemma HasIdInTail(entries: seq<DiaryEntry>, id: string)
    requires entries != [] && entries[0].id != id
    ensures HasId(entries, id) <==> HasId(entries[1..], id)
  {
    if HasId(entries, id) {
      var i :| 0 <= i < |entries| && entries[i].id == id;
      assert entries[1..][i - 1].id == id;
    }
    if HasId(entries[1..], id) {
      var i :| 0 <= i < |entries| - 1 && entries[1..][i].id == id;
      assert entries[i + 1].id == id;
    }
  }

  /** Deleting an id some entry carries removes at least one entry. */
  lemma {:induction false} PresentIdShrinks(entries: seq<DiaryEntry>, id: string)
    requires HasId(entries, id)
    ensures |WithoutId(entries, id)| < |entries|
    decreases |entries|
  {
    if entries[0].id != id {
      HasIdInTail(entries, id);
      PresentIdShrinks(entries[1..], id);
      assert WithoutId(entries, id) == [entries[0]] + WithoutId(entries[1..], id);
    }
  }

  /** Deleting an id no entry carries changes nothing. */
  lemma {:induction false} AbsentIdKeepsAll(entries: seq<DiaryEntry>, id: string)
    requires !HasId(entries, id)
    ensures WithoutId(entries, id) == entries
    decreases |entries|
  {
    if entries != [] {
      assert entries[0].id != id;
      HasIdInTail(entries, id);
      AbsentIdKeepsAll(entries[1..], id);
      assert WithoutId(entries, id) == [entries[0]] + entries[1..];
    }
  }

  /** Nothing is removed exactly when no entry carries the id, and the store is then unchanged. */
  lemma NotFoundIffAbsent(entries: seq<DiaryEntry>, id: string)
    ensures |WithoutId(entries, id)| == |entries| <==> !HasId(entries, id)
    ensures !HasId(entries, id) ==> WithoutId(entries, id) == entries
  {
    if HasId(entries, id) {
      PresentIdShrinks(entries, id);
    } else {
      AbsentIdKeepsAll(entries, id);
    }
  }

  class Diary {
    /** `diary_entries`, in insertion order. */
    var entries: seq<DiaryEntry>

    constructor()
      ensures entries == []
    {
      entries := [];
    }

    /**
     * `create_diary_entry`. `id` stands for `uuid4()`, `now` for
     * `datetime.now()`, `parseTime` for the ISO parser; the two replies are those
     * of the sentiment call and of the suggestions call. On success exactly one
     * entry is appended, carrying the resolved text, the type and the
     * sentiment; on failure nothing changes.
     */
    method CreateEntry(
      text: Option<string>, audioData: Option<string>, entryType: string, timestamp: Option<string>,
      id: string, now: int, parseTime: string -> Option<int>, svc: AudioServices,
      sentimentReply: LlmReply, suggestionsReply: LlmReply)
      returns (r: Result<EntryResponse, CreateError>)
      modifies this
      ensures ResolveText(text, audioData, svc).Failure? ==>
        r == Failure(ResolveText(text, audioData, svc).error) && entries == old(entries)
      ensures ResolveText(text, audioData, svc).Success? ==>
        var entry := DiaryEntry(id, ResolveText(text, audioData, svc).value, entryType,
          EntryTimestamp(timestamp, now, parseTime), AnalyzeSentiment(sentimentReply));
        && entries == old(entries) + [entry]
        && r == Success(EntryResponse(entry, GenerateSuggestions([entry], suggestionsReply)))
    {
      var transcribedText := text;
      if Truthy(audioData) && !Truthy(text) {
        var transcription := Transcribe(audioData.value, svc);
        if transcription.Failure? {
          return Failure(transcription.error);
        }
        transcribedText := transcription.value;
      }
      if !Truthy(transcribedText) {
        return Failure(MissingText);
      }
      var entryTimestamp := EntryTimestamp(timestamp, now, parseTime);
      var sentiment := AnalyzeSentiment(sentimentReply);
      var entry := DiaryEntry(id, transcribedText.value, entryType, entryTimestamp, sentiment);
      var suggestions := GenerateSuggestions([entry], suggestionsReply);
      entries := entries + [entry];
      r := Success(EntryResponse(entry, suggestions));
    }

    /**
     * `delete_diary_entry`: the store keeps the entries with another id, in
     * order; the answer is 404 exactly when nothing was removed.
     */
    method DeleteEntry(id: string) returns (notFound: bool)
      modifies this
      ensures entries == WithoutId(old(entries), id)
      ensures !HasId(entries, id)
      ensures notFound <==> !HasId(old(entries), id)
      ensures notFound ==> entries == old(entries)
    {
      NotFoundIffAbsent(entries, id);
      var originalCount := |entries|;
      entries := WithoutId(entries, id);
      notFound := |entries| == originalCount;
    }

    /**
     * `get_diary_summary`: the summary of the stored entries when the response
     * model accepts it, otherwise the 500 its `except Exception` gives.
     */
    method GetSummary(reply: LlmReply) returns (r: Result<Summary, SummaryError>)
      ensures ResponseAccepts(Summarize(entries, reply)) ==> r == Success(Summarize(entries, reply))
      ensures !ResponseAccepts(Summarize(entries, reply)) ==> r == Failure(SummaryRejected)
    {
      var summary := GenerateSummary(entries, reply);
      if summary.commonSymptoms != [] {
        return Failure(SummaryRejected);
      }
      r := Success(summary);
    }

    /**
     * `get_diary_summary` as evidently intended, with `common_symptoms` declared
     * a list of `Dict[str, Any]` so that the symptom names pass: the summary of
     * the stored entries, whatever they mention.
     */
    method GetSummaryAsIntended(reply: LlmReply) returns (s: Summary)
      ensures s == Summarize(entries, reply)
    {
      s := GenerateSummary(entries, reply);
    }
  }
}

/** What the diary store promises, proved about `DiaryStore.WithoutId` and `DiaryStore.ResolveText`. */
module DiaryStoreProperties {
  import opened Wrappers
  import opened Text
  import opened AudioUtils
  import opened DiaryPipeline
  import opened Llm
  import opened DiaryStore
  import opened DiaryProperties

  /** Deleting distributes over concatenation, so relative order is kept. */
  lemma {:induction false} WithoutIdConcat(a: seq<DiaryEntry>, b: seq<DiaryEntry>, id: string)
    ensures WithoutId(a + b, id) == WithoutId(a, id) + WithoutId(b, id)
    decreases |a|
  {
    if a == [] {
      assert a + b == b;
    } else {
      assert (a + b)[1..] == a[1..] + b;
      WithoutIdConcat(a[1..], b, id);
    }
  }

  /** Deleting the id of an entry just created (with a fresh id) restores the store. */
  lemma CreateThenDelete(entries: seq<DiaryEntry>, entry: DiaryEntry)
    requires !HasId(entries, entry.id)
    ensures WithoutId(entries + [entry], entry.id) == entries
  {
    WithoutIdConcat(entries, [entry], entry.id);
    NotFoundIffAbsent(entries, entry.id);
    assert WithoutId([entry], entry.id) == [];
  }

  /** Deleting twice is deleting once, and the second delete reports not found. */
  lemma DeleteIsIdempotent(entries: seq<DiaryEntry>, id: string)
    ensures WithoutId(WithoutId(entries, id), id) == WithoutId(entries, id)
    ensures |WithoutId(WithoutId(entries, id), id)| == |WithoutId(entries, id)|
  {
    NotFoundIffAbsent(WithoutId(entries, id), id);
  }

  /**
   * A rejected audio format surfaces as the 500 "Audio transcription failed",
   * not as the 400 the validation raises: the branch's `except Exception`
   * catches that `HTTPException` too.
   */
  lemma InvalidAudioIsServerError(text: Option<string>, audioData: Option<string>, svc: AudioServices)
    requires !Truthy(text) && Truthy(audioData)
    requires DecodeAudioBase64(audioData.value, svc.b64decode).Success?
    requires !ValidateAudioFormat(svc.readWav(DecodeAudioBase64(audioData.value, svc.b64decode).value)).IsValid()
    ensures ResolveText(text, audioData, svc) == Failure(AudioTranscriptionFailed)
    ensures CreateStatus(ResolveText(text, audioData, svc).error) == 500
  {
  }

  /**
   * An empty transcription is refused with 400, as if no audio had been sent.
   * The speech service of the repository raises instead of returning empty
   * text (backend/app/azure_clients.py:185-187), which ends in the 500 above,
   * so this 400 arises only for a transcriber that can return "".
   */
  lemma EmptyTranscriptionIsMissingText(text: Option<string>, audioData: Option<string>, svc: AudioServices)
    requires !Truthy(text) && Truthy(audioData)
    requires Transcribe(audioData.value, svc) == Success(Some(""))
    ensures ResolveText(text, audioData, svc) == Failure(MissingText)
    ensures CreateStatus(ResolveText(text, audioData, svc).error) == 400
  {
  }

  /**
   * The summary endpoint answers 500 exactly when some symptom entry mentions a
   * vocabulary symptom, since only then is `common_symptoms` non-empty.
   */
  lemma SummaryRejectedIffSymptomMentioned(entries: seq<DiaryEntry>, reply: LlmReply)
    ensures !ResponseAccepts(Summarize(entries, reply)) <==>
      exists w :: w in Vocabulary && SymptomEntries(entries, w) > 0
  {
    NoCommonSymptomsIffNoMentions(entries, reply);
  }

  /**
   * One symptom entry reading "headache" is enough for the summary endpoint to
   * answer 500: the item it puts in `common_symptoms` names the symptom, which
   * a `Dict[str, int]` refuses.
   */
  lemma HeadacheEntryIsRejected(e: DiaryEntry, reply: LlmReply)
    requires e.entryType == "symptom" && e.text == "headache"
    ensures !ResponseAccepts(Summarize([e], reply))
  {
    LowerUnchanged("headache");
    ContainsAt("headache", "headache", 0);
    assert [e][..0] == [];
    assert SymptomEntries([e], "headache") == 1;
    assert Vocabulary[0] == "headache";
    SummaryRejectedIffSymptomMentioned([e], reply);
  }
}
