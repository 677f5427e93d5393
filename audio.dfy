/**
 * backend/app/utils_audio.py: which decoded uploads are accepted
 * (`validate_audio_format`) and which part of a data URL is decoded
 * (`decode_audio_base64`). Reading a WAV header and base64 decoding are
 * library calls; the model receives their outcomes.
 */
module AudioUtils {
  import opened Wrappers
  import opened Text

  type Bytes = seq<bv8>

  /** The three header fields `wave.open` reports for a WAV file. */
  datatype WavHeader = WavHeader(frames: nat, sampleRate: int, channels: int)

  /** The verdict of `validate_audio_format`, with the fields its message reports. */
  datatype AudioCheck =
    | ValidWav(sampleRate: int, channels: int, frames: nat)
    | UnsupportedSampleRate(rate: int)
    | UnsupportedChannels(count: int)
    | AcceptedNonWav
  {
    /** The boolean half of the returned tuple. */
    predicate IsValid() {
      ValidWav? || AcceptedNonWav?
    }
  }

  const MinSampleRate := 8000
  const MaxSampleRate := 48000

  predicate RateSupported(rate: int) {
    MinSampleRate <= rate <= MaxSampleRate
  }

  predicate ChannelsSupported(channels: int) {
    channels == 1 || channels == 2
  }

  /**
   * `validate_audio_format`, given what `wave.open` made of the bytes (`None`
   * when it raised). The sample rate is checked before the channel count, and
   * input that is not a readable WAV file is accepted.
   */
  function ValidateAudioFormat(header: Option<WavHeader>): (r: AudioCheck)
    ensures r.IsValid() <==> (header.None?
      || (RateSupported(header.value.sampleRate) && ChannelsSupported(header.value.channels)))
    ensures header.None? ==> r == AcceptedNonWav
    ensures header.Some? && !RateSupported(header.value.sampleRate)
      ==> r == UnsupportedSampleRate(header.value.sampleRate)
    ensures header.Some? && RateSupported(header.value.sampleRate) && !ChannelsSupported(header.value.channels)
      ==> r == UnsupportedChannels(header.value.channels)
  {
    if header.None? then AcceptedNonWav
    else
      var h := header.value;
      if h.sampleRate < 8000 || h.sampleRate > 48000 then UnsupportedSampleRate(h.sampleRate)
      else if h.channels !in [1, 2] then UnsupportedChannels(h.channels)
      else ValidWav(h.sampleRate, h.channels, h.frames)
  }

  datatype DecodeError =
    | IndexError     // a data URL without a comma: `split(",")[1]` is out of range
    | InvalidBase64  // `base64.b64decode` raised

  /** The text between the first comma and the next one (or the end). */
  function BetweenFirstCommas(s: string): (r: string)
    requires Contains(s, ",")
    ensures !Contains(r, ",")
  {
    var t := s[Find(s, ",") + 1..];
    var j := Find(t, ",");
    if j < 0 then t
    else
      assert !Contains(t[..j], ",") by {
        if Contains(t[..j], ",") {
          OccursInPrefix(t, ",", j, Find(t[..j], ","));
        }
      }
      t[..j]
  }

  /**
   * `s.split(",")` has a second piece exactly when `s` holds a comma, and that
   * piece is the text between the first two commas.
   */
  lemma SecondPiece(s: string)
    ensures |Split(s, ",")| > 1 <==> Contains(s, ",")
    ensures Contains(s, ",") ==> Split(s, ",")[1] == BetweenFirstCommas(s)
  {
    if Contains(s, ",") {
      var t := s[Find(s, ",") + 1..];
      assert Split(s, ",") == [s[..Find(s, ",")]] + Split(t, ",");
      var j := Find(t, ",");
      if j < 0 {
        assert Split(t, ",") == [t];
      } else {
        assert Split(t, ",")[0] == t[..j];
      }
    } else {
      SplitWithoutSeparator(s, ",");
    }
  }

  /**
   * The text `decode_audio_base64` hands to the decoder: a data URL
   * (`data:audio...`) is cut at its commas and the second piece is taken.
   */
  function AudioPayload(s: string): (r: Result<string, DecodeError>)
    ensures !StartsWith(s, "data:audio") ==> r == Success(s)
    ensures StartsWith(s, "data:audio") && !Contains(s, ",") ==> r == Failure(IndexError)
    ensures StartsWith(s, "data:audio") && Contains(s, ",") ==> r == Success(BetweenFirstCommas(s))
  {
    if StartsWith(s, "data:audio") then
      var parts := Split(s, ",");
      SecondPiece(s);
      if |parts| > 1 then Success(parts[1]) else Failure(IndexError)
    else Success(s)
  }

  /** `decode_audio_base64`, given the base64 decoder (`None` when it raises). */
  function DecodeAudioBase64(s: string, b64decode: string -> Option<Bytes>): (r: Result<Bytes, DecodeError>)
    ensures AudioPayload(s).Failure? ==> r == Failure(AudioPayload(s).error)
    ensures AudioPayload(s).Success? && b64decode(AudioPayload(s).value).None? ==> r == Failure(InvalidBase64)
    ensures AudioPayload(s).Success? && b64decode(AudioPayload(s).value).Some?
      ==> r == Success(b64decode(AudioPayload(s).value).value)
  {
    var payload := AudioPayload(s);
    if payload.Failure? then Failure(payload.error)
    else
      var bytes := b64decode(payload.value);
      if bytes.None? then Failure(InvalidBase64) else Success(bytes.value)
  }
}
