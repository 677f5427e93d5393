/**
 * The SOAP half of backend/app/pipeline.py: `SOAPPipeline._parse_soap_response`,
 * which cuts a language-model reply into the four sections of a SOAP note
 * (Subjective, Objective, Assessment, Plan), and `generate_soap_note`, which
 * calls it or falls back to fixed texts.
 */
module SoapPipeline {
  import opened Wrappers
  import opened Text
  import opened Llm

  datatype Section = Subjective | Objective | Assessment | Plan

  /** The order in which the parser tries the sections (the order of its keyword table). */
  const Sections: seq<Section> := [Subjective, Objective, Assessment, Plan]

  function Rank(s: Section): (r: nat)
    ensures r < |Sections|
  {
    match s
    case Subjective => 0
    case Objective => 1
    case Assessment => 2
    case Plan => 3
  }

  /** The dictionary key of a section. */
  function Name(s: Section): string {
    match s
    case Subjective => "subjective"
    case Objective => "objective"
    case Assessment => "assessment"
    case Plan => "plan"
  }

  /** The header keywords of each section, in the order they are tried. */
  function Keywords(s: Section): (r: seq<string>)
    ensures forall k :: 0 <= k < |r| ==> |r[k]| >= 2
  {
    match s
    case Subjective => ["subjective", "s:", "chief complaint", "history of present illness"]
    case Objective => ["objective", "o:", "physical examination", "vital signs", "exam"]
    case Assessment => ["assessment", "a:", "impression", "diagnosis", "clinical assessment"]
    case Plan => ["plan", "p:", "treatment", "follow-up", "management"]
  }

  /** The four-key result dictionary: one text per section. */
  datatype SoapNote = SoapNote(subjective: string, objective: string, assessment: string, plan: string)
  {
    function Get(s: Section): string {
      match s
      case Subjective => subjective
      case Objective => objective
      case Assessment => assessment
      case Plan => plan
    }

    function With(s: Section, v: string): (r: SoapNote)
      ensures forall t: Section :: r.Get(t) == if t == s then v else Get(t)
    {
      match s
      case Subjective => this.(subjective := v)
      case Objective => this.(objective := v)
      case Assessment => this.(assessment := v)
      case Plan => this.(plan := v)
    }

    /** `not any(sections.values())`. */
    predicate IsEmpty() {
      subjective == "" && objective == "" && assessment == "" && plan == ""
    }
  }

  const EmptyNote := SoapNote("", "", "", "")

  // ---------------------------------------------------------------------------
  // Recognising a header line
  // ---------------------------------------------------------------------------

  /**
   * Keyword `kw` marks the stripped, lower-cased line `lineLower` as a header when
   * the line starts with it or it occurs within the line's first 20 characters.
   */
  predicate Marks(lineLower: string, kw: string) {
    StartsWith(lineLower, kw) || Contains(Take(lineLower, 20), kw)
  }

  /**
   * A section announces itself on a line when one of its keywords marks the line
   * (the `any(...)` over the section's keyword list).
   */
  predicate Announces(s: Section, lineLower: string) {
    exists k :: 0 <= k < |Keywords(s)| && Marks(lineLower, Keywords(s)[k])
  }

  /**
   * The section a line switches to: the first section, in the order Subjective,
   * Objective, Assessment, Plan, that announces itself on the line (the loop over
   * the keyword table stops there); `None` when no section does.
   */
  function DetectSection(lineLower: string): (r: Option<Section>)
    ensures r.None? <==> forall s: Section :: !Announces(s, lineLower)
    ensures r.Some? ==> (Announces(r.value, lineLower)
      && forall t: Section :: Rank(t) < Rank(r.value) ==> !Announces(t, lineLower))
  {
    if Announces(Subjective, lineLower) then Some(Subjective)
    else if Announces(Objective, lineLower) then Some(Objective)
    else if Announces(Assessment, lineLower) then Some(Assessment)
    else if Announces(Plan, lineLower) then Some(Plan)
    else None
  }

  // ---------------------------------------------------------------------------
  // Removing the header from a line
  // ---------------------------------------------------------------------------

  /** The index of the first keyword of the list that occurs anywhere in the line. */
  function FirstContained(lineLower: string, keywords: seq<string>): (r: Option<nat>)
    ensures r.None? ==> forall j :: 0 <= j < |keywords| ==> !Contains(lineLower, keywords[j])
    ensures r.Some? ==> (r.value < |keywords| && Contains(lineLower, keywords[r.value])
      && forall j :: 0 <= j < r.value ==> !Contains(lineLower, keywords[j]))
    decreases |keywords|
  {
    if keywords == [] then None
    else if Contains(lineLower, keywords[0]) then Some(0)
    else
      match FirstContained(lineLower, keywords[1..])
      case None => None
      case Some(k) => Some(k + 1)
  }

  /**
   * The line once its header is removed: the position just past the first keyword
   * of the section found in the stripped, lower-cased line is applied to the
   * original (unstripped) line, and the rest is stripped, freed of leading colons
   * and stripped again.
   */
  function RemoveHeader(line: string, lineLower: string, s: Section): (r: string)
    ensures Announces(s, lineLower) ==>
      var k := FirstContained(lineLower, Keywords(s));
      k.Some? && r == CutAfter(line, HeaderEnd(lineLower, Keywords(s)[k.value]))
  {
    AnnouncedHeaderIsFound(s, lineLower);
    var k := FirstContained(lineLower, Keywords(s));
    if k.None? then line
    else CutAfter(line, HeaderEnd(lineLower, Keywords(s)[k.value]))
  }

  /** On a line that announces a section, one of the section's keywords is found in the line. */
  lemma AnnouncedHeaderIsFound(s: Section, lineLower: string)
    ensures Announces(s, lineLower) ==> FirstContained(lineLower, Keywords(s)).Some?
  {
    if Announces(s, lineLower) {
      var m :| 0 <= m < |Keywords(s)| && Marks(lineLower, Keywords(s)[m]);
      MarkedListHasFirstContained(lineLower, Keywords(s), m);
    }
  }

  /** Once one keyword of a list marks the line, some keyword of the list is found in it. */
  lemma MarkedListHasFirstContained(lineLower: string, keywords: seq<string>, m: nat)
    requires m < |keywords| && Marks(lineLower, keywords[m])
    ensures FirstContained(lineLower, keywords).Some?
  {
    MarkedKeywordIsContained(lineLower, keywords[m]);
  }

  /** A keyword that marks a line as a header occurs in the line. */
  lemma MarkedKeywordIsContained(lineLower: string, kw: string)
    requires Marks(lineLower, kw)
    ensures Contains(lineLower, kw)
  {
    if StartsWith(lineLower, kw) {
      assert OccursAt(lineLower, kw, 0);
      ContainsAt(lineLower, kw, 0);
    } else {
      var front := Take(lineLower, 20);
      ContainsIffOccurs(front, kw);
      var j: nat :| OccursAt(front, kw, j);
      if 20 <= |lineLower| {
        OccursInPrefix(lineLower, kw, 20, j);
      }
      ContainsAt(lineLower, kw, j);
    }
  }

  /** The position just past the first occurrence of a keyword the line contains. */
  function HeaderEnd(lineLower: string, kw: string): (r: nat)
    requires Contains(lineLower, kw)
    ensures |kw| <= r <= |lineLower| && OccursAt(lineLower, kw, r - |kw|)
    ensures forall j :: 0 <= j < r - |kw| ==> !OccursAt(lineLower, kw, j)
  {
    Find(lineLower, kw) + |kw|
  }

  /** `line[cut:].strip().lstrip(":").strip()`. */
  function CutAfter(line: string, cut: nat): (r: string)
    ensures r == [] || (!IsSpace(r[0]) && !IsSpace(r[|r| - 1]))
  {
    Strip(TrimLeft(Strip(Drop(line, cut)), {':'}))
  }

  // ---------------------------------------------------------------------------
  // The line scan
  // ---------------------------------------------------------------------------

  /** `current_section` and `sections` between two lines of the scan. */
  datatype ScanState = ScanState(current: Option<Section>, note: SoapNote)

  const Start := ScanState(None, EmptyNote)

  /** Adding a non-empty piece to a section: one space separates it from earlier text. */
  function Append(acc: string, piece: string): string {
    if acc == "" then piece else acc + " " + piece
  }

  /** The section the scan is in after a line: the one the line announces, if any. */
  function Switch(current: Option<Section>, lineLower: string): Option<Section> {
    var found := DetectSection(lineLower);
    if found.Some? then found else current
  }

  /** What is left of a line once a header it carries is removed. */
  function Rest(line: string, lineLower: string): string {
    var found := DetectSection(lineLower);
    if found.Some? then RemoveHeader(line, lineLower, found.value) else line
  }

  /** Appending a non-empty piece to the current section; without a current section the piece is dropped. */
  function Collect(current: Option<Section>, piece: string, note: SoapNote): SoapNote {
    if current.Some? && piece != "" then note.With(current.value, Append(note.Get(current.value), piece))
    else note
  }

  /** One iteration of the line loop. */
  function Step(st: ScanState, line: string): ScanState {
    var lineLower := Strip(Lower(line));
    var current := Switch(st.current, lineLower);
    ScanState(current, Collect(current, Strip(Rest(line, lineLower)), st.note))
  }

  /** The scan state after the given lines, run from state `st`. */
  function Run(st: ScanState, lines: seq<string>): ScanState
    decreases |lines|
  {
    if lines == [] then st
    else Step(Run(st, lines[..|lines| - 1]), lines[|lines| - 1])
  }

  /** One more line extends the scan by one step. */
  lemma RunSnoc(lines: seq<string>, i: nat)
    requires i < |lines|
    ensures Run(Start, lines[..i + 1]) == Step(Run(Start, lines[..i]), lines[i])
  {
    assert lines[..i + 1][..i] == lines[..i];
  }

  // ---------------------------------------------------------------------------
  // Paragraph fallback and placeholders
  // ---------------------------------------------------------------------------

  /** `[p.strip() for p in parts if p.strip()]`. */
  function Paragraphs(parts: seq<string>): (r: seq<string>)
    ensures |r| <= |parts|
    ensures forall i :: 0 <= i < |r| ==> r[i] != ""
    decreases |parts|
  {
    if parts == [] then []
    else
      var p := Strip(parts[0]);
      (if p != "" then [p] else []) + Paragraphs(parts[1..])
  }

  /** When the scan filled no section: four paragraphs go positionally, otherwise the whole text is the subjective. */
  function Distribute(text: string, note: SoapNote): SoapNote {
    if !note.IsEmpty() then note
    else
      var ps := Paragraphs(Split(text, "\n\n"));
      if |ps| >= 4 then SoapNote(ps[0], ps[1], ps[2], ps[3])
      else note.With(Subjective, text)
  }

  function UpperChar(c: char): char {
    if 'a' <= c <= 'z' then (c as int - 32) as char else c
  }

  /** `s.capitalize()` on ASCII text. */
  function Capitalize(s: string): string {
    if s == [] then [] else [UpperChar(s[0])] + Lower(s[1..])
  }

  /**
   * The text that stands in for a section left empty,
   * `f"{section.capitalize()} information to be documented."` for its key.
   */
  function Placeholder(s: Section): string {
    Capitalize(Name(s)) + " information to be documented."
  }

  function OrPlaceholder(v: string, s: Section): (r: string)
    ensures r != ""
    ensures v != "" ==> r == v
    ensures v == "" ==> r == Placeholder(s)
  {
    if v == "" then Placeholder(s) else v
  }

  /** Notes that agree on every section are the same note. */
  lemma NotesAgree(a: SoapNote, b: SoapNote)
    requires forall s: Section :: a.Get(s) == b.Get(s)
    ensures a == b
  {
    assert a.Get(Subjective) == b.Get(Subjective) && a.Get(Objective) == b.Get(Objective);
    assert a.Get(Assessment) == b.Get(Assessment) && a.Get(Plan) == b.Get(Plan);
  }

  /** The final loop: every empty section receives its placeholder; the others are kept. */
  function FillPlaceholders(note: SoapNote): SoapNote {
    SoapNote(
      OrPlaceholder(note.subjective, Subjective),
      OrPlaceholder(note.objective, Objective),
      OrPlaceholder(note.assessment, Assessment),
      OrPlaceholder(note.plan, Plan))
  }

  /** Each section of the filled note is its own text, or its placeholder when that text is empty. */
  lemma FillsEverySection(note: SoapNote)
    ensures forall s: Section :: FillPlaceholders(note).Get(s) == OrPlaceholder(note.Get(s), s)
  {
    forall s: Section
      ensures FillPlaceholders(note).Get(s) == OrPlaceholder(note.Get(s), s)
    {
      match s
      case Subjective =>
      case Objective =>
      case Assessment =>
      case Plan =>
    }
  }

  /** `_parse_soap_response` as a function of the reply text. */
  function ParseSoap(text: string): (r: SoapNote)
    ensures forall s: Section :: r.Get(s) != ""
  {
    var note := Distribute(text, Run(Start, Split(text, "\n")).note);
    FillsEverySection(note);
    FillPlaceholders(note)
  }

  /** The body of the line loop: switch section on a header, then append what is left of the line. */
  method ScanLine(current: Option<Section>, sections: SoapNote, line: string)
    returns (current': Option<Section>, sections': SoapNote)
    ensures ScanState(current', sections') == Step(ScanState(current, sections), line)
  {
    var lineLower := Strip(Lower(line));
    var found := DetectSection(lineLower);
    var rest := line;
    current' := current;
    if found.Some? {
      current' := found;
      rest := RemoveHeader(line, lineLower, found.value);
    }
    var piece := Strip(rest);
    assert current' == Switch(current, lineLower) && rest == Rest(line, lineLower);
    sections' := sections;
    if current'.Some? && piece != "" {
      sections' := sections.With(current'.value, Append(sections.Get(current'.value), piece));
    }
  }

  lemma SectionsInRankOrder(k: nat)
    requires k < |Sections|
    ensures Rank(Sections[k]) == k
    ensures forall t: Section :: Rank(t) == k ==> t == Sections[k]
  {
  }

  /** The closing loop over the four keys: an empty section receives its placeholder. */
  method FillEmptySections(note: SoapNote) returns (sections: SoapNote)
    ensures sections == FillPlaceholders(note)
  {
    ghost var target := FillPlaceholders(note);
    FillsEverySection(note);
    sections := note;
    for k := 0 to |Sections|
      invariant forall s: Section :: Rank(s) < k ==> sections.Get(s) == target.Get(s)
      invariant forall s: Section :: Rank(s) >= k ==> sections.Get(s) == note.Get(s)
    {
      var s := Sections[k];
      SectionsInRankOrder(k);
      ghost var before := sections;
      if sections.Get(s) == "" {
        sections := sections.With(s, Placeholder(s));
      }
      assert sections.Get(s) == target.Get(s);
      assert forall t: Section :: t != s ==> sections.Get(t) == before.Get(t);
    }
    NotesAgree(sections, target);
  }

  /** The line loop of `_parse_soap_response`: a left-to-right scan from the empty note. */
  method ScanLines(lines: seq<string>) returns (current: Option<Section>, sections: SoapNote)
    ensures ScanState(current, sections) == Run(Start, lines)
  {
    sections := EmptyNote;
    current := None;
    var i := 0;
    while i < |lines|
      invariant 0 <= i <= |lines|
      invariant ScanState(current, sections) == Run(Start, lines[..i])
    {
      RunSnoc(lines, i);
      current, sections := ScanLine(current, sections, lines[i]);
      i := i + 1;
    }
    assert lines[..i] == lines;
  }

  /** The fallback of `_parse_soap_response` when no header was recognised. */
  method FallBackToParagraphs(soapText: string, note: SoapNote) returns (sections: SoapNote)
    ensures sections == Distribute(soapText, note)
  {
    sections := note;
    if sections.IsEmpty() {
      var paragraphs := Paragraphs(Split(soapText, "\n\n"));
      if |paragraphs| >= 4 {
        sections := SoapNote(paragraphs[0], paragraphs[1], paragraphs[2], paragraphs[3]);
      } else {
        sections := sections.With(Subjective, soapText);
      }
    }
  }

  /** `_parse_soap_response`: the line scan, the paragraph fallback and the placeholder loop. */
  method ParseSoapResponse(soapText: string) returns (sections: SoapNote)
    ensures sections == ParseSoap(soapText)
    ensures forall s: Section :: sections.Get(s) != ""
  {
    var current;
    current, sections := ScanLines(Split(soapText, "\n"));
    sections := FallBackToParagraphs(soapText, sections);
    sections := FillEmptySections(sections);
  }

  /**
   * `generate_soap_note`: without a client the transcription becomes the
   * subjective beside three fixed texts; a failed call gives another fixed
   * note; a reply is stripped and parsed.
   */
  method GenerateSoapNote(transcription: string, reply: LlmReply) returns (note: SoapNote)
    ensures reply.NoClient? ==> note == SoapNote(transcription,
      "No objective findings recorded.", "Assessment pending review.", "Plan to be determined.")
    ensures reply.Failed? ==> note == SoapNote(transcription,
      "Objective findings to be documented.", "Clinical assessment pending.", "Treatment plan to be determined.")
    ensures reply.Replied? ==> (note == ParseSoap(Strip(reply.content))
      && forall s: Section :: note.Get(s) != "")
  {
    match reply
    case NoClient =>
      note := SoapNote(transcription,
        "No objective findings recorded.", "Assessment pending review.", "Plan to be determined.");
    case Failed =>
      note := SoapNote(transcription,
        "Objective findings to be documented.", "Clinical assessment pending.", "Treatment plan to be determined.");
    case Replied(content) =>
      note := ParseSoapResponse(Strip(content));
  }
}

/** What the SOAP parser promises, proved about `SoapPipeline.ParseSoap` and its scan. */
module SoapPipelineProperties {
  import opened Wrappers
  import opened Text
  import opened SoapPipeline

  /** The scan over `a + b` is the scan over `a` continued over `b`. */
  lemma {:induction false} RunConcat(st: ScanState, a: seq<string>, b: seq<string>)
    ensures Run(st, a + b) == Run(Run(st, a), b)
    decreases |b|
  {
    if b == [] {
      assert a + b == a;
    } else {
      var b' := b[..|b| - 1];
      assert (a + b)[..|a + b| - 1] == a + b';
      RunConcat(st, a, b');
    }
  }

  /** A line on which no section announces itself. */
  predicate Plain(line: string) {
    DetectSection(Strip(Lower(line))).None?
  }

  /** Before the first header nothing is collected: plain lines leave the starting state as it is. */
  lemma {:induction false} PlainLinesCollectNothing(lines: seq<string>)
    requires forall k :: 0 <= k < |lines| ==> Plain(lines[k])
    ensures Run(Start, lines) == Start
    decreases |lines|
  {
    if lines != [] {
      PlainLinesCollectNothing(lines[..|lines| - 1]);
      assert Plain(lines[|lines| - 1]);
    }
  }

  /** Lines that come before any header are dropped: the scan behaves as if they were absent. */
  lemma LinesBeforeFirstHeaderDropped(before: seq<string>, after: seq<string>)
    requires forall k :: 0 <= k < |before| ==> Plain(before[k])
    ensures Run(Start, before + after) == Run(Start, after)
  {
    RunConcat(Start, before, after);
    PlainLinesCollectNothing(before);
  }

  /** `a` is a prefix of `b`. */
  predicate IsPrefix(a: string, b: string) {
    |a| <= |b| && b[..|a|] == a
  }

  lemma PrefixOfPrefix(a: string, b: string, c: string)
    requires IsPrefix(a, b) && IsPrefix(b, c)
    ensures IsPrefix(a, c)
  {
    assert c[..|a|] == c[..|b|][..|a|];
  }

  /** Collecting a piece only ever extends a section's text at its end. */
  lemma CollectExtends(current: Option<Section>, piece: string, note: SoapNote)
    ensures forall s: Section :: IsPrefix(note.Get(s), Collect(current, piece, note).Get(s))
  {
    if current.Some? && piece != "" {
      var acc := note.Get(current.value);
      if acc != "" {
        assert Append(acc, piece) == acc + (" " + piece);
      }
    }
  }

  lemma StepExtends(st: ScanState, line: string)
    ensures forall s: Section :: IsPrefix(st.note.Get(s), Step(st, line).note.Get(s))
  {
    var lineLower := Strip(Lower(line));
    var current := Switch(st.current, lineLower);
    CollectExtends(current, Strip(Rest(line, lineLower)), st.note);
  }

  /**
   * One line of the scan: the current section becomes the one the line
   * announces, if any; what is left of the line, stripped, is added to that
   * section after a single space (or as its whole text while it is empty); a
   * line that leaves nothing adds nothing; no other section changes.
   */
  lemma StepAppendsPiece(st: ScanState, line: string)
    ensures var lower := Strip(Lower(line));
      var piece := Strip(Rest(line, lower));
      var r := Step(st, line);
      && r.current == (if DetectSection(lower).Some? then DetectSection(lower) else st.current)
      && (forall s: Section :: r.current != Some(s) ==> r.note.Get(s) == st.note.Get(s))
      && (r.current.Some? ==>
            r.note.Get(r.current.value) ==
              if piece == "" then st.note.Get(r.current.value)
              else if st.note.Get(r.current.value) == "" then piece
              else st.note.Get(r.current.value) + " " + piece)
  {
  }

  /**
   * Order preservation: the text a section holds after the first `i` lines is a
   * prefix of the text it holds at the end of the scan.
   */
  lemma {:induction false} ScanOnlyAppends(st: ScanState, lines: seq<string>, i: nat)
    requires i <= |lines|
    ensures forall s: Section :: IsPrefix(Run(st, lines[..i]).note.Get(s), Run(st, lines).note.Get(s))
    decreases |lines| - i
  {
    if i == |lines| {
      assert lines[..i] == lines;
    } else {
      ScanOnlyAppends(st, lines, i + 1);
      var before := Run(st, lines[..i]);
      assert lines[..i + 1][..i] == lines[..i];
      assert Run(st, lines[..i + 1]) == Step(before, lines[i]);
      StepExtends(before, lines[i]);
      forall s: Section
        ensures IsPrefix(before.note.Get(s), Run(st, lines).note.Get(s))
      {
        PrefixOfPrefix(before.note.Get(s), Run(st, lines[..i + 1]).note.Get(s), Run(st, lines).note.Get(s));
      }
    }
  }

  /**
   * Each placeholder opens with the upper-cased initial of its section's key, so
   * the four placeholders are distinct.
   */
  lemma PlaceholdersNameTheirSection(s: Section, t: Section)
    ensures Placeholder(s)[0] == UpperChar(Name(s)[0])
    ensures s != t ==> Placeholder(s) != Placeholder(t)
  {
    assert Placeholder(s)[0] == UpperChar(Name(s)[0]);
    assert Placeholder(t)[0] == UpperChar(Name(t)[0]);
  }

  /** A line shorter than two characters is no header: every keyword has at least two. */
  lemma ShortLineIsPlain(line: string)
    requires |line| < 2
    ensures DetectSection(line).None?
  {
    forall s: Section, k | 0 <= k < |Keywords(s)|
      ensures !Marks(line, Keywords(s)[k])
    {
      assert |Keywords(s)[k]| >= 2;
    }
  }

  /** Every piece of a blank string, cut at any separator, is blank. */
  lemma {:induction false} SplitOfBlankIsBlank(s: string, sep: string)
    requires |sep| > 0 && IsBlank(s)
    ensures forall k :: 0 <= k < |Split(s, sep)| ==> IsBlank(Split(s, sep)[k])
    decreases |s|
  {
    var i := Find(s, sep);
    if i >= 0 {
      SplitOfBlankIsBlank(s[i + |sep|..], sep);
      assert Split(s, sep) == [s[..i]] + Split(s[i + |sep|..], sep);
    }
  }

  /** Blank parts give no paragraphs. */
  lemma {:induction false} NoParagraphsInBlankParts(parts: seq<string>)
    requires forall k :: 0 <= k < |parts| ==> IsBlank(parts[k])
    ensures Paragraphs(parts) == []
    decreases |parts|
  {
    if parts != [] {
      StripOfBlank(parts[0]);
      NoParagraphsInBlankParts(parts[1..]);
    }
  }

  /** One part gives its stripped text as a paragraph, unless it is blank. */
  lemma ParagraphOfOnePart(p: string)
    ensures Paragraphs([p]) == if IsBlank(p) then [] else [Strip(p)]
  {
    StripOfBlank(p);
  }

  /** The paragraph list keeps the order of the parts it comes from. */
  lemma {:induction false} ParagraphsConcat(a: seq<string>, b: seq<string>)
    ensures Paragraphs(a + b) == Paragraphs(a) + Paragraphs(b)
    decreases |a|
  {
    if a == [] {
      assert a + b == b;
    } else {
      assert (a + b)[1..] == a[1..] + b;
      ParagraphsConcat(a[1..], b);
    }
  }

  /** When no part is blank, every part gives exactly one paragraph, stripped, in order. */
  lemma {:induction false} ParagraphsOfNonBlank(parts: seq<string>)
    requires forall i :: 0 <= i < |parts| ==> !IsBlank(parts[i])
    ensures |Paragraphs(parts)| == |parts|
    ensures forall i :: 0 <= i < |parts| ==> Paragraphs(parts)[i] == Strip(parts[i])
    decreases |parts|
  {
    if parts != [] {
      StripOfBlank(parts[0]);
      ParagraphsOfNonBlank(parts[1..]);
    }
  }

  /** A blank line is plain. */
  lemma BlankLineIsPlain(line: string)
    requires IsBlank(line)
    ensures Plain(line)
  {
    assert IsBlank(Lower(line));
    StripOfBlank(Lower(line));
    ShortLineIsPlain(Strip(Lower(line)));
  }

  /**
   * The paragraph fallback runs exactly when the scan left every section empty
   * (a reply of bare headers included): with four or more non-blank paragraphs
   * the first four become the sections in order; otherwise the whole text,
   * headers and all, is the subjective and the other three are placeholders.
   */
  lemma FallbackWhenScanEmpty(text: string)
    requires Run(Start, Split(text, "\n")).note.IsEmpty()
    ensures var ps := Paragraphs(Split(text, "\n\n"));
      && (|ps| >= 4 ==> ParseSoap(text) == SoapNote(ps[0], ps[1], ps[2], ps[3]))
      && (|ps| < 4 ==> ParseSoap(text) == SoapNote(
            OrPlaceholder(text, Subjective),
            Placeholder(Objective), Placeholder(Assessment), Placeholder(Plan)))
  {
    var note := Run(Start, Split(text, "\n")).note;
    assert note == EmptyNote;
  }

  /** When the scan filled some section, the fallback is skipped and only the placeholders are added. */
  lemma NoFallbackWhenScanFilled(text: string)
    ensures !Run(Start, Split(text, "\n")).note.IsEmpty() ==>
      ParseSoap(text) == FillPlaceholders(Run(Start, Split(text, "\n")).note)
  {
  }

  /**
   * Text in which no line is a header falls back to paragraphs: with four or more
   * non-blank paragraphs (cut at blank lines) the first four become the sections in
   * order; otherwise the whole text is the subjective and the other three are
   * placeholders.
   */
  lemma HeaderlessTextUsesParagraphs(text: string)
    requires forall k :: 0 <= k < |Split(text, "\n")| ==> Plain(Split(text, "\n")[k])
    ensures var ps := Paragraphs(Split(text, "\n\n"));
      && (|ps| >= 4 ==> ParseSoap(text) == SoapNote(ps[0], ps[1], ps[2], ps[3]))
      && (|ps| < 4 ==> ParseSoap(text) == SoapNote(
            OrPlaceholder(text, Subjective),
            Placeholder(Objective), Placeholder(Assessment), Placeholder(Plan)))
  {
    PlainLinesCollectNothing(Split(text, "\n"));
    FallbackWhenScanEmpty(text);
  }

  /**
   * Whitespace-only text handed to the parser gives no paragraphs, so it becomes
   * the subjective as it is (the placeholder test is on emptiness, not on
   * blankness: only empty text gets the subjective placeholder); the three other
   * sections are placeholders.
   */
  lemma BlankTextIsSubjective(text: string)
    requires IsBlank(text)
    ensures ParseSoap(text) == SoapNote(OrPlaceholder(text, Subjective),
      Placeholder(Objective), Placeholder(Assessment), Placeholder(Plan))
  {
    var lines := Split(text, "\n");
    SplitOfBlankIsBlank(text, "\n");
    forall k | 0 <= k < |lines| ensures Plain(lines[k]) {
      BlankLineIsPlain(lines[k]);
    }
    SplitOfBlankIsBlank(text, "\n\n");
    NoParagraphsInBlankParts(Split(text, "\n\n"));
    HeaderlessTextUsesParagraphs(text);
  }

  /** A stripped blank text is blank, and as a section it gets its placeholder. */
  lemma StrippedBlankGetsPlaceholder(content: string, s: Section)
    requires IsBlank(content)
    ensures IsBlank(Strip(content))
    ensures OrPlaceholder(Strip(content), s) == Placeholder(s)
  {
    StripOfBlank(content);
  }

  /**
   * `generate_soap_note` strips the reply before parsing it, so a whitespace-only
   * reply reaches the parser empty and every section is its placeholder.
   */
  lemma BlankReplyGivesPlaceholders(content: string)
    requires IsBlank(content)
    ensures ParseSoap(Strip(content)) == SoapNote(Placeholder(Subjective),
      Placeholder(Objective), Placeholder(Assessment), Placeholder(Plan))
  {
    StrippedBlankGetsPlaceholder(content, Subjective);
    BlankTextIsSubjective(Strip(content));
  }

  // ---------------------------------------------------------------------------
  // What removing a header keeps
  // ---------------------------------------------------------------------------

  /**
   * What is left of a line once its header is cut at `cut` is a slice of the line
   * after `cut`: only whitespace and colons come before it there, and only
   * whitespace after it.
   */
  lemma CutAfterIsSlice(line: string, cut: nat)
    ensures exists i: nat :: CutSlice(Drop(line, cut), CutAfter(line, cut), i, {':'})
  {
    StripTrimStripSlice(Drop(line, cut), {':'});
    CutAfterIsStripTrimStrip(line, cut);
  }

  lemma CutAfterIsStripTrimStrip(line: string, cut: nat)
    ensures CutAfter(line, cut) == Strip(TrimLeft(Strip(Drop(line, cut)), {':'}))
  {
  }

  // ---------------------------------------------------------------------------
  // Two lines on which the header rule does something a reader may not expect
  // ---------------------------------------------------------------------------

  /** What is left after a header is already stripped. */
  lemma CutIsStripped(line: string, cut: nat)
    ensures Strip(CutAfter(line, cut)) == CutAfter(line, cut)
  {
    var r := CutAfter(line, cut);
    assert r == [] || (!IsSpace(r[0]) && !IsSpace(r[|r| - 1]));
    StripUnchanged(r);
  }

  /** Lower-casing keeps a character's whitespace status. */
  lemma LowerCharKeepsSpace(c: char)
    ensures IsSpace(LowerChar(c)) == IsSpace(c)
  {
  }

  /**
   * The header is located in the stripped, lower-cased line but cut from the raw
   * one: a line whose stripped, lower-cased form opens with "subjective" switches
   * to the subjective section and keeps what follows the first 10 characters of
   * the RAW line.
   */
  lemma SubjectiveHeaderCutsRawLine(line: string)
    requires StartsWith(Strip(Lower(line)), "subjective")
    ensures Step(Start, line) == ScanState(Some(Subjective), Collect(Some(Subjective), CutAfter(line, 10), EmptyNote))
  {
    var lower := Strip(Lower(line));
    OpeningSubjectiveIsDetected(lower);
    OpeningSubjectiveEndsAtTen(lower);
    assert Rest(line, lower) == CutAfter(line, 10);
    CutIsStripped(line, 10);
  }

  lemma OpeningSubjectiveIsDetected(lower: string)
    requires StartsWith(lower, "subjective")
    ensures DetectSection(lower) == Some(Subjective)
  {
    assert Marks(lower, Keywords(Subjective)[0]);
  }

  lemma OpeningSubjectiveEndsAtTen(lower: string)
    requires StartsWith(lower, "subjective")
    ensures FirstContained(lower, Keywords(Subjective)) == Some(0)
    ensures HeaderEnd(lower, "subjective") == 10
  {
    ContainsAt(lower, "subjective", 0);
  }

  /** Lower-casing keeps leading spaces as spaces. */
  lemma LowerKeepsIndent(line: string, n: nat)
    requires n <= |line|
    requires forall i :: 0 <= i < n ==> line[i] == ' '
    ensures forall i :: 0 <= i < n ==> IsSpace(Lower(line)[i])
  {
    forall i | 0 <= i < n
      ensures IsSpace(Lower(line)[i])
    {
      assert Lower(line)[i] == LowerChar(line[i]);
    }
  }

  /** Lower-casing keeps a non-space last character a non-space. */
  lemma LowerKeepsLastNonSpace(line: string)
    requires line != [] && !IsSpace(line[|line| - 1])
    ensures !IsSpace(Lower(line)[|line| - 1])
  {
    LowerCharKeepsSpace(line[|line| - 1]);
    assert Lower(line)[|line| - 1] == LowerChar(line[|line| - 1]);
  }

  /** Indentation is dropped before the keyword test: an indented "Subjective" still opens the stripped line. */
  lemma IndentedSubjectiveIsFound(line: string, n: nat)
    requires n + 10 <= |line| && !IsSpace(line[|line| - 1])
    requires forall i :: 0 <= i < n ==> line[i] == ' '
    requires Lower(line[n..n + 10]) == "subjective"
    ensures StartsWith(Strip(Lower(line)), "subjective")
  {
    LowerSlice(line, n, n + 10);
    LowerKeepsIndent(line, n);
    LowerKeepsLastNonSpace(line);
    StripIndentedStartsWith(Lower(line), n, "subjective");
  }

  /** A remainder with no surrounding space and no leading colon is kept as it is. */
  lemma CleanRestIsKept(line: string, cut: nat)
    requires Drop(line, cut) != []
    requires !IsSpace(Drop(line, cut)[0]) && !IsSpace(Drop(line, cut)[|Drop(line, cut)| - 1])
    requires Drop(line, cut)[0] != ':'
    ensures CutAfter(line, cut) == Drop(line, cut)
  {
    var rest := Drop(line, cut);
    StripUnchanged(rest);
    assert TrimLeft(rest, {':'}) == rest;
    StripUnchanged(rest);
  }

  lemma IndentedHeaderCut(line: string)
    requires line == "  Subjective: pain"
    ensures CutAfter(line, 10) == "ve: pain"
  {
    assert Drop(line, 10) == "ve: pain";
    CleanRestIsKept(line, 10);
  }

  /** The line "  Subjective: pain" is indented by two spaces, then "Subjective". */
  lemma IndentedHeaderShape(line: string)
    requires line == "  Subjective: pain"
    ensures 12 <= |line| && !IsSpace(line[|line| - 1])
    ensures forall i :: 0 <= i < 2 ==> line[i] == ' '
    ensures Lower(line[2..12]) == "subjective"
  {
    assert line[2..12] == "Subjective";
  }

  /** So the line "  Subjective: pain" opens the subjective section with "ve: pain". */
  lemma IndentedHeaderLeavesKeywordTail(line: string)
    requires line == "  Subjective: pain"
    ensures Step(Start, line) == ScanState(Some(Subjective), SoapNote("ve: pain", "", "", ""))
  {
    IndentedHeaderShape(line);
    IndentedSubjectiveIsFound(line, 2);
    SubjectiveHeaderCutsRawLine(line);
    IndentedHeaderCut(line);
  }

  /**
   * A keyword need only occur within the first 20 characters, and "s:" is a
   * subjective keyword tried before any other section's: a line with "s:" among
   * its first 20 characters switches to the subjective section, whatever else it
   * announces.
   */
  lemma EarlySColonIsSubjective(lower: string, i: nat)
    requires i + 2 <= |lower| && i + 2 <= 20
    requires lower[i] == 's' && lower[i + 1] == ':'
    ensures DetectSection(lower) == Some(Subjective)
  {
    var w := Take(lower, 20);
    assert w[i..i + 2] == "s:";
    ContainsAt(w, "s:", i);
    assert Marks(lower, Keywords(Subjective)[1]);
  }

  /** So a vital-signs line, whose first word ends in "s:", goes to the subjective section. */
  lemma VitalSignsLineIsSubjective(lower: string)
    requires lower == "vital signs: bp 120/80"
    ensures Announces(Objective, lower)
    ensures DetectSection(lower) == Some(Subjective)
  {
    assert lower[10] == 's' && lower[11] == ':';
    EarlySColonIsSubjective(lower, 10);
    assert lower[..11] == "vital signs";
    assert Marks(lower, Keywords(Objective)[3]);
  }
}
