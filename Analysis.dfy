/**
 * The section splitter of `ChatService.generate_analysis`: the model's free-form
 * answer is cut on "###", each chunk's first line is matched against a fixed list
 * of section titles, and every report section that is still missing or empty
 * receives a placeholder. A failed model call yields a fixed fallback report.
 */
module Analysis {
  import opened Wrappers
  import opened Text
  import opened Messages

  /** `required_sections`, in order. These are also the values of `section_markers`,
      in its insertion order. */
  const RequiredSections: seq<string> := [
    "executive_summary", "performance_analysis", "allocation_analysis",
    "key_observations", "recommendations", "holdings_analysis", "historical_analysis"
  ]

  /** The keys of `section_markers`, in insertion order: title marker `MarkerTitles[j]`
      names report section `RequiredSections[j]`. */
  const MarkerTitles: seq<string> := [
    "executive summary", "performance analysis", "asset allocation analysis",
    "key observations", "recommendations", "holdings analysis", "historical analysis"
  ]

  /** The keys every report has. */
  const RequiredKeys: set<string> := set k | k in RequiredSections

  const SectionSeparator := "###"
  const LineBreak := "\n"
  const Placeholder := "Analysis for this section is being generated..."

  /** The index of the first marker, from `j` on, that occurs in `title`. */
  function MarkerFrom(title: string, j: nat): (r: Option<nat>)
    requires j <= |MarkerTitles|
    ensures r.Some? ==> j <= r.value < |MarkerTitles| && Contains(title, MarkerTitles[r.value])
    decreases |MarkerTitles| - j
  {
    if j == |MarkerTitles| then None
    else if Contains(title, MarkerTitles[j]) then Some(j)
    else MarkerFrom(title, j + 1)
  }

  /** The marker a title matches: the first, in insertion order, that is a substring of it. */
  function MatchMarker(title: string): Option<nat> {
    MarkerFrom(title, 0)
  }

  lemma {:induction false} MarkerFromFirst(title: string, j: nat, m: nat)
    requires j <= m < |MarkerTitles| && Contains(title, MarkerTitles[m])
    requires forall n :: j <= n < m ==> !Contains(title, MarkerTitles[n])
    ensures MarkerFrom(title, j) == Some(m)
    decreases m - j
  {
    if j < m {
      MarkerFromFirst(title, j + 1, m);
    }
  }

  /** From `j` on, no marker is found exactly when none occurs in the title. */
  lemma {:induction false} MarkerFromNone(title: string, j: nat)
    requires j <= |MarkerTitles|
    ensures MarkerFrom(title, j) == None <==>
      forall n :: j <= n < |MarkerTitles| ==> !Contains(title, MarkerTitles[n])
    decreases |MarkerTitles| - j
  {
    if j < |MarkerTitles| {
      MarkerFromNone(title, j + 1);
    }
  }

  /** A title matches the first marker in the listed order that it contains, and no marker
      exactly when it contains none. */
  lemma MatchMarkerIsFirst(title: string)
    ensures forall m ::
      (0 <= m < |MarkerTitles| && Contains(title, MarkerTitles[m]) &&
       forall n :: 0 <= n < m ==> !Contains(title, MarkerTitles[n])) ==>
      MatchMarker(title) == Some(m)
    ensures MatchMarker(title) == None <==>
      forall m :: 0 <= m < |MarkerTitles| ==> !Contains(title, MarkerTitles[m])
  {
    forall m | 0 <= m < |MarkerTitles| && Contains(title, MarkerTitles[m]) &&
      (forall n :: 0 <= n < m ==> !Contains(title, MarkerTitles[n]))
      ensures MatchMarker(title) == Some(m)
    {
      MarkerFromFirst(title, 0, m);
    }
    MarkerFromNone(title, 0);
  }

  /** The report section a title is stored under, if any. */
  function SectionKey(title: string): (k: Option<string>)
    ensures k.Some? ==> k.value in RequiredKeys
    ensures k.None? <==> forall m :: 0 <= m < |MarkerTitles| ==> !Contains(title, MarkerTitles[m])
    ensures forall m ::
      (0 <= m < |MarkerTitles| && Contains(title, MarkerTitles[m]) &&
       forall n :: 0 <= n < m ==> !Contains(title, MarkerTitles[n])) ==>
      k == Some(RequiredSections[m])
  {
    MatchMarkerIsFirst(title);
    match MatchMarker(title)
    case None => None
    case Some(m) => Some(RequiredSections[m])
  }

  /** `section.strip().split('\n')`. */
  function ChunkLines(chunk: string): (lines: seq<string>)
    ensures |lines| >= 1
  {
    Split(Strip(chunk), LineBreak)
  }

  /** `lines[0].strip().lower()`. */
  function Title(chunk: string): string {
    Lower(Strip(ChunkLines(chunk)[0]))
  }

  /** `'\n'.join(lines[1:]).strip()`. */
  function Body(chunk: string): string {
    Strip(Join(LineBreak, ChunkLines(chunk)[1..]))
  }

  /** Of the stripped chunk, the title is the lowercased, stripped text before the first
      line break, and the body is the stripped text after it (empty without a line break). */
  lemma TitleAndBody(chunk: string)
    ensures var t := Strip(chunk);
      IndexOf(t, LineBreak).None? ==> Title(chunk) == Lower(t) && Body(chunk) == ""
    ensures var t := Strip(chunk);
      IndexOf(t, LineBreak).Some? ==>
        var i := IndexOf(t, LineBreak).value;
        Title(chunk) == Lower(Strip(t[..i])) && Body(chunk) == Strip(t[i + 1..])
  {
    var t := Strip(chunk);
    RestAfterFirst(t, LineBreak);
    if IndexOf(t, LineBreak).None? {
      StripSpec(chunk);
      StripKeeps(t);
    }
  }

  /** The report section a chunk's body is stored under; none for a blank chunk or a
      title that contains no marker. */
  function SectionOf(chunk: string): (k: Option<string>)
    ensures k.Some? ==> k.value in RequiredKeys
  {
    if Strip(chunk) == "" then None else SectionKey(Title(chunk))
  }

  /** What one chunk contributes to the report: the key and the body it is stored under,
      if any. */
  function Entry(chunk: string): (e: Option<(string, string)>)
    ensures e.Some? ==> Strip(chunk) != "" && e.value.0 in RequiredKeys
    ensures e.Some? <==> Strip(chunk) != "" && SectionKey(Title(chunk)).Some?
    ensures e.Some? ==> e.value == (SectionKey(Title(chunk)).value, Body(chunk))
  {
    match SectionOf(chunk)
    case None => None
    case Some(k) => Some((k, Body(chunk)))
  }

  function Entries(chunks: seq<string>): (es: seq<Option<(string, string)>>)
    ensures |es| == |chunks|
    ensures forall j :: 0 <= j < |chunks| ==> es[j] == Entry(chunks[j])
  {
    seq(|chunks|, j requires 0 <= j < |chunks| => Entry(chunks[j]))
  }

  /** How many chunks are not blank once stripped. */
  function NonBlank(chunks: seq<string>): nat {
    if chunks == [] then 0
    else NonBlank(chunks[..|chunks| - 1]) + (if Strip(chunks[|chunks| - 1]) == "" then 0 else 1)
  }

  /** How many entries store something. */
  function Stored(es: seq<Option<(string, string)>>): nat {
    if es == [] then 0
    else Stored(es[..|es| - 1]) + (if es[|es| - 1].Some? then 1 else 0)
  }

  /** Only a non-blank chunk stores anything. */
  lemma {:induction false} StoredAtMostNonBlank(chunks: seq<string>)
    ensures Stored(Entries(chunks)) <= NonBlank(chunks)
    decreases |chunks|
  {
    if chunks != [] {
      var n := |chunks| - 1;
      StoredAtMostNonBlank(chunks[..n]);
      assert Entries(chunks)[..n] == Entries(chunks[..n]);
    }
  }

  /** Every entry names a required key. */
  predicate KeysRequired(es: seq<Option<(string, string)>>) {
    forall j :: 0 <= j < |es| && es[j].Some? ==> es[j].value.0 in RequiredKeys
  }

  /** The sections the first loop builds from the entries, in order; a later entry for
      the same key overwrites an earlier one. */
  function Collect(es: seq<Option<(string, string)>>): map<string, string> {
    if es == [] then map[]
    else
      var m0 := Collect(es[..|es| - 1]);
      match es[|es| - 1]
      case None => m0
      case Some((k, body)) => m0[k := body]
  }

  /** The first loop stores only required keys, and at most one key per storing entry. */
  lemma {:induction false} CollectKeys(es: seq<Option<(string, string)>>)
    ensures KeysRequired(es) ==> Collect(es).Keys <= RequiredKeys
    ensures |Collect(es).Keys| <= Stored(es)
    decreases |es|
  {
    if es != [] {
      var n := |es| - 1;
      CollectKeys(es[..n]);
      assert KeysRequired(es) ==> KeysRequired(es[..n]);
      var m0 := Collect(es[..n]);
      match es[n]
      case None =>
      case Some((k, body)) =>
        assert m0[k := body].Keys == m0.Keys + {k};
    }
  }

  /** A key is present exactly when some entry stores under it, and it then holds the body
      of the LAST such entry; entries for other keys, and empty entries, leave it alone. */
  lemma {:induction false} CollectLastWins(es: seq<Option<(string, string)>>, k: string)
    ensures k in Collect(es) <==> exists j :: 0 <= j < |es| && es[j].Some? && es[j].value.0 == k
    ensures forall j ::
      (0 <= j < |es| && es[j].Some? && es[j].value.0 == k &&
       forall j2 :: j < j2 < |es| ==> !(es[j2].Some? && es[j2].value.0 == k)) ==>
      k in Collect(es) && Collect(es)[k] == es[j].value.1
    decreases |es|
  {
    if es != [] {
      var n := |es| - 1;
      var init := es[..n];
      CollectLastWins(init, k);
      assert forall j :: 0 <= j < n ==> init[j] == es[j];
    }
  }

  /** The second loop: each listed key that is missing or empty gets the placeholder. */
  function Fill(m: map<string, string>, keys: seq<string>): map<string, string> {
    if keys == [] then m
    else
      var r0 := Fill(m, keys[..|keys| - 1]);
      var k := keys[|keys| - 1];
      if k !in r0 || r0[k] == "" then r0[k := Placeholder] else r0
  }

  /** Filling adds exactly the listed keys, leaves every other key alone, and gives each
      listed key its found text if that is non-empty and the placeholder otherwise. */
  lemma {:induction false} FillSpec(m: map<string, string>, keys: seq<string>)
    ensures Fill(m, keys).Keys == m.Keys + set k | k in keys
    ensures forall k :: k in m && k !in keys ==> Fill(m, keys)[k] == m[k]
    ensures forall k :: k in keys ==> Fill(m, keys)[k] == if k in m && m[k] != "" then m[k] else Placeholder
    decreases |keys|
  {
    if keys != [] {
      var init := keys[..|keys| - 1];
      FillSpec(m, init);
      assert forall k :: k in keys <==> k in init || k == keys[|keys| - 1];
    }
  }

  /** The sections `generate_analysis` returns for the model's answer `content`. */
  function ParseSections(content: string): map<string, string> {
    Fill(Collect(Entries(Split(content, SectionSeparator))), RequiredSections)
  }

  /** The parsed report has exactly the seven report keys, and none of them is empty. */
  lemma ParseSectionsShape(content: string)
    ensures ParseSections(content).Keys == RequiredKeys
    ensures forall k :: k in ParseSections(content) ==> ParseSections(content)[k] != ""
  {
    var found := Collect(Entries(Split(content, SectionSeparator)));
    CollectKeys(Entries(Split(content, SectionSeparator)));
    FillSpec(found, RequiredSections);
  }

  /** The seven report keys are distinct. */
  lemma SevenSections()
    ensures |RequiredKeys| == 7
  {
    var s := RequiredSections;
    assert s[0][0] == 'e' && s[1][0] == 'p' && s[2][0] == 'a' && s[3][0] == 'k';
    assert s[4][0] == 'r' && s[5][..3] == "hol" && s[6][..3] == "his";
    DistinctCount(s);
  }

  /** A sequence without repetitions has as many distinct elements as entries. */
  lemma {:induction false} DistinctCount(s: seq<string>)
    requires forall i, j :: 0 <= i < j < |s| ==> s[i] != s[j]
    ensures |set k | k in s| == |s|
  {
    if s != [] {
      var n := |s| - 1;
      DistinctCount(s[..n]);
      assert (set k | k in s) == (set k | k in s[..n]) + {s[n]};
      assert s[n] !in s[..n];
    }
  }

  /** A chunk's entry stores under `k` exactly when the chunk belongs to section `k`, and
      then it stores the chunk's body. */
  lemma EntriesStoreBodies(chunks: seq<string>, k: string)
    ensures forall j :: 0 <= j < |chunks| ==>
      ((Entries(chunks)[j].Some? && Entries(chunks)[j].value.0 == k) <==> SectionOf(chunks[j]) == Some(k))
    ensures forall j :: 0 <= j < |chunks| && SectionOf(chunks[j]) == Some(k) ==>
      Entries(chunks)[j].value.1 == Body(chunks[j])
  {
  }

  /** A section no chunk belongs to is not found by the first loop. */
  lemma CollectAbsent(chunks: seq<string>, k: string)
    requires forall j :: 0 <= j < |chunks| ==> SectionOf(chunks[j]) != Some(k)
    ensures k !in Collect(Entries(chunks))
  {
    CollectLastWins(Entries(chunks), k);
    EntriesStoreBodies(chunks, k);
  }

  /** The first loop leaves under `k` the body of the last chunk belonging to `k`. */
  lemma CollectLast(chunks: seq<string>, k: string, j: int)
    requires 0 <= j < |chunks| && SectionOf(chunks[j]) == Some(k)
    requires forall j2 :: j < j2 < |chunks| ==> SectionOf(chunks[j2]) != Some(k)
    ensures k in Collect(Entries(chunks)) && Collect(Entries(chunks))[k] == Body(chunks[j])
  {
    CollectLastWins(Entries(chunks), k);
    EntriesStoreBodies(chunks, k);
  }

  /** A report key no "###" chunk belongs to holds the placeholder. */
  lemma ParseSectionsAbsent(content: string, k: string)
    requires k in RequiredKeys
    requires forall j :: 0 <= j < |Split(content, SectionSeparator)| ==>
      SectionOf(Split(content, SectionSeparator)[j]) != Some(k)
    ensures k in ParseSections(content) && ParseSections(content)[k] == Placeholder
  {
    var chunks := Split(content, SectionSeparator);
    var found := Collect(Entries(chunks));
    assert k in RequiredSections;
    CollectAbsent(chunks, k);
    FillSpec(found, RequiredSections);
    assert k !in found;
  }

  /** A report key holds the body of the last "###" chunk that belongs to it, or the
      placeholder when that body is empty; earlier chunks for the same key are overwritten. */
  lemma ParseSectionsLast(content: string, k: string, j: nat)
    requires var chunks := Split(content, SectionSeparator);
      j < |chunks| && SectionOf(chunks[j]) == Some(k) &&
      forall j2 :: j < j2 < |chunks| ==> SectionOf(chunks[j2]) != Some(k)
    ensures var body := Body(Split(content, SectionSeparator)[j]);
      k in ParseSections(content) &&
      ParseSections(content)[k] == if body == "" then Placeholder else body
  {
    var chunks := Split(content, SectionSeparator);
    FillSpec(Collect(Entries(chunks)), RequiredSections);
    CollectLast(chunks, k, j);
  }

  /** The report keys that received real content rather than the placeholder. */
  ghost function RealSections(content: string): set<string> {
    set k | k in ParseSections(content) && ParseSections(content)[k] != Placeholder
  }

  /** At most one section per non-blank "###" chunk receives real content. */
  lemma RealSectionsBound(content: string)
    ensures |RealSections(content)| <= NonBlank(Split(content, SectionSeparator))
  {
    var chunks := Split(content, SectionSeparator);
    var found := Collect(Entries(chunks));
    ParseSectionsShape(content);
    FillSpec(found, RequiredSections);
    assert RealSections(content) <= found.Keys;
    SubsetCard(RealSections(content), found.Keys);
    CollectKeys(Entries(chunks));
    StoredAtMostNonBlank(chunks);
  }

  lemma {:induction false} SubsetCard<T>(a: set<T>, b: set<T>)
    requires a <= b
    ensures |a| <= |b|
    decreases |b|
  {
    if a != {} {
      var x :| x in a;
      SubsetCard(a - {x}, b - {x});
    }
  }

  /** An answer without "###" is one chunk, so at most one section gets real content. */
  lemma NoSeparatorAtMostOneSection(content: string)
    requires !Contains(content, SectionSeparator)
    ensures |RealSections(content)| <= 1
  {
    RealSectionsBound(content);
    SplitSpec(content, SectionSeparator);
    assert Split(content, SectionSeparator) == [content];
    assert [content][..0] == [];
  }

  const ErrorPrefix := "Error generating analysis: "

  /** The report returned when the model call raises `error`. */
  function Fallback(error: string): map<string, string> {
    map[
      "executive_summary" := ErrorPrefix + error,
      "performance_analysis" := "Unable to generate performance analysis",
      "allocation_analysis" := "Unable to generate allocation analysis",
      "key_observations" := "Unable to generate key observations",
      "recommendations" := "Unable to generate recommendations",
      "holdings_analysis" := "Unable to generate holdings analysis",
      "historical_analysis" := "Unable to generate historical analysis"
    ]
  }

  /** The fallback report has the seven report keys, none of them empty; only its executive
      summary depends on the error, and it carries the error text whole after a fixed prefix. */
  lemma FallbackShape(e1: string, e2: string)
    ensures Fallback(e1).Keys == RequiredKeys
    ensures forall k :: k in Fallback(e1) ==> Fallback(e1)[k] != ""
    ensures forall k :: k in RequiredKeys && k != "executive_summary" ==> Fallback(e1)[k] == Fallback(e2)[k]
    ensures var s := Fallback(e1)["executive_summary"];
      |s| >= |ErrorPrefix| && s[..|ErrorPrefix|] == ErrorPrefix && s[|ErrorPrefix|..] == e1
    ensures Fallback(e1)["executive_summary"] == Fallback(e2)["executive_summary"] <==> e1 == e2
  {
    var s1, s2 := ErrorPrefix + e1, ErrorPrefix + e2;
    assert s1[|ErrorPrefix|..] == e1 && s2[|ErrorPrefix|..] == e2;
  }

  /** The system message sent before the user's prompt. */
  const AnalystInstructions := "\n            You are a professional investment analyst. Analyze the portfolio data and provide \n            a detailed report with the following sections:\n            1. Executive Summary\n            2. Performance Analysis\n            3. Asset Allocation Analysis\n            4. Key Observations\n            5. Recommendations\n            6. Holdings Analysis\n            7. Historical Analysis\n            \n            Use clear section headers and provide detailed, data-driven insights.\n            Each section must start with its exact title (e.g., \"Executive Summary\").\n            "

  /** The report for the model's reply: the parsed sections, or the fallback on an exception. */
  function AnalysisOf(reply: Outcome<string>): map<string, string> {
    match reply
    case Ok(content) => ParseSections(content)
    case Raised(error) => Fallback(error)
  }

  /** Whatever the model does, the report has the seven keys and no empty section. */
  lemma AnalysisShape(reply: Outcome<string>)
    ensures AnalysisOf(reply).Keys == RequiredKeys
    ensures forall k :: k in AnalysisOf(reply) ==> AnalysisOf(reply)[k] != ""
  {
    match reply
    case Ok(content) => ParseSectionsShape(content);
    case Raised(error) => FallbackShape(error, error);
  }

  /** The inner loop over `section_markers`: the section of the first marker, in order,
      that occurs in `title`. */
  method FindSection(title: string) returns (key: Option<string>)
    ensures key == SectionKey(title)
  {
    key := None;
    for j := 0 to |MarkerTitles|
      invariant MarkerFrom(title, j) == MatchMarker(title)
    {
      if Contains(title, MarkerTitles[j]) {
        key := Some(RequiredSections[j]);
        break;
      }
    }
  }

  /** The second loop: every listed key that is missing or empty receives the placeholder. */
  method FillMissing(found: map<string, string>, keys: seq<string>) returns (sections: map<string, string>)
    ensures sections == Fill(found, keys)
  {
    sections := found;
    for n := 0 to |keys|
      invariant sections == Fill(found, keys[..n])
    {
      var name := keys[n];
      assert keys[..n + 1][..n] == keys[..n];
      if name !in sections || sections[name] == "" {
        sections := sections[name := Placeholder];
      }
    }
    assert keys[..|keys|] == keys;
  }

  /** One more entry extends the sections the first loop has built so far. */
  lemma CollectStep(es: seq<Option<(string, string)>>, i: nat)
    requires i < |es|
    ensures Collect(es[..i + 1]) ==
      match es[i]
      case None => Collect(es[..i])
      case Some((k, body)) => Collect(es[..i])[k := body]
  {
    assert es[..i + 1][..i] == es[..i];
  }

  /** The parsing loops of `generate_analysis`, run on the model's answer. */
  method ParseResponse(content: string) returns (sections: map<string, string>)
    ensures sections == ParseSections(content)
  {
    sections := map[];
    var rawSections := Split(content, SectionSeparator);
    ghost var es := Entries(rawSections);
    for i := 0 to |rawSections|
      invariant sections == Collect(es[..i])
    {
      var section := rawSections[i];
      CollectStep(es, i);
      if Strip(section) != "" {
        var lines := Split(Strip(section), LineBreak);
        var title := Lower(Strip(lines[0]));
        var body := Strip(Join(LineBreak, lines[1..]));
        var key := FindSection(title);
        if key.Some? {
          sections := sections[key.value := body];
        }
      }
    }
    assert es[..|rawSections|] == es;
    sections := FillMissing(sections, RequiredSections);
  }

  /** `generate_analysis`: ask the model for the report on `prompt` and split its answer
      into sections, or fall back to the fixed report if the call raises. */
  method GenerateAnalysis(prompt: string, llm: Model) returns (report: map<string, string>)
    ensures report == AnalysisOf(llm([System(AnalystInstructions), Human(prompt)]))
    ensures report.Keys == RequiredKeys
    ensures forall k :: k in report ==> report[k] != ""
  {
    var response := llm([System(AnalystInstructions), Human(prompt)]);
    AnalysisShape(response);
    match response
    case Ok(content) =>
      report := ParseResponse(content);
    case Raised(error) =>
      report := Fallback(error);
  }
}
