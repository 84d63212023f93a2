/**
 * Filtering the model's findings by evidence (internal/review/service.go, internal/review/diff_evidence.go). A corpus is
 * the list of texts the model was shown; what JSON decoding makes of each of them is a parameter.
 */
module EvidenceFilter {
  import opened Collections
  import opened Text
  import opened UnifiedDiff
  import opened PatchReaders
  import opened DiffTheorems
  import opened PromptSections

  datatype Kind = Reference | StaticCheck | Unknown

  datatype Evidence = Evidence(kind: Kind, file: string, line: int, text: string, command: string, excerpt: string)

  datatype Finding = Finding(file: string, line: int, category: string, confidence: string, message: string,
                             evidence: seq<Evidence>)

  datatype DiffFile = DiffFile(path: string, patch: string, found: Option<bool>, status: string)

  datatype DiffOutput = DiffOutput(own: DiffFile, files: seq<DiffFile>)

  datatype RefMatch = RefMatch(path: string, line: int, snippet: string)

  datatype RefOutput = RefOutput(path: string, content: string, matches: seq<RefMatch>)

  datatype Check = Check(command: string, output: string, error: string, success: Option<bool>, exitCode: int, timedOut: bool)

  /** A decoded source, in all the shapes it decodes to. */
  datatype Source = Source(raw: string, diffs: Option<DiffOutput>, refs: Option<RefOutput>, checks: Option<seq<Check>>,
                           strings: seq<string>)

  /** JSON decoding into each shape; `strings` are all the string values of a valid document. */
  datatype Decoder = Decoder(
    diffs: string -> Option<DiffOutput>, refs: string -> Option<RefOutput>, checks: string -> Option<seq<Check>>,
    strings: string -> Option<seq<string>>)

  // ----- what a source supports -----

  predicate FileMatches(d: DiffFile, e: Evidence) {
    && d.path == e.file && d.status != "removed" && d.found != Some(false) && e.line > 0 && TrimSpace(e.text) != ""
    && Quotes(Pairs(Split(d.patch), START), e.line, e.text)
  }

  method MatchFile(d: DiffFile, e: Evidence) returns (found: bool)
    ensures found <==> FileMatches(d, e)
  {
    if d.path != e.file || d.status == "removed" || d.found == Some(false) || e.line <= 0 || TrimSpace(e.text) == "" {
      return false;
    }
    found := PatchEvidence(d.patch, e.line, e.text);
  }

  predicate DiffMatches(d: DiffOutput, e: Evidence) {
    FileMatches(d.own, e) || exists i | 0 <= i < |d.files| :: FileMatches(d.files[i], e)
  }

  method MatchDiff(d: DiffOutput, e: Evidence) returns (found: bool)
    ensures found <==> DiffMatches(d, e)
  {
    found := MatchFile(d.own, e);
    if found {
      return;
    }
    for i := 0 to |d.files|
      invariant forall k | 0 <= k < i :: !FileMatches(d.files[k], e)
    {
      found := MatchFile(d.files[i], e);
      if found {
        return;
      }
    }
    return false;
  }

  /** A number as `%d` prints it. */
  function Decimal(n: int): string {
    if n < 0 then "-" + ToDecimal(-n) else ToDecimal(n)
  }

  /** A line of numbered file content shows the text at that line number. */
  predicate ContentShows(contentLine: string, e: Evidence) {
    var line, prefix := TrimSpace(contentLine), Decimal(e.line) + ":";
    HasPrefix(line, prefix) && TrimSpace(line[|prefix|..]) == TrimSpace(e.text)
  }

  predicate RefMatches(r: RefOutput, e: Evidence) {
    || (r.path == e.file && exists i | 0 <= i < |Split(r.content)| :: ContentShows(Split(r.content)[i], e))
    || exists i | 0 <= i < |r.matches| :: r.matches[i] == RefMatch(e.file, e.line, TrimSpace(e.text))
  }

  method MatchRef(r: RefOutput, e: Evidence) returns (found: bool)
    ensures found <==> RefMatches(r, e)
  {
    if r.path == e.file {
      var lines := Split(r.content);
      for i := 0 to |lines|
        invariant forall k | 0 <= k < i :: !ContentShows(lines[k], e)
      {
        if ContentShows(lines[i], e) {
          return true;
        }
      }
    }
    for i := 0 to |r.matches|
      invariant forall k | 0 <= k < i :: r.matches[k] != RefMatch(e.file, e.line, TrimSpace(e.text))
    {
      var m := r.matches[i];
      if m.path == e.file && m.line == e.line && m.snippet == TrimSpace(e.text) {
        return true;
      }
    }
    return false;
  }

  /** Text with `### ` sections, as the prompt has them. */
  predicate RawMatches(raw: string, e: Evidence) {
    var sections := Scan(Split(raw), "", [], map[]);
    e.file in sections && SectionEvidence(sections[e.file], e.line, e.text)
  }

  /** The matching before diffs were decoded: a decodable source is never read as raw text. */
  predicate LegacyMatches(refs: Option<RefOutput>, raw: string, e: Evidence) {
    if refs.Some? then RefMatches(refs.value, e) else RawMatches(raw, e)
  }

  predicate SourceMatches(s: Source, e: Evidence) {
    (s.diffs.Some? && DiffMatches(s.diffs.value, e)) || LegacyMatches(s.refs, s.raw, e)
  }

  predicate ReferenceIn(sources: seq<Source>, e: Evidence) {
    exists i | 0 <= i < |sources| :: SourceMatches(sources[i], e)
  }

  method ReferenceEvidence(sources: seq<Source>, e: Evidence) returns (found: bool)
    ensures found <==> ReferenceIn(sources, e)
  {
    for i := 0 to |sources|
      invariant forall k | 0 <= k < i :: !SourceMatches(sources[k], e)
    {
      var source := sources[i];
      if source.diffs.Some? {
        found := MatchDiff(source.diffs.value, e);
        if found {
          return;
        }
      }
      if source.refs.Some? {
        found := MatchRef(source.refs.value, e);
        if found {
          return;
        }
        continue;
      }
      found := RawReferenceEvidence(source.raw, e.file, e.line, e.text);
      if found {
        return;
      }
    }
    return false;
  }

  function Parse(d: Decoder, raw: string): Source {
    Source(raw, d.diffs(raw), d.refs(raw), d.checks(raw), if d.strings(raw).Some? then d.strings(raw).value else [raw])
  }

  function Sources(d: Decoder, corpus: seq<string>): (sources: seq<Source>)
    ensures |sources| == |corpus| && forall i | 0 <= i < |corpus| :: sources[i] == Parse(d, corpus[i])
  {
    seq(|corpus|, i requires 0 <= i < |corpus| => Parse(d, corpus[i]))
  }

  method ParseEvidenceCorpus(d: Decoder, corpus: seq<string>) returns (sources: seq<Source>)
    ensures sources == Sources(d, corpus)
  {
    sources := [];
    for i := 0 to |corpus|
      invariant |sources| == i && forall k | 0 <= k < i :: sources[k] == Parse(d, corpus[k])
    {
      sources := sources + [Parse(d, corpus[i])];
    }
  }

  predicate LegacyIn(d: Decoder, corpus: seq<string>, e: Evidence) {
    exists i | 0 <= i < |corpus| :: LegacyMatches(d.refs(corpus[i]), corpus[i], e)
  }

  /** The reference implementation, which decodes the corpus again for every quotation. */
  method ReferenceEvidenceInCorpus(d: Decoder, e: Evidence, corpus: seq<string>) returns (found: bool)
    ensures found <==> LegacyIn(d, corpus, e)
  {
    for i := 0 to |corpus|
      invariant forall k | 0 <= k < i :: !LegacyMatches(d.refs(corpus[k]), corpus[k], e)
    {
      var refs := d.refs(corpus[i]);
      if refs.Some? {
        found := MatchRef(refs.value, e);
        if found {
          return;
        }
        continue;
      }
      found := RawReferenceEvidence(corpus[i], e.file, e.line, e.text);
      if found {
        return;
      }
    }
    return false;
  }

  predicate DiffIn(d: Decoder, corpus: seq<string>, e: Evidence) {
    exists i | 0 <= i < |corpus| :: d.diffs(corpus[i]).Some? && DiffMatches(d.diffs(corpus[i]).value, e)
  }

  /** Matching on the parsed corpus is the reference implementation, or a match in some decoded diff. */
  lemma ParsedIsLegacyOrDiff(d: Decoder, corpus: seq<string>, e: Evidence)
    ensures ReferenceIn(Sources(d, corpus), e) <==> LegacyIn(d, corpus, e) || DiffIn(d, corpus, e)
  {
    var sources := Sources(d, corpus);
    if LegacyIn(d, corpus, e) {
      var i :| 0 <= i < |corpus| && LegacyMatches(d.refs(corpus[i]), corpus[i], e);
      assert SourceMatches(sources[i], e);
    }
    if DiffIn(d, corpus, e) {
      var i :| 0 <= i < |corpus| && d.diffs(corpus[i]).Some? && DiffMatches(d.diffs(corpus[i]).value, e);
      assert SourceMatches(sources[i], e);
    }
    if ReferenceIn(sources, e) {
      var i :| 0 <= i < |sources| && SourceMatches(sources[i], e);
      assert sources[i] == Parse(d, corpus[i]);
    }
  }

  /**
   * Both matchings side by side, as the program's own comparison has them: the parsed one misses nothing, and finds more
   * exactly where only a decoded diff shows the quotation.
   */
  method CompareMatching(d: Decoder, e: Evidence, corpus: seq<string>) returns (legacy: bool, parsed: bool)
    ensures legacy <==> LegacyIn(d, corpus, e)
    ensures legacy ==> parsed
    ensures parsed && !legacy <==> DiffIn(d, corpus, e) && !LegacyIn(d, corpus, e)
  {
    legacy := ReferenceEvidenceInCorpus(d, e, corpus);
    var sources := ParseEvidenceCorpus(d, corpus);
    parsed := ReferenceEvidence(sources, e);
    ParsedIsLegacyOrDiff(d, corpus, e);
  }

  // ----- static checks -----

  /** A failed check with this command, that ran to its end, printed the excerpt. */
  predicate CheckShows(c: Check, e: Evidence) {
    && c.command == e.command && c.success == Some(false) && c.exitCode > 0 && !c.timedOut && c.error == ""
    && Contains(c.output, TrimSpace(e.excerpt))
  }

  predicate SourceChecks(s: Source, e: Evidence) {
    s.checks.Some? && exists i | 0 <= i < |s.checks.value| :: CheckShows(s.checks.value[i], e)
  }

  predicate StaticCheckIn(sources: seq<Source>, e: Evidence) {
    TrimSpace(e.excerpt) != "" && exists i | 0 <= i < |sources| :: SourceChecks(sources[i], e)
  }

  method StaticCheckEvidence(sources: seq<Source>, e: Evidence) returns (found: bool)
    ensures found <==> StaticCheckIn(sources, e)
  {
    if TrimSpace(e.excerpt) == "" {
      return false;
    }
    for i := 0 to |sources|
      invariant forall k | 0 <= k < i :: !SourceChecks(sources[k], e)
    {
      if sources[i].checks.None? {
        continue;
      }
      var checks := sources[i].checks.value;
      for j := 0 to |checks|
        invariant forall k | 0 <= k < j :: !CheckShows(checks[k], e)
      {
        var c := checks[j];
        if c.command != e.command || c.success != Some(false) || c.exitCode <= 0 || c.timedOut || c.error != "" {
          continue;
        }
        if Contains(c.output, TrimSpace(e.excerpt)) {
          assert SourceChecks(sources[i], e);
          return true;
        }
      }
    }
    return false;
  }

  predicate AnyContains(values: seq<string>, target: string) {
    exists i | 0 <= i < |values| :: Contains(values[i], target)
  }

  /** Some string of the corpus contains the target. */
  predicate StringIn(sources: seq<Source>, target: string) {
    TrimSpace(target) != "" && exists i | 0 <= i < |sources| :: AnyContains(sources[i].strings, TrimSpace(target))
  }

  method FindString(sources: seq<Source>, target: string) returns (found: bool)
    ensures found <==> StringIn(sources, target)
  {
    if TrimSpace(target) == "" {
      return false;
    }
    for i := 0 to |sources|
      invariant forall k | 0 <= k < i :: !AnyContains(sources[k].strings, TrimSpace(target))
    {
      var values := sources[i].strings;
      for j := 0 to |values|
        invariant forall k | 0 <= k < j :: !Contains(values[k], TrimSpace(target))
      {
        if Contains(values[j], TrimSpace(target)) {
          assert AnyContains(sources[i].strings, TrimSpace(target));
          return true;
        }
      }
    }
    return false;
  }

  // ----- findings -----

  predicate Supported(sources: seq<Source>, f: Finding, e: Evidence) {
    match e.kind
    case Reference => TrimSpace(e.text) != "" && e.file == f.file && e.line == f.line && ReferenceIn(sources, e)
    case StaticCheck => e.command != "" && StringIn(sources, e.command) && StaticCheckIn(sources, e)
    case Unknown => false
  }

  function SupportedOf(sources: seq<Source>, f: Finding): seq<Evidence> {
    Filter(f.evidence, e => Supported(sources, f, e))
  }

  method CheckEvidence(sources: seq<Source>, f: Finding, e: Evidence) returns (supported: bool)
    ensures supported <==> Supported(sources, f, e)
  {
    match e.kind {
      case Reference =>
        if TrimSpace(e.text) == "" || e.file != f.file || e.line != f.line {
          return false;
        }
        supported := ReferenceEvidence(sources, e);
      case StaticCheck =>
        if e.command == "" {
          return false;
        }
        var named := FindString(sources, e.command);
        if !named {
          return false;
        }
        supported := StaticCheckEvidence(sources, e);
      case Unknown =>
        return false;
    }
  }

  method SupportedEvidence(sources: seq<Source>, f: Finding) returns (supported: seq<Evidence>)
    ensures supported == SupportedOf(sources, f)
  {
    supported := [];
    ghost var keep := e => Supported(sources, f, e);
    for i := 0 to |f.evidence|
      invariant supported == Filter(f.evidence[..i], keep)
    {
      FilterAppend(f.evidence[..i], f.evidence[i], keep);
      assert f.evidence[..i + 1] == f.evidence[..i] + [f.evidence[i]];
      var ok := CheckEvidence(sources, f, f.evidence[i]);
      if ok {
        supported := supported + [f.evidence[i]];
      }
    }
    assert f.evidence[..|f.evidence|] == f.evidence;
  }

  predicate Keeps(sources: seq<Source>, f: Finding) {
    f.file != "" && f.line > 0 && SupportedOf(sources, f) != []
  }

  /** A kept finding: only its supported evidence, and a confidence the category allows. */
  function Normalized(sources: seq<Source>, f: Finding): Finding {
    f.(evidence := SupportedOf(sources, f),
       confidence := if f.confidence != "confirmed" || f.category == "performance" then "needs_verification" else f.confidence)
  }

  /**
   * A kept finding stays confirmed exactly if it was and is not about performance; its evidence is what is supported, in
   * order; and it says what it said at the place where it said it.
   */
  lemma ConfirmedStaysIff(sources: seq<Source>, f: Finding)
    ensures var n := Normalized(sources, f);
            && (n.confidence == "confirmed" <==> f.confidence == "confirmed" && f.category != "performance")
            && (n.confidence != "confirmed" ==> n.confidence == "needs_verification")
            && n.file == f.file && n.line == f.line && n.category == f.category && n.message == f.message
            && (forall e :: e in n.evidence <==> e in f.evidence && Supported(sources, f, e))
  {
    FilterMembers(f.evidence, e => Supported(sources, f, e));
  }

  function KeptOf(sources: seq<Source>, findings: seq<Finding>): seq<Finding> {
    Filter(findings, f => Keeps(sources, f))
  }

  function RejectedOf(sources: seq<Source>, findings: seq<Finding>): seq<Finding> {
    Filter(findings, f => !Keeps(sources, f))
  }

  function NormalizedAll(sources: seq<Source>, kept: seq<Finding>): (r: seq<Finding>)
    ensures |r| == |kept| && forall i | 0 <= i < |kept| :: r[i] == Normalized(sources, kept[i])
  {
    seq(|kept|, i requires 0 <= i < |kept| => Normalized(sources, kept[i]))
  }

  datatype Reason = NoLocation | NoEvidence

  datatype RejectedFinding = RejectedFinding(finding: Finding, reason: Reason)

  /** The reported reasons: a finding without a usable location, or without evidence at it. */
  function Reported(rejected: seq<Finding>): (r: seq<RejectedFinding>)
    ensures |r| == |rejected|
    ensures forall i | 0 <= i < |rejected| ::
              && r[i].finding == rejected[i]
              && (r[i].reason == NoLocation <==> rejected[i].file == "" || rejected[i].line <= 0)
  {
    seq(|rejected|, i requires 0 <= i < |rejected| =>
      RejectedFinding(rejected[i], if rejected[i].file == "" || rejected[i].line <= 0 then NoLocation else NoEvidence))
  }

  /** Keeps what is supported, normalized, and reports the rest with a reason, both in order. */
  method NormalizeFindings(d: Decoder, findings: seq<Finding>, corpus: seq<string>)
    returns (normalized: seq<Finding>, rejected: seq<RejectedFinding>)
    ensures var sources := Sources(d, corpus);
            && normalized == NormalizedAll(sources, KeptOf(sources, findings))
            && rejected == Reported(RejectedOf(sources, findings))
  {
    var sources := ParseEvidenceCorpus(d, corpus);
    normalized, rejected := [], [];
    for i := 0 to |findings|
      invariant normalized == NormalizedAll(sources, KeptOf(sources, findings[..i]))
      invariant rejected == Reported(RejectedOf(sources, findings[..i]))
    {
      var f := findings[i];
      FilterAppend(findings[..i], f, f => Keeps(sources, f));
      FilterAppend(findings[..i], f, f => !Keeps(sources, f));
      assert findings[..i + 1] == findings[..i] + [f];
      var evidence := SupportedEvidence(sources, f);
      if f.file == "" || f.line <= 0 || |evidence| == 0 {
        var reason := NoEvidence;
        if f.file == "" || f.line <= 0 {
          reason := NoLocation;
        }
        rejected := rejected + [RejectedFinding(f, reason)];
        continue;
      }
      if f.confidence != "confirmed" || f.category == "performance" {
        f := f.(confidence := "needs_verification");
      }
      f := f.(evidence := evidence);
      normalized := normalized + [f];
    }
    assert findings[..|findings|] == findings;
  }

  /** The strings the model was shown: those of a decodable text, or the text itself. */
  function Strings(d: Decoder, raw: string): seq<string> {
    if d.strings(raw).Some? then d.strings(raw).value else [raw]
  }

  /** Some decoded check of the corpus has this command, ran to its end, failed and printed the excerpt. */
  predicate FailedCheckIn(d: Decoder, corpus: seq<string>, command: string, excerpt: string) {
    exists raw <- corpus :: d.checks(raw).Some? && exists c <- d.checks(raw).value ::
      c.command == command && c.success == Some(false) && c.exitCode > 0 && !c.timedOut && c.error == "" && Contains(c.output, excerpt)
  }

  /** A static check supports a finding exactly if the corpus names its command and shows it fail with that output. */
  lemma StaticCheckSupportsIff(d: Decoder, corpus: seq<string>, f: Finding, e: Evidence)
    requires e.kind == StaticCheck
    ensures Supported(Sources(d, corpus), f, e) <==>
            && TrimSpace(e.command) != "" && TrimSpace(e.excerpt) != ""
            && (exists raw <- corpus :: exists s <- Strings(d, raw) :: Contains(s, TrimSpace(e.command)))
            && FailedCheckIn(d, corpus, e.command, TrimSpace(e.excerpt))
  {
    assert TrimSpace("") == "";
    NamedIn(d, corpus, TrimSpace(e.command));
    CheckedIn(d, corpus, e);
  }

  lemma NamedIn(d: Decoder, corpus: seq<string>, target: string)
    ensures (exists i | 0 <= i < |corpus| :: AnyContains(Sources(d, corpus)[i].strings, target)) <==>
            (exists raw <- corpus :: exists s <- Strings(d, raw) :: Contains(s, target))
  {
    var sources := Sources(d, corpus);
    if i :| 0 <= i < |corpus| && AnyContains(sources[i].strings, target) {
      var j :| 0 <= j < |sources[i].strings| && Contains(sources[i].strings[j], target);
      assert sources[i] == Parse(d, corpus[i]) && sources[i].strings[j] in Strings(d, corpus[i]);
    }
    if raw :| raw in corpus && exists s <- Strings(d, raw) :: Contains(s, target) {
      var s :| s in Strings(d, raw) && Contains(s, target);
      var i :| 0 <= i < |corpus| && corpus[i] == raw;
      var j :| 0 <= j < |Strings(d, raw)| && Strings(d, raw)[j] == s;
      assert sources[i].strings[j] == s;
    }
  }

  lemma CheckedIn(d: Decoder, corpus: seq<string>, e: Evidence)
    ensures (exists i | 0 <= i < |corpus| :: SourceChecks(Sources(d, corpus)[i], e)) <==>
            FailedCheckIn(d, corpus, e.command, TrimSpace(e.excerpt))
  {
    var sources := Sources(d, corpus);
    if i :| 0 <= i < |corpus| && SourceChecks(sources[i], e) {
      var j :| 0 <= j < |sources[i].checks.value| && CheckShows(sources[i].checks.value[j], e);
      assert sources[i] == Parse(d, corpus[i]) && sources[i].checks.value[j] in d.checks(corpus[i]).value;
    }
    if FailedCheckIn(d, corpus, e.command, TrimSpace(e.excerpt)) {
      var raw :| raw in corpus && d.checks(raw).Some? && exists c <- d.checks(raw).value ::
        c.command == e.command && c.success == Some(false) && c.exitCode > 0 && !c.timedOut && c.error == "" &&
        Contains(c.output, TrimSpace(e.excerpt));
      var c :| c in d.checks(raw).value && c.command == e.command && c.success == Some(false) && c.exitCode > 0 &&
        !c.timedOut && c.error == "" && Contains(c.output, TrimSpace(e.excerpt));
      var i :| 0 <= i < |corpus| && corpus[i] == raw;
      var j :| 0 <= j < |d.checks(raw).value| && d.checks(raw).value[j] == c;
      assert CheckShows(sources[i].checks.value[j], e);
    }
  }

  // ----- what filtering guarantees -----

  /** Every finding is kept or rejected, and the kept ones stay in order. */
  lemma Partition(sources: seq<Source>, findings: seq<Finding>) returns (at: seq<nat>)
    ensures multiset(findings) == multiset(KeptOf(sources, findings)) + multiset(RejectedOf(sources, findings))
    ensures |at| == |KeptOf(sources, findings)|
    ensures forall i | 0 <= i < |at| :: at[i] < |findings| && findings[at[i]] == KeptOf(sources, findings)[i]
    ensures forall i, j | 0 <= i < j < |at| :: at[i] < at[j]
  {
    var keep := f => Keeps(sources, f);
    KeptOrRejected(sources, findings);
    at := FilterInOrder(findings, keep);
    assert KeptOf(sources, findings) == Filter(findings, keep);
  }

  lemma KeptOrRejected(sources: seq<Source>, findings: seq<Finding>)
    ensures multiset(findings) == multiset(KeptOf(sources, findings)) + multiset(RejectedOf(sources, findings))
  {
    FilterPartition(findings, f => Keeps(sources, f), f => !Keeps(sources, f));
  }

  /** Support depends on a finding's place only. */
  lemma SamePlace(sources: seq<Source>, f: Finding, g: Finding)
    requires f.file == g.file && f.line == g.line
    ensures forall e :: Supported(sources, f, e) == Supported(sources, g, e)
  {
  }

  /** Normalizing a kept finding again changes nothing, and keeps it. */
  lemma NormalizedTwice(sources: seq<Source>, f: Finding)
    requires Keeps(sources, f)
    ensures var n := Normalized(sources, f); Keeps(sources, n) && Normalized(sources, n) == n
  {
    var n := Normalized(sources, f);
    FilterMembers(f.evidence, e => Supported(sources, f, e));
    SamePlace(sources, f, n);
    FilterAll(n.evidence, e => Supported(sources, n, e));
  }

  /** Filtering the filtered findings again keeps them all as they are. */
  lemma Idempotent(sources: seq<Source>, findings: seq<Finding>)
    ensures var kept := NormalizedAll(sources, KeptOf(sources, findings));
            KeptOf(sources, kept) == kept && RejectedOf(sources, kept) == [] && NormalizedAll(sources, kept) == kept
  {
    var kept := NormalizedAll(sources, KeptOf(sources, findings));
    FilterMembers(findings, f => Keeps(sources, f));
    forall i | 0 <= i < |kept| ensures Keeps(sources, kept[i]) && Normalized(sources, kept[i]) == kept[i] {
      assert KeptOf(sources, findings)[i] in KeptOf(sources, findings);
      NormalizedTwice(sources, KeptOf(sources, findings)[i]);
    }
    FilterAll(kept, f => Keeps(sources, f));
    FilterNone(kept, f => !Keeps(sources, f));
  }

  /** More sources support at least as much. */
  lemma SupportedGrows(sources: seq<Source>, more: seq<Source>, f: Finding, e: Evidence)
    requires forall s <- sources :: s in more
    requires Supported(sources, f, e)
    ensures Supported(more, f, e)
  {
    if e.kind == Reference {
      var i :| 0 <= i < |sources| && SourceMatches(sources[i], e);
      assert sources[i] in more;
    } else {
      var i :| 0 <= i < |sources| && AnyContains(sources[i].strings, TrimSpace(e.command));
      assert sources[i] in more;
      var j :| 0 <= j < |sources| && SourceChecks(sources[j], e);
      assert sources[j] in more;
    }
  }

  lemma MoreSources(d: Decoder, corpus: seq<string>, extra: seq<string>)
    requires forall raw <- corpus :: raw in extra
    ensures forall s <- Sources(d, corpus) :: s in Sources(d, extra)
  {
    var sources, more := Sources(d, corpus), Sources(d, extra);
    forall s | s in sources ensures s in more {
      var i :| 0 <= i < |sources| && sources[i] == s;
      assert corpus[i] in extra;
      var j :| 0 <= j < |extra| && extra[j] == corpus[i];
      assert more[j] == s;
    }
  }

  /** Extra tool output never drops a finding, nor any of its evidence. */
  lemma Monotone(d: Decoder, corpus: seq<string>, extra: seq<string>, f: Finding)
    requires forall raw <- corpus :: raw in extra
    requires Keeps(Sources(d, corpus), f)
    ensures Keeps(Sources(d, extra), f)
    ensures forall e <- SupportedOf(Sources(d, corpus), f) :: e in SupportedOf(Sources(d, extra), f)
  {
    var sources, more := Sources(d, corpus), Sources(d, extra);
    MoreSources(d, corpus, extra);
    FilterMembers(f.evidence, e => Supported(sources, f, e));
    FilterMembers(f.evidence, e => Supported(more, f, e));
    forall e | e in SupportedOf(sources, f) ensures e in SupportedOf(more, f) {
      SupportedGrows(sources, more, f, e);
    }
    assert SupportedOf(sources, f)[0] in SupportedOf(more, f);
  }
}
