/** The session files and the learning step that reads them: `SessionStore` and `extract_patterns`. */
module PostJob {
  import opened Options
  import opened Text
  import opened Regex
  import opened Progress
  import opened RoundTrip
  import opened ProgressLog
  import opened GraphStore
  import opened Sequences

  /** The files of one operativo. The storage back end is the map of its contents. */
  class SessionStore {
    const operativoId: string
    var files: map<string, string>
    ghost var appended: seq<PhaseResult>

    function Key(filename: string): string {
      "sessions/" + operativoId + "/" + filename
    }

    ghost predicate Valid()
      reads this
    {
      if Key("PROGRESS.md") in files then files[Key("PROGRESS.md")] == Log(appended) else appended == []
    }

    constructor (operativoId: string)
      ensures Valid() && appended == [] && files == map[] && this.operativoId == operativoId
    {
      this.operativoId, files, appended := operativoId, map[], [];
    }

    method AppendProgress(result: PhaseResult)
      requires Valid()
      modifies this
      ensures Valid() && appended == old(appended) + [result]
      ensures files.Keys == old(files).Keys + {Key("PROGRESS.md")}
      ensures forall k :: k in old(files) && k != Key("PROGRESS.md") ==> files[k] == old(files)[k]
    {
      var entry := Entry(result);
      var key := Key("PROGRESS.md");
      LogSnoc(appended, result);
      if key in files {
        files := files[key := files[key] + entry];
      } else {
        assert Log(appended) + entry == entry;
        files := files[key := entry];
      }
      appended := appended + [result];
    }

    method ReadProgress() returns (text: string)
      requires Valid()
      ensures text == Log(appended)
    {
      text := if Key("PROGRESS.md") in files then files[Key("PROGRESS.md")] else "";
    }
  }

  // ----- What is learned -----

  /** The memory type and importance that a report's words give it. */
  function Classify(report: string): (MemoryType, real) {
    if Contains(report, "NEEDS_REVIEW") then (MemoryType.Error, 0.7)
    else if Contains(report, "status=COMPLETED") then (MemoryType.Pattern, 0.5)
    else (MemoryType.Fact, 0.4)
  }

  /** How a section becomes the memory with a given id. */
  function MemoryOf(domain: string, operativoId: string, embed: string -> seq<real>): (Section, nat) -> Node {
    (sec: Section, id: nat) =>
      var (kind, importance) := Classify(sec.report);
      Node(id, domain, sec.report, kind, importance, embed(sec.report), Some(operativoId),
           map["phase" := sec.phase, "agent" := sec.agent])
  }

  /** One memory for each section, with consecutive new ids. */
  function Memories(memory: (Section, nat) -> Node, secs: seq<Section>, id: nat): (r: seq<Node>)
    ensures |r| == |secs|
  {
    seq(|secs|, i requires 0 <= i < |secs| => memory(secs[i], id + i))
  }

  lemma {:induction false} KeptSnoc(s: string, ms: seq<Marks>, m: Marks)
    ensures Kept(s, ms + [m]) == Kept(s, ms) + KeptOne(SectionOf(s, m))
    decreases |ms|
  {
    if ms == [] {
      assert ms + [m] == [m];
    } else {
      KeptSnoc(s, ms[1..], m);
      assert (ms + [m])[1..] == ms[1..] + [m];
      Regrouped(KeptOne(SectionOf(s, ms[0])), Kept(s, ms[1..]), KeptOne(SectionOf(s, m)));
    }
  }

  lemma MemoriesSnoc(memory: (Section, nat) -> Node, secs: seq<Section>, sec: Section, id: nat)
    ensures Memories(memory, secs + [sec], id) == Memories(memory, secs, id) + [memory(sec, id + |secs|)]
  {
  }

  /** `extract_patterns`: every readable section becomes one memory, and nothing else changes. */
  method ExtractPatterns(w: char -> bool, store: InMemoryGraphStore, domain: string, operativoId: string,
                         progress: string)
    returns (count: nat)
    requires store.Valid()
    modifies store
    ensures store.Valid() && store.forgotten == old(store.forgotten)
    ensures count == |Extracted(w, progress)|
    ensures store.nodes == old(store.nodes)
                           + Memories(MemoryOf(domain, operativoId, store.embedDocument), Extracted(w, progress),
                                      old(store.nextId))
  {
    if Strip(progress) == "" { return 0; }
    var sections := FindAll(PhaseRe(w), progress, 0);
    count := StoreSections(store, domain, operativoId, progress, sections);
  }

  /** One round of the loop: a section is stored as a memory unless its report is blank. */
  method StoreSection(store: InMemoryGraphStore, domain: string, operativoId: string, sec: Section) returns (added: nat)
    requires store.Valid()
    modifies store
    ensures store.Valid() && store.forgotten == old(store.forgotten) && store.nextId == old(store.nextId) + added
    ensures added == if sec.report == "" then 0 else 1
    ensures var memory := MemoryOf(domain, operativoId, store.embedDocument)(sec, old(store.nextId));
            store.nodes == if added == 0 then old(store.nodes) else old(store.nodes) + [memory]
  {
    if sec.report == "" { return 0; }
    var (kind, importance) := Classify(sec.report);
    var id := store.Store(domain, sec.report, kind, importance, Some(operativoId),
                          map["phase" := sec.phase, "agent" := sec.agent]);
    added := 1;
  }

  /** The loop of `extract_patterns` over the matches. */
  method StoreSections(store: InMemoryGraphStore, domain: string, operativoId: string, progress: string,
                       sections: seq<Marks>)
    returns (count: nat)
    requires store.Valid()
    modifies store
    ensures store.Valid() && store.forgotten == old(store.forgotten)
    ensures count == |Kept(progress, sections)|
    ensures store.nodes == old(store.nodes)
                           + Memories(MemoryOf(domain, operativoId, store.embedDocument), Kept(progress, sections),
                                      old(store.nextId))
  {
    ghost var memory := MemoryOf(domain, operativoId, store.embedDocument);
    ghost var kept: seq<Section> := [];
    count := 0;
    for i := 0 to |sections|
      invariant kept == Kept(progress, sections[..i]) && count == |kept|
      invariant store.Valid() && store.forgotten == old(store.forgotten) && store.nextId == old(store.nextId) + count
      invariant store.nodes == old(store.nodes) + Memories(memory, kept, old(store.nextId))
    {
      var sec := SectionOf(progress, sections[i]);
      ghost var next := Kept(progress, sections[..i + 1]);
      KeptTake(progress, sections, i);
      KeptStepSnoc(memory, old(store.nextId), kept, sec, next, store.nextId);
      Regrouped(old(store.nodes), Memories(memory, kept, old(store.nextId)), [memory(sec, store.nextId)]);
      var added := StoreSection(store, domain, operativoId, sec);
      kept := next;
      count := count + added;
    }
    assert sections[..|sections|] == sections;
  }

  lemma KeptTake(s: string, ms: seq<Marks>, i: nat)
    requires i < |ms|
    ensures Kept(s, ms[..i + 1]) == Kept(s, ms[..i]) + KeptOne(SectionOf(s, ms[i]))
  {
    assert ms[..i + 1] == ms[..i] + [ms[i]];
    KeptSnoc(s, ms[..i], ms[i]);
  }

  lemma KeptStepSnoc(memory: (Section, nat) -> Node, id: nat, before: seq<Section>, sec: Section, after: seq<Section>,
                     next: nat)
    requires after == before + KeptOne(sec) && next == id + |before|
    ensures if sec.report == "" then after == before
            else |after| == |before| + 1
                 && Memories(memory, after, id) == Memories(memory, before, id) + [memory(sec, next)]
  {
    MemoriesSnoc(memory, before, sec, id);
  }

  // ----- What the workflows pass instead of the file -----

  /** No line of s starts a section. */
  ghost predicate NoSectionStart(s: string) {
    forall p: nat :: AtLineStart(s, p) ==> !At(s, p, "## ")
  }

  lemma {:induction false} NothingKept(w: char -> bool, s: string, p: nat)
    requires p <= |s| && NoSectionStart(s)
    ensures KeptFrom(w, s, p) == []
    decreases |s| - p
  {
    var r := Run(PhaseRe(w), s, p);
    if r.Some? {
      MatchSound(w, s, p, r.value);
      MatchAtLineStart(w, s, p);
    }
    KeptSkip(w, s, p);
    if p < |s| { NothingKept(w, s, p + 1); }
  }

  /** A line of a workflow's progress list: it starts with its phase and holds no line break. */
  predicate ProgressLine(line: string) {
    line != "" && line[0] == 'P' && '\n' !in line
  }

  lemma {:induction false} JoinedHasNoSection(parts: seq<string>)
    requires forall i :: 0 <= i < |parts| ==> ProgressLine(parts[i])
    ensures NoSectionStart(Join("\n", parts))
    ensures parts != [] ==> Join("\n", parts) != "" && Join("\n", parts)[0] == 'P'
  {
    var s := Join("\n", parts);
    if |parts| > 1 { JoinedHasNoSection(parts[1..]); }
    forall p: nat | AtLineStart(s, p) ensures !At(s, p, "## ") {
      if |parts| > 1 && p > |parts[0]| {
        var rest := Join("\n", parts[1..]);
        var q := p - |parts[0]| - 1;
        assert q > 0 ==> s[p - 1] == rest[q - 1];
        assert AtLineStart(rest, q);
        AtSection(s, p);
        AtSection(rest, q);
      } else if parts != [] {
        AtSection(s, p);
      }
    }
  }

  /** The progress lines that a workflow hands to the learning step hold nothing that it can learn. */
  lemma WorkflowProgressTeachesNothing(w: char -> bool, parts: seq<string>)
    requires forall i :: 0 <= i < |parts| ==> ProgressLine(parts[i])
    ensures Extracted(w, Join("\n", parts)) == []
  {
    JoinedHasNoSection(parts);
    NothingKept(w, Join("\n", parts), 0);
  }
}
