/** Runs that show why the conditions of the protocol theorems are needed. */
module ProtocolWitnesses {
  import opened Collections
  import opened Firmware
  import opened Report
  import opened Protocol
  import opened ProtocolSafety
  import opened ProtocolTheorems

  /** A job with two distinct children. */
  datatype Names = Names(j: JobId, a: BlobId, b: BlobId)

  type Two = n: Names | n.a != n.b witness Names("job", "a", "b")

  const MATCH := CveMatch("CVE-1", Confirmed, None, ExactCpe, None)

  /** What a run under construction keeps to: no claim has run out, or 0 is the only worker. */
  datatype Mode = Mode(held: bool, alone: bool)

  ghost predicate Good(r: Run, mode: Mode) {
    && Legal(r) && (mode.alone ==> OneWorker(r, 0))
    && (mode.held ==> Prompt(r) && End(r).owners.Keys <= End(r).claims)
  }

  lemma Step(r: Run, e: Event, mode: Mode) returns (t: Run)
    requires Good(r, mode) && Enabled(End(r), e) && !e.ExpireClaim? && (mode.alone ==> e.Triage? || e.w == 0)
    ensures t == Then(r, e) && Good(t, mode) && End(t) == Next(End(r), e)
  {
    t := Then(r, e);
    if mode.held {
      ClaimsStay(End(r), e);
    }
  }

  lemma ClaimsStay(s: World, e: Event)
    requires Enabled(s, e) && !e.ExpireClaim? && s.owners.Keys <= s.claims
    ensures PromptStep(s, e) && Next(s, e).owners.Keys <= Next(s, e).claims
  {
    if e.Deliver? {
      DeliverClaims(s, e.w, e.m);
    } else {
      OnlyDeliverClaims(s, e);
    }
  }

  lemma DeliverClaims(s: World, w: Worker, m: Message)
    requires s.owners.Keys <= s.claims
    ensures KeyOf(m) in s.owners ==> KeyOf(m) in s.claims
    ensures DoDeliver(s, w, m).owners.Keys <= DoDeliver(s, w, m).claims
  {
  }

  ghost function Discovered(n: Two, s: World, b: BlobId): World {
    At(s.(uploads := s.uploads[b := n.j], total := Incr(s.total, n.j), counted := Insert(s.counted, n.j, b),
          sent := s.sent + {ExtractedMsg(n.j, b)}), 0, Unpacking(n.j))
  }

  lemma DiscoveredSteps(n: Two, s: World, b: BlobId)
    requires ProcOf(s, 0) == Unpacking(n.j)
    ensures DoEmitExtracted(DoCountChild(DoUpload(s, 0, b), 0), 0) == Discovered(n, s, b)
  {
    var t := DoUpload(s, 0, b);
    t := DoCountChild(t, 0);
    t := DoEmitExtracted(t, 0);
    assert t.procs == s.procs[0 := Unpacking(n.j)];
  }

  /** Unpack one child of the job on worker 0: upload, count, emit. */
  lemma Discover(n: Two, r: Run, b: BlobId, mode: Mode) returns (t: Run)
    requires Good(r, mode) && ProcOf(End(r), 0) == Unpacking(n.j) && b !in End(r).uploads
    ensures Good(t, mode) && End(t) == Discovered(n, End(r), b)
  {
    t := Step(r, Upload(0, b), mode);
    assert End(t) == DoUpload(End(r), 0, b);
    t := Step(t, CountChild(0), mode);
    t := Step(t, EmitExtracted(0), mode);
    DiscoveredSteps(n, End(r), b);
  }

  ghost function Analysed(n: Two, s: World, w: Worker, b: BlobId): World {
    At(s.(claims := s.claims + {ClaimKey(Extracted, b)}, owners := s.owners[ClaimKey(Extracted, b) := w], completed := Incr(s.completed, n.j),
          analysed := Insert(s.analysed, n.j, b), sent := s.sent + {AnalyzedMsg(n.j, b)}), w, Idle)
  }

  lemma AnalysedSteps(n: Two, s: World, w: Worker, b: BlobId)
    requires ClaimKey(Extracted, b) !in s.claims
    ensures DoEmitAnalyzed(DoCountAnalyzed(DoDeliver(s, w, ExtractedMsg(n.j, b)), w), w) == Analysed(n, s, w, b)
  {
    var t := DoDeliver(s, w, ExtractedMsg(n.j, b));
    t := DoCountAnalyzed(t, w);
    t := DoEmitAnalyzed(t, w);
    assert t.procs == s.procs[w := Idle];
  }

  /** Analyse one child on an idle worker. */
  lemma Analyse(n: Two, r: Run, w: Worker, b: BlobId, mode: Mode) returns (t: Run)
    requires Good(r, mode) && (mode.alone ==> w == 0)
    requires ProcOf(End(r), w).Idle? && ExtractedMsg(n.j, b) in End(r).sent && ClaimKey(Extracted, b) !in End(r).claims
    ensures Good(t, mode) && End(t) == Analysed(n, End(r), w, b)
  {
    t := Step(r, Deliver(w, ExtractedMsg(n.j, b)), mode);
    t := Step(t, CountAnalyzed(w), mode);
    t := Step(t, EmitAnalyzed(w), mode);
    AnalysedSteps(n, End(r), w, b);
  }

  ghost function Scored(n: Two, s: World, w: Worker, b: BlobId, cs: seq<Component>): World {
    At(s.(claims := s.claims + {ClaimKey(Analyzed, b)}, owners := s.owners[ClaimKey(Analyzed, b) := w],
          fragments := s.fragments[FragmentKey(n.j, b) := cs], results := s.results[FragmentKey(n.j, b) := [MATCH]],
          matched := Incr(s.matched, n.j), scored := Insert(s.scored, n.j, b),
          sent := s.sent + {MatchedMsg(n.j, b, [MATCH])}), w, Idle)
  }

  ghost function Stored(n: Two, s: World, w: Worker, b: BlobId, cs: seq<Component>): World {
    At(s.(claims := s.claims + {ClaimKey(Analyzed, b)}, owners := s.owners[ClaimKey(Analyzed, b) := w],
          fragments := s.fragments[FragmentKey(n.j, b) := cs]),
       w, FragmentStored(n.j, b, [MATCH]))
  }

  ghost function Counted(n: Two, s: World, w: Worker, b: BlobId): World {
    At(s.(matched := Incr(s.matched, n.j), scored := Insert(s.scored, n.j, b),
          results := s.results[FragmentKey(n.j, b) := [MATCH]],
          sent := s.sent + {MatchedMsg(n.j, b, [MATCH])}), w, Idle)
  }

  lemma StoredSteps(n: Two, s: World, w: Worker, b: BlobId, cs: seq<Component>)
    requires ClaimKey(Analyzed, b) !in s.claims
    ensures DoStoreFragment(DoDeliver(s, w, AnalyzedMsg(n.j, b)), w, cs, [MATCH]) == Stored(n, s, w, b, cs)
  {
    var t := DoDeliver(s, w, AnalyzedMsg(n.j, b));
    t := DoStoreFragment(t, w, cs, [MATCH]);
    assert t.procs == s.procs[w := FragmentStored(n.j, b, [MATCH])];
  }

  lemma CountedSteps(n: Two, s: World, w: Worker, b: BlobId)
    requires ProcOf(s, w) == FragmentStored(n.j, b, [MATCH])
    ensures DoEmitMatched(DoCountMatched(s, w), w) == Counted(n, s, w, b)
  {
    var t := DoCountMatched(s, w);
    t := DoEmitMatched(t, w);
    assert t.procs == s.procs[w := Idle];
  }

  lemma ScoredSteps(n: Two, s: World, w: Worker, b: BlobId, cs: seq<Component>)
    ensures Counted(n, Stored(n, s, w, b, cs), w, b) == Scored(n, s, w, b, cs)
  {
    assert s.procs[w := FragmentStored(n.j, b, [MATCH])][w := Idle] == s.procs[w := Idle];
  }

  lemma StoreOne(n: Two, r: Run, w: Worker, b: BlobId, cs: seq<Component>, mode: Mode) returns (t: Run)
    requires forall c :: c in cs ==> c.source == b
    requires Good(r, mode) && (mode.alone ==> w == 0)
    requires ProcOf(End(r), w).Idle? && AnalyzedMsg(n.j, b) in End(r).sent && ClaimKey(Analyzed, b) !in End(r).claims
    ensures Good(t, mode) && End(t) == Stored(n, End(r), w, b, cs)
  {
    t := Step(r, Deliver(w, AnalyzedMsg(n.j, b)), mode);
    t := Step(t, StoreFragment(w, cs, [MATCH]), mode);
    StoredSteps(n, End(r), w, b, cs);
  }

  lemma CountOne(n: Two, r: Run, w: Worker, b: BlobId, mode: Mode) returns (t: Run)
    requires Good(r, mode) && (mode.alone ==> w == 0) && ProcOf(End(r), w) == FragmentStored(n.j, b, [MATCH])
    ensures Good(t, mode) && End(t) == Counted(n, End(r), w, b)
  {
    t := Step(r, CountMatched(w), mode);
    t := Step(t, EmitMatched(w), mode);
    CountedSteps(n, End(r), w, b);
  }

  /** Match one child on an idle worker, with one finding. */
  lemma Match(n: Two, r: Run, w: Worker, b: BlobId, cs: seq<Component>, mode: Mode) returns (t: Run)
    requires forall c :: c in cs ==> c.source == b
    requires Good(r, mode) && (mode.alone ==> w == 0)
    requires ProcOf(End(r), w).Idle? && AnalyzedMsg(n.j, b) in End(r).sent && ClaimKey(Analyzed, b) !in End(r).claims
    ensures Good(t, mode) && End(t) == Scored(n, End(r), w, b, cs)
  {
    t := StoreOne(n, r, w, b, cs, mode);
    t := CountOne(n, t, w, b, mode);
    ScoredSteps(n, End(r), w, b, cs);
  }

  /** From a triaged job to worker 0 unpacking it. */
  lemma StartUnpack(n: Two, mode: Mode) returns (t: Run)
    ensures Good(t, mode)
    ensures End(t) == At(INIT.(sent := {TriagedMsg(n.j)}, claims := {ClaimKey(Triaged, n.j)},
                              owners := map[ClaimKey(Triaged, n.j) := 0]), 0, Unpacking(n.j))
  {
    t := Step(Empty, Triage(n.j), mode);
    assert INIT.sent + {TriagedMsg(n.j)} == {TriagedMsg(n.j)};
    t := Step(t, Deliver(0, TriagedMsg(n.j)), mode);
    assert INIT.claims + {ClaimKey(Triaged, n.j)} == {ClaimKey(Triaged, n.j)};
  }

  // ---- a total that went stale ------------------------------------------------------

  /** Worker 0 is unpacking and has counted the first child; worker 1 is at `p`. */
  ghost predicate OneCounted(n: Two, s: World, p: Proc) {
    && ProcOf(s, 0) == Unpacking(n.j) && ProcOf(s, 1) == p && s.uploads.Keys == {n.a}
    && s.total == map[n.j := 1] && s.marker == {}
  }

  ghost predicate NoneMatched(s: World) {
    s.matched == map[] && s.fragments == map[] && s.scored == map[] && s.docs == map[]
  }

  ghost predicate OneMatched(n: Two, s: World) {
    s.matched == map[n.j := 1] && s.fragments == map[FragmentKey(n.j, n.a) := []] && BlobsOf(s.scored, n.j) == {n.a}
  }

  /** The second child has not been claimed by anybody. */
  ghost predicate Unclaimed(n: Two, s: World) {
    ClaimKey(Extracted, n.b) !in s.claims && ClaimKey(Analyzed, n.b) !in s.claims
  }

  lemma FirstChildFound(n: Two, mode: Mode) returns (r: Run)
    ensures Good(r, mode) && OneCounted(n, End(r), Idle) && NoneMatched(End(r))
    ensures ExtractedMsg(n.j, n.a) in End(r).sent && End(r).claims == {ClaimKey(Triaged, n.j)}
    ensures BlobsOf(End(r).counted, n.j) == {n.a} && NoMatchedFor(End(r), n.b)
  {
    r := StartUnpack(n, mode);
    r := Discover(n, r, n.a, mode);
  }

  lemma FirstChildAnalysed(n: Two, mode: Mode) returns (r: Run)
    requires !mode.alone
    ensures Good(r, mode) && OneCounted(n, End(r), Idle) && NoneMatched(End(r))
    ensures AnalyzedMsg(n.j, n.a) in End(r).sent && End(r).claims == {ClaimKey(Triaged, n.j), ClaimKey(Extracted, n.a)}
  {
    r := FirstChildFound(n, mode);
    r := Analyse(n, r, 1, n.a, mode);
  }

  lemma FirstChildMatched(n: Two, mode: Mode) returns (r: Run)
    requires !mode.alone
    ensures Good(r, mode) && OneCounted(n, End(r), Idle) && OneMatched(n, End(r)) && End(r).docs == map[]
    ensures MatchedMsg(n.j, n.a, [MATCH]) in End(r).sent && ClaimKey(Matched, n.a) !in End(r).claims && Unclaimed(n, End(r))
  {
    r := FirstChildAnalysed(n, mode);
    r := Match(n, r, 1, n.a, [], mode);
  }

  ghost function OneDoc(n: Two): map<JobId, Doc> {
    map[n.j := Doc([Slot(n.a, [MATCH])], None)]
  }

  lemma RecordFirst(n: Two, s: World, w: Worker)
    requires s.docs == map[] && ProcOf(s, w) == Recording(n.j, n.a, [MATCH])
    ensures DoRecordSlot(s, w) == At(s.(docs := OneDoc(n)), w, GateStart(n.j))
  {
    assert Find([], n.a) == 0;
    assert [] + [Slot(n.a, [MATCH])] == [Slot(n.a, [MATCH])];
  }

  /** Worker 1 has recorded the first child while worker 0 is still unpacking. */
  lemma FirstChildRecorded(n: Two, mode: Mode) returns (r: Run)
    requires !mode.alone
    ensures Good(r, mode) && OneCounted(n, End(r), GateStart(n.j)) && OneMatched(n, End(r)) && Unclaimed(n, End(r))
    ensures End(r).docs == OneDoc(n)
  {
    r := FirstChildMatched(n, mode);
    r := Step(r, Deliver(1, MatchedMsg(n.j, n.a, [MATCH])), mode);
    RecordFirst(n, End(r), 1);
    r := Step(r, RecordSlot(1), mode);
  }

  lemma TotalReadThenMore(n: Two, r: Run, mode: Mode) returns (t: Run)
    requires Good(r, mode) && !mode.alone && OneCounted(n, End(r), GateStart(n.j))
    ensures Good(t, mode)
    ensures End(t) == Discovered(n, At(End(r), 1, TotalRead(n.j, 1, false)), n.b)
  {
    t := Step(r, ReadTotal(1), mode);
    assert End(t) == At(End(r), 1, TotalRead(n.j, 1, false));
    t := Discover(n, t, n.b, mode);
  }

  /** Both children counted, the marker set, the first one matched and recorded; worker 0
  is idle and worker 1 at `p`. */
  ghost predicate Stale(n: Two, s: World, p: Proc) {
    && ProcOf(s, 0) == Idle && ProcOf(s, 1) == p && s.marker == {n.j} && n.b in BlobsOf(s.counted, n.j)
    && OneMatched(n, s) && Unclaimed(n, s) && ExtractedMsg(n.j, n.b) in s.sent
    && s.total == map[n.j := 2]
  }

  /** Worker 1 reads the total, then worker 0 counts another child and finishes. */
  lemma TotalGoesStale(n: Two, mode: Mode) returns (t: Run)
    requires !mode.alone
    ensures Good(t, mode) && Stale(n, End(t), TotalRead(n.j, 1, false)) && End(t).docs == OneDoc(n)
  {
    var r := FirstChildRecorded(n, mode);
    t := TotalReadThenMore(n, r, mode);
    DiscoveredKeeps(n, At(End(r), 1, TotalRead(n.j, 1, false)));
    FinishStale(n, End(t), TotalRead(n.j, 1, false));
    t := Step(t, FinishUnpack(0), mode);
  }

  lemma DiscoveredKeeps(n: Two, s: World)
    requires s.total == map[n.j := 1]
    ensures var t := Discovered(n, s, n.b);
      && t.total == map[n.j := 2] && n.b in BlobsOf(t.counted, n.j) && ExtractedMsg(n.j, n.b) in t.sent
      && t.matched == s.matched && t.fragments == s.fragments && t.scored == s.scored && t.docs == s.docs
      && t.claims == s.claims && t.marker == s.marker && t.procs == s.procs[0 := Unpacking(n.j)]
  {
  }

  lemma FinishStale(n: Two, t: World, p: Proc)
    requires ProcOf(t, 0) == Unpacking(n.j) && ProcOf(t, 1) == p && t.marker == {} && n.b in BlobsOf(t.counted, n.j)
    requires OneMatched(n, t) && Unclaimed(n, t) && ExtractedMsg(n.j, n.b) in t.sent && t.total == map[n.j := 2]
    ensures Stale(n, DoFinishUnpack(t, 0), p)
  {
  }

  lemma StaleReading(n: Two, mode: Mode) returns (r: Run)
    requires !mode.alone
    ensures Good(r, mode) && Stale(n, End(r), Reading(n.j, false)) && End(r).docs == OneDoc(n)
  {
    r := TotalGoesStale(n, mode);
    r := Step(r, ReadMarker(1), mode);
    r := Step(r, ReadMatched(1), mode);
  }

  /** With two workers the total can be stale: worker 1 reads it after the first child,
  worker 0 then counts a second child and sets the marker, and the gate passes while
  the second child has not been matched. No claim runs out. */
  lemma StaleTotalPassesGate(n: Two) returns (r: Run)
    ensures Legal(r) && Prompt(r)
    ensures ProcOf(End(r), 1) == Reading(n.j, false)
    ensures var s := End(r);
      n.j in s.marker && n.b in BlobsOf(s.counted, n.j) && FragmentKey(n.j, n.b) !in s.fragments && !Complete(s, n.j)
  {
    r := StaleReading(n, Mode(true, false));
    assert n.b !in BlobsOf(End(r).scored, n.j);
  }

  lemma StaleListing(n: Two, mode: Mode) returns (r: Run)
    requires !mode.alone
    ensures Good(r, mode) && Stale(n, End(r), Listing(n.j, false, [Slot(n.a, [MATCH])])) && End(r).docs == OneDoc(n)
  {
    r := StaleReading(n, mode);
    r := Step(r, ReadPartial(1), mode);
  }

  lemma StaleAssembled(n: Two, mode: Mode) returns (r: Run)
    requires !mode.alone
    ensures Good(r, mode) && ProcOf(End(r), 1).Assembled? && Stale(n, End(r), ProcOf(End(r), 1)) && End(r).docs == OneDoc(n)
    ensures var p := ProcOf(End(r), 1); p.job == n.j && p.report.components == []
  {
    r := StaleListing(n, mode);
    NothingListed(n, End(r));
    r := Step(r, ListFragments(1, [n.a]), mode);
  }

  lemma NothingListed(n: Two, s: World)
    requires s.fragments == map[FragmentKey(n.j, n.a) := []]
    ensures IsListing(s.fragments, n.j, [n.a]) && Dedup(Concat(Listed(s.fragments, n.j, [n.a]))) == []
  {
    var order := [n.a];
    assert order[0] == n.a;
    var listed := Listed(s.fragments, n.j, order);
    assert |listed| == 1 && listed[0] == [] && listed[..0] == [];
    assert Concat(listed) == [];
  }

  lemma StaleFinalized(n: Two, mode: Mode) returns (r: Run)
    requires !mode.alone
    ensures Good(r, mode) && Stale(n, End(r), Won(n.j, FinalReport(End(r), n.j)))
    ensures FinalOf(End(r), n.j).Some? && FinalOf(End(r), n.j).value.components == []
  {
    r := StaleAssembled(n, mode);
    r := Step(r, Finalize(1), mode);
  }

  ghost function FinalReport(s: World, j: JobId): ReportDoc {
    if FinalOf(s, j).Some? then FinalOf(s, j).value else Assemble(j, [], [], false)
  }

  lemma SecondAnalysed(n: Two, mode: Mode) returns (r: Run)
    requires !mode.alone
    ensures Good(r, mode) && ProcOf(End(r), 0) == Idle && n.b in BlobsOf(End(r).counted, n.j)
    ensures AnalyzedMsg(n.j, n.b) in End(r).sent && ClaimKey(Analyzed, n.b) !in End(r).claims
    ensures FinalOf(End(r), n.j).Some? && FinalOf(End(r), n.j).value.components == []
  {
    r := StaleFinalized(n, mode);
    r := Analyse(n, r, 0, n.b, mode);
  }

  /** Then the finalized SBOM misses a component: the second child is matched only after
  the winner listed the fragments. */
  lemma ComponentsCanBeMissing(n: Two) returns (r: Run)
    ensures Legal(r) && Prompt(r)
    ensures var s := End(r);
      && n.b in BlobsOf(s.counted, n.j) && FinalOf(s, n.j).Some?
      && FragmentKey(n.j, n.b) in s.fragments && s.fragments[FragmentKey(n.j, n.b)] != []
      && !Covers(s, FinalOf(s, n.j).value, n.j, n.b)
  {
    var mode := Mode(true, false);
    var c := Component("vendor", "product", "1.0", n.b);
    r := SecondAnalysed(n, mode);
    r := Match(n, r, 0, n.b, [c], mode);
    assert End(r).fragments[FragmentKey(n.j, n.b)] == [c] && c in [c];
    assert FinalOf(End(r), n.j).value.components == [];
  }

  // ---- findings that were not recorded ----------------------------------------------

  /** Both children counted and the marker set, nothing aggregated, worker 0 idle. */
  ghost predicate BothCounted(n: Two, s: World) {
    && s.total == map[n.j := 2] && s.marker == {n.j} && BlobsOf(s.counted, n.j) == {n.a, n.b}
    && s.docs == map[] && ProcOf(s, 0) == Idle && ClaimKey(Matched, n.a) !in s.claims
  }

  lemma BothDiscovered(n: Two, mode: Mode) returns (r: Run)
    ensures Good(r, mode)
    ensures var s := End(r);
      && ExtractedMsg(n.j, n.a) in s.sent && ExtractedMsg(n.j, n.b) in s.sent && s.claims == {ClaimKey(Triaged, n.j)}
      && s.total == map[n.j := 2] && s.marker == {} && BlobsOf(s.counted, n.j) == {n.a, n.b} && NoneMatched(s)
      && ProcOf(s, 0) == Unpacking(n.j) && NoMatchedFor(s, n.b)
  {
    r := FirstChildFound(n, mode);
    DiscoverSecond(n, End(r));
    r := Discover(n, r, n.b, mode);
  }

  lemma DiscoverSecond(n: Two, s: World)
    requires OneCounted(n, s, Idle) && BlobsOf(s.counted, n.j) == {n.a}
    ensures var t := Discovered(n, s, n.b); t.total == map[n.j := 2] && BlobsOf(t.counted, n.j) == {n.a, n.b}
  {
  }

  lemma BothUnpacked(n: Two, mode: Mode) returns (r: Run)
    ensures Good(r, mode) && BothCounted(n, End(r)) && NoneMatched(End(r)) && NoMatchedFor(End(r), n.b)
    ensures var s := End(r);
      ExtractedMsg(n.j, n.a) in s.sent && ExtractedMsg(n.j, n.b) in s.sent && s.claims == {ClaimKey(Triaged, n.j)}
  {
    r := BothDiscovered(n, mode);
    r := Step(r, FinishUnpack(0), mode);
  }

  lemma OneAnalysed(n: Two, mode: Mode) returns (r: Run)
    ensures Good(r, mode) && BothCounted(n, End(r)) && NoneMatched(End(r)) && NoMatchedFor(End(r), n.b)
    ensures var s := End(r);
      && AnalyzedMsg(n.j, n.a) in s.sent && ExtractedMsg(n.j, n.b) in s.sent
      && s.claims == {ClaimKey(Triaged, n.j), ClaimKey(Extracted, n.a)}
  {
    r := BothUnpacked(n, mode);
    r := Analyse(n, r, 0, n.a, mode);
  }

  /** Two children unpacked and analysed by worker 0, the marker set. */
  lemma BothAnalysed(n: Two, mode: Mode) returns (r: Run)
    ensures Good(r, mode) && BothCounted(n, End(r)) && NoneMatched(End(r)) && NoMatchedFor(End(r), n.b)
    ensures var s := End(r);
      && AnalyzedMsg(n.j, n.a) in s.sent && AnalyzedMsg(n.j, n.b) in s.sent
      && ClaimKey(Analyzed, n.a) !in s.claims && ClaimKey(Analyzed, n.b) !in s.claims
  {
    r := OneAnalysed(n, mode);
    r := Analyse(n, r, 0, n.b, mode);
  }

  lemma FirstMatched(n: Two, mode: Mode) returns (r: Run)
    ensures Good(r, mode) && BothCounted(n, End(r)) && OneMatched(n, End(r))
    ensures var s := End(r);
      && MatchedMsg(n.j, n.a, [MATCH]) in s.sent && AnalyzedMsg(n.j, n.a) in s.sent && AnalyzedMsg(n.j, n.b) in s.sent
      && ClaimKey(Analyzed, n.b) !in s.claims
  {
    r := BothAnalysed(n, mode);
    r := Match(n, r, 0, n.a, [], mode);
  }

  /** Both children counted as matched, the first one announced, neither aggregated. */
  ghost predicate Ready(n: Two, s: World) {
    && BothCounted(n, s) && Get(s.matched, n.j, 0) == 2 && MatchedMsg(n.j, n.a, [MATCH]) in s.sent
    && s.fragments.Keys == {FragmentKey(n.j, n.a), FragmentKey(n.j, n.b)} && BlobsOf(s.scored, n.j) == {n.a, n.b}
    && FragmentKey(n.j, n.b) in s.results && s.results[FragmentKey(n.j, n.b)] == [MATCH]
  }

  lemma BothMatched(n: Two, mode: Mode) returns (r: Run)
    ensures Good(r, mode) && Ready(n, End(r)) && MatchedMsg(n.j, n.b, [MATCH]) in End(r).sent
  {
    r := FirstMatched(n, mode);
    r := Match(n, r, 0, n.b, [], mode);
  }

  /** What aggregating leaves alone. */
  ghost predicate Kept(s: World, u: World) {
    && u.fragments == s.fragments && u.sent == s.sent && u.counted == s.counted && u.scored == s.scored
    && u.results == s.results && u.total == s.total && u.marker == s.marker && u.matched == s.matched
    && s.claims <= u.claims
  }

  lemma DeliverA(n: Two, r: Run, mode: Mode) returns (t: Run)
    requires Good(r, mode) && ProcOf(End(r), 0).Idle?
    requires MatchedMsg(n.j, n.a, [MATCH]) in End(r).sent && ClaimKey(Matched, n.a) !in End(r).claims
    ensures Good(t, mode) && Kept(End(r), End(t)) && End(t).docs == End(r).docs
    ensures ProcOf(End(t), 0) == Recording(n.j, n.a, [MATCH])
  {
    t := Step(r, Deliver(0, MatchedMsg(n.j, n.a, [MATCH])), mode);
  }

  lemma RecordA(n: Two, r: Run, mode: Mode) returns (t: Run)
    requires Good(r, mode) && ProcOf(End(r), 0).Idle? && End(r).docs == map[]
    requires MatchedMsg(n.j, n.a, [MATCH]) in End(r).sent && ClaimKey(Matched, n.a) !in End(r).claims
    ensures Good(t, mode) && Kept(End(r), End(t)) && End(t).docs == OneDoc(n) && ProcOf(End(t), 0) == GateStart(n.j)
  {
    t := DeliverA(n, r, mode);
    RecordFirst(n, End(t), 0);
    t := Step(t, RecordSlot(0), mode);
  }

  lemma ReadTotalA(n: Two, r: Run, mode: Mode) returns (t: Run)
    requires Good(r, mode) && ProcOf(End(r), 0) == GateStart(n.j)
    requires End(r).total == map[n.j := 2] && End(r).marker == {n.j}
    ensures Good(t, mode) && End(t) == At(End(r), 0, MarkerRead(n.j, 2, true))
  {
    t := Step(r, ReadTotal(0), mode);
    t := Step(t, ReadMarker(0), mode);
    assert End(t).procs == End(r).procs[0 := MarkerRead(n.j, 2, true)];
  }

  lemma GateA(n: Two, r: Run, mode: Mode) returns (t: Run)
    requires Good(r, mode) && ProcOf(End(r), 0) == GateStart(n.j)
    requires var s := End(r); s.total == map[n.j := 2] && s.marker == {n.j} && Get(s.matched, n.j, 0) == 2
    ensures Good(t, mode) && Kept(End(r), End(t)) && End(t).docs == End(r).docs && ProcOf(End(t), 0) == Reading(n.j, true)
  {
    t := ReadTotalA(n, r, mode);
    t := Step(t, ReadMatched(0), mode);
  }

  /** Worker 0 aggregates the first child through an open gate. */
  lemma AggregateA(n: Two, r: Run, mode: Mode) returns (t: Run)
    requires Good(r, mode) && ProcOf(End(r), 0).Idle? && End(r).docs == map[]
    requires MatchedMsg(n.j, n.a, [MATCH]) in End(r).sent && ClaimKey(Matched, n.a) !in End(r).claims
    requires var s := End(r); s.total == map[n.j := 2] && s.marker == {n.j} && Get(s.matched, n.j, 0) == 2
    ensures Good(t, mode) && Kept(End(r), End(t)) && End(t).docs == OneDoc(n) && ProcOf(End(t), 0) == Reading(n.j, true)
  {
    t := RecordA(n, r, mode);
    t := GateA(n, t, mode);
  }

  ghost function BothListed(n: Two, s: World): (order: seq<BlobId>)
    ensures s.fragments.Keys == {FragmentKey(n.j, n.a), FragmentKey(n.j, n.b)} ==> IsListing(s.fragments, n.j, order)
  {
    var order := [n.a, n.b];
    assert order[0] == n.a && order[1] == n.b;
    order
  }

  lemma AssembleA(n: Two, r: Run, mode: Mode) returns (t: Run)
    requires Good(r, mode) && ProcOf(End(r), 0) == Reading(n.j, true)
    requires End(r).docs == OneDoc(n) && End(r).fragments.Keys == {FragmentKey(n.j, n.a), FragmentKey(n.j, n.b)}
    ensures Good(t, mode) && Kept(End(r), End(t)) && End(t).docs == OneDoc(n)
    ensures ProcOf(End(t), 0).Assembled? && ProcOf(End(t), 0).job == n.j
    ensures ProcOf(End(t), 0).report.findings == Flatten([Slot(n.a, [MATCH])])
  {
    t := Step(r, ReadPartial(0), mode);
    t := Step(t, ListFragments(0, BothListed(n, End(t))), mode);
  }

  lemma FinalizeA(n: Two, r: Run, mode: Mode) returns (t: Run)
    requires Good(r, mode) && ProcOf(End(r), 0) == Reading(n.j, true)
    requires End(r).docs == OneDoc(n) && End(r).fragments.Keys == {FragmentKey(n.j, n.a), FragmentKey(n.j, n.b)}
    ensures Good(t, mode) && Kept(End(r), End(t))
    ensures FinalOf(End(t), n.j).Some? && FinalOf(End(t), n.j).value.findings == Flatten([Slot(n.a, [MATCH])])
  {
    t := AssembleA(n, r, mode);
    t := Step(t, Finalize(0), mode);
  }

  /** From there the job finalizes with the first child's findings alone. */
  lemma FinalizedEarly(n: Two, r: Run, mode: Mode) returns (t: Run)
    requires Good(r, mode) && Ready(n, End(r))
    ensures Good(t, mode) && Kept(End(r), End(t))
    ensures FinalOf(End(t), n.j).Some? && FinalOf(End(t), n.j).value.findings == Flatten([Slot(n.a, [MATCH])])
  {
    t := AggregateA(n, r, mode);
    t := FinalizeA(n, t, mode);
  }

  lemma OneSlotMissesOther(n: Two)
    ensures OfBlob(Flatten([Slot(n.a, [MATCH])]), n.b) == []
  {
    var seen := [Slot(n.a, [MATCH])];
    assert !Recorded(seen, n.b);
    FlattenCountsEachBlobOnce(seen, n.b);
  }

  /** Even with one worker and no redelivery, findings can be missing: both children are
  matched before the first is aggregated, so the gate passes with one slot recorded. */
  lemma FindingsCanBeMissing(n: Two) returns (r: Run)
    ensures Legal(r) && Prompt(r) && OneWorker(r, 0)
    ensures var s := End(r);
      && MatchedMsg(n.j, n.b, [MATCH]) in s.sent && n.b in BlobsOf(s.counted, n.j) && FinalOf(s, n.j).Some?
      && OfBlob(FinalOf(s, n.j).value.findings, n.b) == [] && !Shows(s, FinalOf(s, n.j).value, n.j, n.b)
  {
    var mode := Mode(true, true);
    r := BothMatched(n, mode);
    r := FinalizedEarly(n, r, mode);
    OneSlotMissesOther(n);
  }

  // ---- a crash between the counter and the message ------------------------------------

  lemma StoredB(n: Two, mode: Mode) returns (r: Run)
    ensures Good(r, mode) && NoMatchedFor(End(r), n.b) && BothCounted(n, At(End(r), 0, Idle))
    ensures var s := End(r);
      && AnalyzedMsg(n.j, n.a) in s.sent && ClaimKey(Analyzed, n.a) !in s.claims && ClaimKey(Analyzed, n.b) in s.claims
      && s.matched == map[] && s.scored == map[] && s.fragments.Keys == {FragmentKey(n.j, n.b)}
      && ProcOf(s, 0) == FragmentStored(n.j, n.b, [MATCH])
  {
    r := BothAnalysed(n, mode);
    r := StoreOne(n, r, 0, n.b, [], mode);
  }

  lemma CountThenCrash(n: Two, s: World)
    requires ProcOf(s, 0) == FragmentStored(n.j, n.b, [MATCH]) && s.matched == map[] && s.scored == map[]
    requires BothCounted(n, At(s, 0, Idle))
    ensures var t := At(DoCountMatched(s, 0), 0, Idle);
      && BothCounted(n, t) && t.sent == s.sent && t.claims == s.claims && t.fragments == s.fragments
      && Get(t.matched, n.j, 0) == 1 && BlobsOf(t.scored, n.j) == {n.b}
      && FragmentKey(n.j, n.b) in t.results && t.results[FragmentKey(n.j, n.b)] == [MATCH]
  {
  }

  lemma CountedThenCrashed(n: Two, mode: Mode) returns (r: Run)
    ensures Good(r, mode) && BothCounted(n, End(r)) && NoMatchedFor(End(r), n.b)
    ensures var s := End(r);
      && AnalyzedMsg(n.j, n.a) in s.sent && ClaimKey(Analyzed, n.a) !in s.claims && ClaimKey(Analyzed, n.b) in s.claims
      && Get(s.matched, n.j, 0) == 1 && BlobsOf(s.scored, n.j) == {n.b} && s.fragments.Keys == {FragmentKey(n.j, n.b)}
      && FragmentKey(n.j, n.b) in s.results && s.results[FragmentKey(n.j, n.b)] == [MATCH]
  {
    r := StoredB(n, mode);
    CountThenCrash(n, End(r));
    r := Step(r, CountMatched(0), mode);
    r := Step(r, Crash(0), mode);
  }

  lemma CrashedReady(n: Two, mode: Mode) returns (r: Run)
    ensures Good(r, mode) && Ready(n, End(r)) && NoMatchedFor(End(r), n.b) && ClaimKey(Analyzed, n.b) in End(r).claims
  {
    r := CountedThenCrashed(n, mode);
    r := Match(n, r, 0, n.a, [], mode);
  }

  /** A worker that stops after counting a match and before announcing it loses the
  findings of that child for good: the gate passes, every counted child counts as
  matched, and the claim stops a redelivery. One worker, no redelivery. */
  lemma CrashLosesFindings(n: Two) returns (r: Run)
    ensures Legal(r) && Prompt(r) && OneWorker(r, 0)
    ensures var s := End(r);
      && Complete(s, n.j) && n.b in BlobsOf(s.counted, n.j) && NoMatchedFor(s, n.b) && ClaimKey(Analyzed, n.b) in s.claims
      && FinalOf(s, n.j).Some? && OfBlob(FinalOf(s, n.j).value.findings, n.b) == []
      && !Shows(s, FinalOf(s, n.j).value, n.j, n.b)
  {
    var mode := Mode(true, true);
    r := CrashedReady(n, mode);
    r := FinalizedEarly(n, r, mode);
    OneSlotMissesOther(n);
  }

  // ---- a claim that ran out --------------------------------------------------------------

  lemma ExpireAndMatchAgain(n: Two, r: Run, mode: Mode) returns (t: Run)
    requires Good(r, mode) && !mode.held && ProcOf(End(r), 0).Idle? && AnalyzedMsg(n.j, n.a) in End(r).sent
    ensures Good(t, mode)
    ensures var s := End(r);
      End(t) == Scored(n, s.(claims := s.claims - {ClaimKey(Analyzed, n.a)}), 0, n.a, [])
  {
    t := Then(r, ExpireClaim(ClaimKey(Analyzed, n.a)));
    t := Match(n, t, 0, n.a, [], mode);
  }

  lemma MatchedTwice(n: Two, mode: Mode) returns (r: Run)
    requires !mode.held
    ensures Good(r, mode) && BothCounted(n, End(r)) && MatchedMsg(n.j, n.a, [MATCH]) in End(r).sent
    ensures Get(End(r).matched, n.j, 0) == 2 && BlobsOf(End(r).scored, n.j) == {n.a}
    ensures FragmentKey(n.j, n.b) !in End(r).fragments
  {
    r := FirstMatched(n, mode);
    r := ExpireAndMatchAgain(n, r, mode);
    assert {n.a} + {n.a} == {n.a};
  }

  /** Without the claim lifetime the counters no longer count distinct sub-blobs: a
  redelivery after the claim ran out counts a child twice and opens the gate. */
  lemma ExpiredClaimOpensGate(n: Two) returns (r: Run)
    ensures Legal(r) && OneWorker(r, 0)
    ensures var s := End(r);
      && ProcOf(s, 0).Reading? && n.b in BlobsOf(s.counted, n.j) && FragmentKey(n.j, n.b) !in s.fragments
      && Get(s.matched, n.j, 0) > |BlobsOf(s.scored, n.j)|
  {
    var mode := Mode(false, true);
    r := MatchedTwice(n, mode);
    r := AggregateA(n, r, mode);
  }
}
