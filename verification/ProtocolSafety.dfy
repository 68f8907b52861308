/** What every reachable state of the protocol satisfies under prompt redelivery:
the counters count nested sets of distinct sub-blobs, the gate passes only for a fully
unpacked job, and a report finalized behind a full gate covers every child. */
module ProtocolSafety {
  import opened Collections
  import opened Firmware
  import opened Report
  import opened Protocol

  // ---- the invariant ----------------------------------------------------------

  /** A counter is the size of a set of distinct sub-blobs. */
  ghost predicate Counts(counter: map<JobId, nat>, blobs: map<JobId, set<BlobId>>) {
    forall j :: Get(counter, j, 0) == |BlobsOf(blobs, j)|
  }

  ghost predicate Nested(inner: map<JobId, set<BlobId>>, outer: map<JobId, set<BlobId>>) {
    forall j :: BlobsOf(inner, j) <= BlobsOf(outer, j)
  }

  ghost predicate Counters(s: World) {
    && Counts(s.total, s.counted) && Counts(s.completed, s.analysed) && Counts(s.matched, s.scored)
    && Nested(s.scored, s.analysed) && Nested(s.analysed, s.counted)
  }

  ghost predicate ExtractedCounted(sent: set<Message>, counted: map<JobId, set<BlobId>>) {
    forall m :: m in sent && m.ExtractedMsg? ==> m.blob in BlobsOf(counted, m.job)
  }

  ghost predicate AnalyzedCounted(sent: set<Message>, analysed: map<JobId, set<BlobId>>) {
    forall m :: m in sent && m.AnalyzedMsg? ==> m.blob in BlobsOf(analysed, m.job)
  }

  ghost predicate MatchedScored(sent: set<Message>, scored: map<JobId, set<BlobId>>) {
    forall m :: m in sent && m.MatchedMsg? ==> m.blob in BlobsOf(scored, m.job)
  }

  ghost predicate OneMatchEach(sent: set<Message>) {
    forall m, n :: m in sent && n in sent && m.MatchedMsg? && n.MatchedMsg? && m.blob == n.blob ==> m == n
  }

  /** A message is produced only after its counter was incremented. */
  ghost predicate Messages(s: World) {
    && ExtractedCounted(s.sent, s.counted) && AnalyzedCounted(s.sent, s.analysed)
    && MatchedScored(s.sent, s.scored) && OneMatchEach(s.sent)
  }

  ghost predicate UploadsClaimed(uploads: map<BlobId, JobId>, owners: map<ClaimKey, Worker>) {
    forall b :: b in uploads ==> ClaimKey(Triaged, uploads[b]) in owners
  }

  ghost predicate JobsClaimed(jobs: set<JobId>, owners: map<ClaimKey, Worker>) {
    forall j :: j in jobs ==> ClaimKey(Triaged, j) in owners
  }

  ghost predicate CountedUploaded(counted: map<JobId, set<BlobId>>, uploads: map<BlobId, JobId>) {
    forall j, b :: b in BlobsOf(counted, j) ==> b in uploads && uploads[b] == j
  }

  ghost predicate AnalysedClaimed(analysed: map<JobId, set<BlobId>>, owners: map<ClaimKey, Worker>) {
    forall j, b :: b in BlobsOf(analysed, j) ==> ClaimKey(Extracted, b) in owners
  }

  ghost predicate FragmentsClaimed(fragments: map<FragmentKey, seq<Component>>, owners: map<ClaimKey, Worker>) {
    forall f :: f in fragments ==> ClaimKey(Analyzed, f.blob) in owners
  }

  ghost predicate FragmentsAnalysed(fragments: map<FragmentKey, seq<Component>>, analysed: map<JobId, set<BlobId>>) {
    forall f :: f in fragments ==> f.blob in BlobsOf(analysed, f.job)
  }

  ghost predicate ScoredStored(scored: map<JobId, set<BlobId>>, fragments: map<FragmentKey, seq<Component>>) {
    forall j, b :: b in BlobsOf(scored, j) ==> FragmentKey(j, b) in fragments
  }

  /** Whatever a handler did needed its claim, and nobody gives a claim back. */
  ghost predicate Claimed(s: World) {
    && UploadsClaimed(s.uploads, s.owners) && JobsClaimed(s.marker, s.owners) && JobsClaimed(s.rejected, s.owners)
    && CountedUploaded(s.counted, s.uploads) && AnalysedClaimed(s.analysed, s.owners)
    && FragmentsClaimed(s.fragments, s.owners) && FragmentsAnalysed(s.fragments, s.analysed)
    && ScoredStored(s.scored, s.fragments)
    && s.marker !! s.rejected
  }

  ghost predicate ResultsScored(results: map<FragmentKey, seq<CveMatch>>, scored: map<JobId, set<BlobId>>) {
    forall f: FragmentKey :: f in results <==> f.blob in BlobsOf(scored, f.job)
  }

  ghost predicate ResultsSent(sent: set<Message>, results: map<FragmentKey, seq<CveMatch>>) {
    forall m :: m in sent && m.MatchedMsg? ==>
      FragmentKey(m.job, m.blob) in results && results[FragmentKey(m.job, m.blob)] == m.matches
  }

  /** The matches computed for a counted match are kept, and what is sent is what was computed. */
  ghost predicate Computed(s: World) {
    ResultsScored(s.results, s.scored) && ResultsSent(s.sent, s.results)
  }

  /** Unpacking ran to its end and every child it counted has been matched. */
  ghost predicate Complete(s: World, j: JobId) {
    j in s.marker && BlobsOf(s.scored, j) == BlobsOf(s.counted, j)
  }

  ghost predicate Sound(s: World, j: JobId, full: bool) {
    j in s.marker && (full ==> Complete(s, j))
  }

  /** Slots hold only matches that were emitted for this job, one slot a sub-blob. */
  ghost predicate SlotsOk(s: World, j: JobId, slots: seq<Slot>) {
    DistinctBlobs(slots) && forall t :: t in slots ==> MatchedMsg(j, t.blob, t.matches) in s.sent
  }

  ghost predicate InFragments(fragments: map<FragmentKey, seq<Component>>, j: JobId, c: Component) {
    exists f :: f in fragments && f.job == j && c in fragments[f]
  }

  /** A full report lists exactly the components of the stored fragments, and there
  is a fragment for exactly the counted children. */
  ghost predicate ReportOk(s: World, j: JobId, r: ReportDoc) {
    && r.job == j
    && Sound(s, j, r.full)
    && SlotsOk(s, j, r.seen)
    && r == Assemble(j, r.seen, r.components, r.full)
    && Distinct(r.components)
    && (r.full ==> forall c :: c in r.components <==> InFragments(s.fragments, j, c))
  }

  ghost predicate NoMatchedFor(s: World, blob: BlobId) {
    forall m :: m in s.sent && m.MatchedMsg? ==> m.blob != blob
  }

  ghost predicate Owns(s: World, w: Worker, key: ClaimKey) {
    key in s.owners && s.owners[key] == w
  }

  ghost predicate GateOk(s: World, j: JobId, total: nat, sealed: bool) {
    total <= Get(s.total, j, 0) && (sealed ==> j in s.marker && total == Get(s.total, j, 0))
  }

  /** What a worker has achieved so far; other workers only add to it. */
  ghost predicate Backed(s: World, w: Worker, p: Proc) {
    match p
    case Idle => true
    case Unpacking(j) => Owns(s, w, ClaimKey(Triaged, j))
    case Uploaded(j, b) => Owns(s, w, ClaimKey(Triaged, j)) && b in s.uploads && s.uploads[b] == j
    case ChildCounted(j, b) => Owns(s, w, ClaimKey(Triaged, j)) && b in BlobsOf(s.counted, j)
    case Analyzing(j, b) => Owns(s, w, ClaimKey(Extracted, b)) && b in BlobsOf(s.counted, j)
    case AnalysisCounted(j, b) => b in BlobsOf(s.analysed, j)
    case Matching(j, b) => Owns(s, w, ClaimKey(Analyzed, b)) && b in BlobsOf(s.analysed, j)
    case FragmentStored(j, b, _) => Owns(s, w, ClaimKey(Analyzed, b)) && FragmentKey(j, b) in s.fragments
    case MatchCounted(j, b, matches) =>
      && Owns(s, w, ClaimKey(Analyzed, b)) && b in BlobsOf(s.scored, j)
      && FragmentKey(j, b) in s.results && s.results[FragmentKey(j, b)] == matches
    case Recording(j, b, matches) => MatchedMsg(j, b, matches) in s.sent
    case GateStart(j) => true
    case TotalRead(j, total, sealed) => GateOk(s, j, total, sealed)
    case MarkerRead(j, total, sealed) => GateOk(s, j, total, sealed) && j in s.marker
    case Reading(j, full) => Sound(s, j, full)
    case Listing(j, full, slots) => Sound(s, j, full) && SlotsOk(s, j, slots)
    case Assembled(j, r) => ReportOk(s, j, r)
    case Won(j, r) => ReportOk(s, j, r)
    case SbomPut(j, r) => ReportOk(s, j, r)
    case ReportPut(j, r) => ReportOk(s, j, r)
  }

  /** What nobody has done yet, because only the claim's owner may do it. */
  ghost predicate Untouched(s: World, p: Proc) {
    match p
    case Unpacking(j) => j !in s.marker && j !in s.rejected
    case Uploaded(j, b) => j !in s.marker && j !in s.rejected && b !in BlobsOf(s.counted, j)
    case ChildCounted(j, b) => j !in s.marker && j !in s.rejected
    case Analyzing(j, b) => b !in BlobsOf(s.analysed, j)
    case Matching(j, b) => NoMatchedFor(s, b) && FragmentKey(j, b) !in s.fragments
    case FragmentStored(j, b, _) => NoMatchedFor(s, b) && b !in BlobsOf(s.scored, j)
    case MatchCounted(j, b, _) => NoMatchedFor(s, b)
    case _ => true
  }

  ghost predicate ProcOk(s: World, w: Worker, p: Proc) {
    Backed(s, w, p) && Untouched(s, p)
  }

  ghost predicate Procs(s: World) {
    forall w :: w in s.procs ==> ProcOk(s, w, s.procs[w])
  }

  ghost predicate Docs(s: World) {
    forall j :: j in s.docs ==>
      SlotsOk(s, j, s.docs[j].slots) && (s.docs[j].final.Some? ==> ReportOk(s, j, s.docs[j].final.value))
  }

  ghost predicate Core(s: World) {
    Counters(s) && Messages(s) && Claimed(s)
  }

  ghost predicate Inv(s: World) {
    Core(s) && Computed(s) && Procs(s) && Docs(s)
  }

  lemma InitInv()
    ensures Inv(INIT)
  {
  }

  // ---- preservation -----------------------------------------------------------

  lemma CountOneMore(counter: map<JobId, nat>, blobs: map<JobId, set<BlobId>>, j: JobId, b: BlobId)
    requires Counts(counter, blobs) && b !in BlobsOf(blobs, j)
    ensures Counts(Incr(counter, j), Insert(blobs, j, b))
  {
    var blobs' := Insert(blobs, j, b);
    forall i
      ensures Get(Incr(counter, j), i, 0) == |BlobsOf(blobs', i)|
    {
      assert Get(counter, i, 0) == |BlobsOf(blobs, i)|;
    }
  }

  lemma NestOneMore(inner: map<JobId, set<BlobId>>, outer: map<JobId, set<BlobId>>, j: JobId, b: BlobId)
    requires Nested(inner, outer)
    ensures Nested(outer, Insert(outer, j, b))
    ensures Nested(inner, Insert(outer, j, b))
    ensures b in BlobsOf(outer, j) ==> Nested(Insert(inner, j, b), outer)
  {
  }

  lemma MoreCounted(sent: set<Message>, small: map<JobId, set<BlobId>>, large: map<JobId, set<BlobId>>)
    requires Nested(small, large)
    ensures ExtractedCounted(sent, small) ==> ExtractedCounted(sent, large)
    ensures AnalyzedCounted(sent, small) ==> AnalyzedCounted(sent, large)
    ensures MatchedScored(sent, small) ==> MatchedScored(sent, large)
  {
  }

  lemma CountedInsert(counted: map<JobId, set<BlobId>>, uploads: map<BlobId, JobId>, j: JobId, b: BlobId)
    requires CountedUploaded(counted, uploads) && b in uploads && uploads[b] == j
    ensures CountedUploaded(Insert(counted, j, b), uploads)
  {
  }

  lemma AnalysedInsert(s: World, j: JobId, b: BlobId)
    requires AnalysedClaimed(s.analysed, s.owners) && FragmentsAnalysed(s.fragments, s.analysed)
    requires ClaimKey(Extracted, b) in s.owners
    ensures AnalysedClaimed(Insert(s.analysed, j, b), s.owners)
    ensures FragmentsAnalysed(s.fragments, Insert(s.analysed, j, b))
  {
  }

  lemma ScoredInsert(s: World, j: JobId, b: BlobId)
    requires ScoredStored(s.scored, s.fragments) && FragmentKey(j, b) in s.fragments
    ensures ScoredStored(Insert(s.scored, j, b), s.fragments)
  {
  }

  lemma MoreClaims(s: World, owners: map<ClaimKey, Worker>)
    requires Claimed(s) && s.owners.Keys <= owners.Keys
    ensures Claimed(s.(owners := owners))
  {
  }

  lemma CoreDeliver(s: World, w: Worker, m: Message)
    requires Core(s)
    ensures Core(DoDeliver(s, w, m))
  {
    if KeyOf(m) !in s.claims {
      MoreClaims(s, s.owners[KeyOf(m) := w]);
    }
  }

  lemma CoreUpload(s: World, w: Worker, blob: BlobId)
    requires Core(s) && ProcOf(s, w).Unpacking? && ProcOk(s, w, ProcOf(s, w)) && blob !in s.uploads
    ensures Core(DoUpload(s, w, blob))
  {
  }

  lemma CoreCountChild(s: World, w: Worker)
    requires Core(s) && ProcOf(s, w).Uploaded? && ProcOk(s, w, ProcOf(s, w))
    ensures Core(DoCountChild(s, w))
  {
    var p := ProcOf(s, w);
    CountOneMore(s.total, s.counted, p.job, p.blob);
    NestOneMore(s.analysed, s.counted, p.job, p.blob);
    MoreCounted(s.sent, s.counted, Insert(s.counted, p.job, p.blob));
    CountedInsert(s.counted, s.uploads, p.job, p.blob);
  }

  lemma CoreEmitExtracted(s: World, w: Worker)
    requires Core(s) && ProcOf(s, w).ChildCounted? && ProcOk(s, w, ProcOf(s, w))
    ensures Core(DoEmitExtracted(s, w))
  {
  }

  lemma CoreEndUnpack(s: World, w: Worker)
    requires Core(s) && ProcOf(s, w).Unpacking? && ProcOk(s, w, ProcOf(s, w))
    ensures Core(DoFinishUnpack(s, w)) && Core(DoAbortUnpack(s, w))
  {
  }

  lemma CoreCountAnalyzed(s: World, w: Worker)
    requires Core(s) && ProcOf(s, w).Analyzing? && ProcOk(s, w, ProcOf(s, w))
    ensures Core(DoCountAnalyzed(s, w))
  {
    var p := ProcOf(s, w);
    CountOneMore(s.completed, s.analysed, p.job, p.blob);
    NestOneMore(s.scored, s.analysed, p.job, p.blob);
    NestOneMore(s.analysed, s.counted, p.job, p.blob);
    MoreCounted(s.sent, s.analysed, Insert(s.analysed, p.job, p.blob));
    AnalysedInsert(s, p.job, p.blob);
  }

  lemma CoreEmitAnalyzed(s: World, w: Worker)
    requires Core(s) && ProcOf(s, w).AnalysisCounted? && ProcOk(s, w, ProcOf(s, w))
    ensures Core(DoEmitAnalyzed(s, w))
  {
  }

  lemma CoreStoreFragment(s: World, w: Worker, components: seq<Component>, matches: seq<CveMatch>)
    requires Core(s) && ProcOf(s, w).Matching? && ProcOk(s, w, ProcOf(s, w))
    ensures Core(DoStoreFragment(s, w, components, matches))
  {
  }

  lemma CoreCountMatched(s: World, w: Worker)
    requires Core(s) && ProcOf(s, w).FragmentStored? && ProcOk(s, w, ProcOf(s, w))
    ensures Core(DoCountMatched(s, w))
  {
    var p := ProcOf(s, w);
    CountOneMore(s.matched, s.scored, p.job, p.blob);
    NestOneMore(s.scored, s.analysed, p.job, p.blob);
    MoreCounted(s.sent, s.scored, Insert(s.scored, p.job, p.blob));
    ScoredInsert(s, p.job, p.blob);
  }

  lemma CoreEmitMatched(s: World, w: Worker)
    requires Core(s) && ProcOf(s, w).MatchCounted? && ProcOk(s, w, ProcOf(s, w))
    ensures Core(DoEmitMatched(s, w))
  {
  }

  ghost predicate AggregateStep(e: Event) {
    e.RecordSlot? || e.ReadTotal? || e.ReadMarker? || e.ReadMatched? || e.ReadPartial? || e.ListFragments?
    || e.Finalize? || e.PutSbom? || e.PutReport? || e.EmitCompleted?
  }

  /** Nothing changed that counting, claiming or matching writes. */
  ghost predicate SameCore(s: World, t: World) {
    && t.sent == s.sent && t.owners == s.owners && t.marker == s.marker && t.rejected == s.rejected
    && t.total == s.total && t.completed == s.completed && t.matched == s.matched
    && t.counted == s.counted && t.analysed == s.analysed && t.scored == s.scored
    && t.uploads == s.uploads && t.fragments == s.fragments && t.results == s.results
  }

  lemma GateLeavesCore(s: World, e: Event)
    requires Enabled(s, e) && (e.RecordSlot? || e.ReadTotal? || e.ReadMarker? || e.ReadMatched? || e.ReadPartial?)
    ensures SameCore(s, Next(s, e))
  {
  }

  lemma FinalizeLeavesCore(s: World, w: Worker)
    requires ProcOf(s, w).Assembled?
    ensures SameCore(s, DoFinalize(s, w))
  {
  }

  lemma FinishLeavesCore(s: World, e: Event)
    requires Enabled(s, e) && (e.ListFragments? || e.PutSbom? || e.PutReport? || e.EmitCompleted?)
    ensures SameCore(s, Next(s, e))
  {
  }

  /** Aggregation writes nothing that counting, claiming or matching writes. */
  lemma AggregationLeavesCore(s: World, e: Event)
    requires Enabled(s, e) && AggregateStep(e)
    ensures SameCore(s, Next(s, e))
  {
    if e.RecordSlot? || e.ReadTotal? || e.ReadMarker? || e.ReadMatched? || e.ReadPartial? {
      GateLeavesCore(s, e);
    } else if e.Finalize? {
      FinalizeLeavesCore(s, e.w);
    } else {
      FinishLeavesCore(s, e);
    }
  }

  lemma CoreUnpack(s: World, e: Event)
    requires Core(s) && Enabled(s, e) && (e.Upload? || e.CountChild? || e.EmitExtracted? || e.FinishUnpack? || e.AbortUnpack?)
    requires ProcOk(s, e.w, ProcOf(s, e.w))
    ensures Core(Next(s, e))
  {
    if e.Upload? {
      CoreUpload(s, e.w, e.blob);
    } else if e.CountChild? {
      CoreCountChild(s, e.w);
    } else if e.EmitExtracted? {
      CoreEmitExtracted(s, e.w);
    } else {
      CoreEndUnpack(s, e.w);
    }
  }

  lemma CoreMatch(s: World, e: Event)
    requires Core(s) && Enabled(s, e)
    requires e.CountAnalyzed? || e.EmitAnalyzed? || e.StoreFragment? || e.CountMatched? || e.EmitMatched?
    requires ProcOk(s, e.w, ProcOf(s, e.w))
    ensures Core(Next(s, e))
  {
    if e.CountAnalyzed? {
      CoreCountAnalyzed(s, e.w);
    } else if e.EmitAnalyzed? {
      CoreEmitAnalyzed(s, e.w);
    } else if e.StoreFragment? {
      CoreStoreFragment(s, e.w, e.components, e.matches);
    } else if e.CountMatched? {
      CoreCountMatched(s, e.w);
    } else {
      CoreEmitMatched(s, e.w);
    }
  }

  lemma SameCoreCore(s: World, t: World)
    requires Core(s) && SameCore(s, t)
    ensures Core(t)
  {
  }

  lemma CoreTriage(s: World, j: JobId)
    requires Core(s)
    ensures Core(s.(sent := s.sent + {TriagedMsg(j)}))
  {
  }

  lemma CoreAside(s: World, e: Event)
    requires Core(s) && Enabled(s, e) && (e.Triage? || e.Crash? || e.ExpireClaim?)
    ensures Core(Next(s, e))
  {
    if e.Triage? {
      CoreTriage(s, e.job);
    } else {
      SameCoreCore(s, Next(s, e));
    }
  }

  lemma CoreStep(s: World, e: Event)
    requires Inv(s) && Enabled(s, e) && PromptStep(s, e)
    ensures Core(Next(s, e))
  {
    if AggregateStep(e) {
      AggregationLeavesCore(s, e);
      SameCoreCore(s, Next(s, e));
    } else if e.Triage? || e.Crash? || e.ExpireClaim? {
      CoreAside(s, e);
    } else if e.Deliver? {
      CoreDeliver(s, e.w, e.m);
    } else if e.Upload? || e.CountChild? || e.EmitExtracted? || e.FinishUnpack? || e.AbortUnpack? {
      CoreUnpack(s, e);
    } else {
      CoreMatch(s, e);
    }
  }

  lemma ComputedCountMatched(s: World, w: Worker)
    requires Computed(s) && ProcOf(s, w).FragmentStored? && Untouched(s, ProcOf(s, w))
    ensures Computed(DoCountMatched(s, w))
  {
    var p, t := ProcOf(s, w), DoCountMatched(s, w);
    var key := FragmentKey(p.job, p.blob);
    assert key !in s.results;
    assert t.results == s.results[key := p.matches];
  }

  lemma ComputedEmit(s: World, e: Event)
    requires Computed(s) && Enabled(s, e) && (e.Triage? || e.EmitExtracted? || e.EmitAnalyzed? || e.EmitMatched?)
    requires e.EmitMatched? ==> Backed(s, e.w, ProcOf(s, e.w))
    ensures Computed(Next(s, e))
  {
  }

  lemma OthersLeaveResults(s: World, e: Event)
    requires Enabled(s, e) && !AggregateStep(e) && !e.CountMatched?
    requires !e.Triage? && !e.EmitExtracted? && !e.EmitAnalyzed? && !e.EmitMatched?
    ensures var t := Next(s, e); t.results == s.results && t.scored == s.scored && t.sent == s.sent
  {
  }

  lemma ComputedStep(s: World, e: Event)
    requires Inv(s) && Enabled(s, e)
    ensures Computed(Next(s, e))
  {
    if AggregateStep(e) {
      AggregationLeavesCore(s, e);
    } else if e.CountMatched? {
      ComputedCountMatched(s, e.w);
    } else if e.Triage? || e.EmitExtracted? || e.EmitAnalyzed? || e.EmitMatched? {
      ComputedEmit(s, e);
    } else {
      OthersLeaveResults(s, e);
    }
  }

  // ---- what other workers rely on stays true -------------------------------------

  ghost predicate MapGrows<K, V>(a: map<K, V>, b: map<K, V>) {
    forall k :: k in a ==> k in b && b[k] == a[k]
  }

  ghost predicate SameFragments(s: World, t: World, j: JobId) {
    forall f: FragmentKey :: f.job == j ==>
      (f in s.fragments <==> f in t.fragments) && (f in s.fragments ==> s.fragments[f] == t.fragments[f])
  }

  ghost predicate TotalsGrow(s: World, t: World) {
    forall j ::
      && Get(s.total, j, 0) <= Get(t.total, j, 0)
      && (j in s.marker ==> BlobsOf(t.counted, j) == BlobsOf(s.counted, j) && Get(t.total, j, 0) == Get(s.total, j, 0))
  }

  /** The claim a worker relies on. */
  function KeyNeeded(p: Proc): Option<ClaimKey> {
    if InUnpack(p) then Some(ClaimKey(Triaged, p.job))
    else if p.Analyzing? then Some(ClaimKey(Extracted, p.blob))
    else if p.Matching? || p.FragmentStored? || p.MatchCounted? then Some(ClaimKey(Analyzed, p.blob))
    else None
  }

  ghost predicate KeyKept(s: World, t: World, w: Worker, p: Proc) {
    KeyNeeded(p).Some? && Owns(s, w, KeyNeeded(p).value) ==> Owns(t, w, KeyNeeded(p).value)
  }

  /** How a step may change what another worker or a document relies on. */
  ghost predicate Grows(s: World, t: World) {
    && MapGrows(s.uploads, t.uploads)
    && MapGrows(s.fragments, t.fragments) && MapGrows(s.results, t.results)
    && s.sent <= t.sent && s.marker <= t.marker
    && Nested(s.counted, t.counted) && Nested(s.analysed, t.analysed) && Nested(s.scored, t.scored)
    && Nested(t.scored, t.counted)
    && TotalsGrow(s, t)
    && (forall j :: Complete(s, j) ==> SameFragments(s, t, j))
  }

  lemma TotalsGrowByOne(s: World, t: World, j: JobId, b: BlobId)
    requires j !in s.marker && t.total == Incr(s.total, j) && t.counted == Insert(s.counted, j, b)
    ensures TotalsGrow(s, t)
  {
  }

  lemma GrowsCountChild(s: World, w: Worker)
    requires ProcOf(s, w).Uploaded? && ProcOk(s, w, ProcOf(s, w))
    requires Counters(s) && Counters(DoCountChild(s, w))
    ensures Grows(s, DoCountChild(s, w))
  {
    var p := ProcOf(s, w);
    NestOneMore(s.scored, s.counted, p.job, p.blob);
    TotalsGrowByOne(s, DoCountChild(s, w), p.job, p.blob);
  }

  lemma GrowsStoreFragment(s: World, w: Worker, components: seq<Component>, matches: seq<CveMatch>)
    requires Counters(s) && ScoredStored(s.scored, s.fragments)
    requires ProcOf(s, w).Matching? && ProcOk(s, w, ProcOf(s, w))
    ensures Grows(s, DoStoreFragment(s, w, components, matches))
  {
  }

  lemma GrowsCountAnalyzed(s: World, w: Worker)
    requires ProcOf(s, w).Analyzing?
    requires Counters(s) && Counters(DoCountAnalyzed(s, w))
    ensures Grows(s, DoCountAnalyzed(s, w))
  {
  }

  lemma GrowsCountMatched(s: World, w: Worker)
    requires ProcOf(s, w).FragmentStored? && Untouched(s, ProcOf(s, w)) && ResultsScored(s.results, s.scored)
    requires Counters(s) && Counters(DoCountMatched(s, w))
    ensures Grows(s, DoCountMatched(s, w))
  {
    var p := ProcOf(s, w);
    NewKeyGrows(s.results, FragmentKey(p.job, p.blob), p.matches);
    InsertNests(s.scored, p.job, p.blob);
  }

  lemma NewKeyGrows<K, V>(m: map<K, V>, k: K, v: V)
    requires k !in m
    ensures MapGrows(m, m[k := v])
  {
  }

  lemma InsertNests(m: map<JobId, set<BlobId>>, j: JobId, b: BlobId)
    ensures Nested(m, Insert(m, j, b))
  {
  }

  lemma GrowsDeliver(s: World, w: Worker, m: Message)
    requires Counters(s)
    ensures Grows(s, DoDeliver(s, w, m))
  {
  }

  lemma GrowsUpload(s: World, w: Worker, blob: BlobId)
    requires Counters(s) && ProcOf(s, w).Unpacking? && blob !in s.uploads
    ensures Grows(s, DoUpload(s, w, blob))
  {
  }

  /** More may have been sent and more jobs marked; nothing else that others rely on moved. */
  ghost predicate Keeps(s: World, t: World) {
    && s.sent <= t.sent && s.marker <= t.marker
    && t.total == s.total && t.counted == s.counted && t.analysed == s.analysed && t.scored == s.scored
    && t.owners == s.owners && t.uploads == s.uploads && t.fragments == s.fragments && t.results == s.results
  }

  lemma KeepsGrows(s: World, t: World)
    requires Keeps(s, t) && Counters(s)
    ensures Grows(s, t)
  {
    assert Nested(s.scored, s.counted);
  }

  lemma EmitKeeps(s: World, e: Event)
    requires Enabled(s, e) && (e.Triage? || e.EmitExtracted? || e.EmitAnalyzed? || e.EmitMatched?)
    ensures Keeps(s, Next(s, e))
  {
  }

  lemma EndKeeps(s: World, e: Event)
    requires Enabled(s, e) && (e.FinishUnpack? || e.AbortUnpack? || e.Crash? || e.ExpireClaim?)
    ensures Keeps(s, Next(s, e))
  {
  }

  lemma StableSound(s: World, t: World, j: JobId, full: bool)
    requires Grows(s, t) && Sound(s, j, full)
    ensures Sound(t, j, full)
  {
  }

  lemma StableReport(s: World, t: World, j: JobId, r: ReportDoc)
    requires Grows(s, t) && ReportOk(s, j, r)
    ensures ReportOk(t, j, r)
  {
    StableSound(s, t, j, r.full);
    if r.full {
      forall c
        ensures InFragments(s.fragments, j, c) <==> InFragments(t.fragments, j, c)
      {
      }
    }
  }

  predicate Reporting(p: Proc) {
    p.Assembled? || p.Won? || p.SbomPut? || p.ReportPut?
  }

  lemma StableBacked(s: World, t: World, w: Worker, p: Proc)
    requires Grows(s, t) && KeyKept(s, t, w, p) && Backed(s, w, p)
    ensures Backed(t, w, p)
  {
    if Reporting(p) {
      StableReport(s, t, p.job, p.report);
    } else if p.Reading? || p.Listing? {
      StableSound(s, t, p.job, p.full);
    } else if KeyNeeded(p).Some? {
      StableWork(s, t, w, p);
    } else {
      StableEarly(s, t, w, p);
    }
  }

  lemma StableWork(s: World, t: World, w: Worker, p: Proc)
    requires Grows(s, t) && KeyKept(s, t, w, p) && Backed(s, w, p) && KeyNeeded(p).Some?
    ensures Backed(t, w, p)
  {
  }

  lemma StableEarly(s: World, t: World, w: Worker, p: Proc)
    requires Grows(s, t) && Backed(s, w, p)
    requires !Reporting(p) && !p.Reading? && !p.Listing? && KeyNeeded(p).None?
    ensures Backed(t, w, p)
  {
  }

  // ---- what nobody may touch stays untouched --------------------------------------

  lemma UntouchedCountChild(s: World, w: Worker, v: Worker, p: Proc)
    requires ProcOf(s, w).Uploaded? && ProcOk(s, w, ProcOf(s, w)) && v != w && ProcOk(s, v, p)
    ensures Untouched(DoCountChild(s, w), p)
  {
  }

  /** Two workers never unpack the same job. */
  lemma UnpackOtherJobs(s: World, w: Worker, v: Worker, p: Proc)
    requires ProcOf(s, w).Unpacking? && Backed(s, w, ProcOf(s, w)) && v != w && Backed(s, v, p)
    requires p.Unpacking? || p.Uploaded? || p.ChildCounted?
    ensures p.job != ProcOf(s, w).job
  {
  }

  lemma UntouchedEndUnpack(s: World, w: Worker, v: Worker, p: Proc)
    requires ProcOf(s, w).Unpacking? && ProcOk(s, w, ProcOf(s, w)) && v != w && ProcOk(s, v, p)
    ensures Untouched(DoFinishUnpack(s, w), p) && Untouched(DoAbortUnpack(s, w), p)
  {
    if p.Unpacking? || p.Uploaded? || p.ChildCounted? {
      UnpackOtherJobs(s, w, v, p);
    }
  }

  lemma UntouchedCountAnalyzed(s: World, w: Worker, v: Worker, p: Proc)
    requires ProcOf(s, w).Analyzing? && ProcOk(s, w, ProcOf(s, w)) && v != w && ProcOk(s, v, p)
    ensures Untouched(DoCountAnalyzed(s, w), p)
  {
  }

  lemma UntouchedStoreFragment(s: World, w: Worker, components: seq<Component>, matches: seq<CveMatch>, v: Worker, p: Proc)
    requires ProcOf(s, w).Matching? && ProcOk(s, w, ProcOf(s, w)) && v != w && ProcOk(s, v, p)
    ensures Untouched(DoStoreFragment(s, w, components, matches), p)
  {
  }

  lemma UntouchedCountMatched(s: World, w: Worker, v: Worker, p: Proc)
    requires ProcOf(s, w).FragmentStored? && ProcOk(s, w, ProcOf(s, w)) && v != w && ProcOk(s, v, p)
    ensures Untouched(DoCountMatched(s, w), p)
  {
  }

  lemma UntouchedEmitMatched(s: World, w: Worker, v: Worker, p: Proc)
    requires ProcOf(s, w).MatchCounted? && ProcOk(s, w, ProcOf(s, w)) && v != w && ProcOk(s, v, p)
    ensures Untouched(DoEmitMatched(s, w), p)
  {
  }

  /** The steps that add nothing anybody must find untouched. */
  lemma UntouchedOther(s: World, e: Event, p: Proc)
    requires Enabled(s, e) && Untouched(s, p)
    requires e.Triage? || e.ExpireClaim? || e.Deliver? || e.Upload? || e.EmitExtracted? || e.EmitAnalyzed? || e.Crash?
    ensures Untouched(Next(s, e), p)
  {
  }

  // ---- the acting worker ------------------------------------------------------------

  lemma OwnDeliver(s: World, w: Worker, m: Message)
    requires Core(s) && m in s.sent && ProcOf(s, w).Idle? && PromptStep(s, Deliver(w, m))
    ensures ProcOk(DoDeliver(s, w, m), w, ProcOf(DoDeliver(s, w, m), w))
  {
    if KeyOf(m) !in s.claims {
      if KeyOf(m) !in s.owners {
        NewIsUntouched(s, m);
      } else {
        UntakenIsUntouched(s, m);
      }
      StartIsBacked(s, w, m);
    }
  }

  lemma StartIsBacked(s: World, w: Worker, m: Message)
    requires Core(s) && m in s.sent && KeyOf(m) !in s.claims && Untouched(s, Start(m))
    ensures ProcOf(DoDeliver(s, w, m), w) == Start(m) && ProcOk(DoDeliver(s, w, m), w, Start(m))
  {
  }

  /** Nobody has touched what a message asks for that was never claimed. */
  lemma NewIsUntouched(s: World, m: Message)
    requires Core(s) && m in s.sent && KeyOf(m) !in s.owners
    ensures Untouched(s, Start(m))
  {
  }

  lemma UntakenIsUntouched(s: World, m: Message)
    requires Core(s) && m in s.sent && Untaken(s, m)
    ensures Untouched(s, Start(m))
  {
    if m.AnalyzedMsg? {
      forall n | n in s.sent && n.MatchedMsg?
        ensures n.blob != m.blob
      {
        if n.blob == m.blob {
          assert n.blob in BlobsOf(s.scored, n.job);
          OneJobEach(s, m.job, n.job, m.blob);
        }
      }
    }
  }

  lemma OwnUnpack(s: World, e: Event)
    requires Core(s) && Enabled(s, e) && (e.Upload? || e.CountChild? || e.EmitExtracted? || e.FinishUnpack? || e.AbortUnpack?)
    requires ProcOk(s, e.w, ProcOf(s, e.w))
    ensures ProcOk(Next(s, e), e.w, ProcOf(Next(s, e), e.w))
  {
  }

  lemma OwnAnalysis(s: World, e: Event)
    requires Core(s) && Enabled(s, e) && (e.CountAnalyzed? || e.EmitAnalyzed?)
    requires ProcOk(s, e.w, ProcOf(s, e.w))
    ensures ProcOk(Next(s, e), e.w, ProcOf(Next(s, e), e.w))
  {
  }

  lemma OwnMatch(s: World, e: Event)
    requires Core(s) && Enabled(s, e) && (e.StoreFragment? || e.CountMatched? || e.EmitMatched?)
    requires ProcOk(s, e.w, ProcOf(s, e.w))
    ensures ProcOk(Next(s, e), e.w, ProcOf(Next(s, e), e.w))
  {
  }

  lemma OwnGate(s: World, e: Event)
    requires Core(s) && Enabled(s, e)
    requires e.RecordSlot? || e.ReadTotal? || e.ReadMarker?
    requires ProcOk(s, e.w, ProcOf(s, e.w))
    ensures ProcOk(Next(s, e), e.w, ProcOf(Next(s, e), e.w))
  {
  }

  /** The pigeonhole step: as many matched sub-blobs as counted ones, and each matched
  one counted, so every counted one is matched. */
  lemma GateComplete(s: World, j: JobId)
    requires Counters(s) && Get(s.matched, j, 0) >= Get(s.total, j, 0)
    ensures BlobsOf(s.scored, j) == BlobsOf(s.counted, j)
  {
    assert BlobsOf(s.scored, j) <= BlobsOf(s.analysed, j) <= BlobsOf(s.counted, j);
    SubsetCardinality(BlobsOf(s.scored, j), BlobsOf(s.counted, j));
  }

  /** The three reads together: a passing gate means that every counted child has been
  matched exactly when the counters agree, and they do when the marker was set before
  the total was read. */
  lemma PassingGateIsSound(s: World, j: JobId, total: nat, sealed: bool)
    requires Counters(s) && GateOk(s, j, total, sealed) && j in s.marker
    requires GatePasses(total, Get(s.matched, j, 0))
    ensures Complete(s, j) <==> Full(s, j)
    ensures sealed ==> Full(s, j)
  {
    if Full(s, j) || sealed {
      GateComplete(s, j);
    }
  }

  lemma OwnReadMatched(s: World, w: Worker)
    requires Counters(s) && ProcOf(s, w).MarkerRead? && Backed(s, w, ProcOf(s, w))
    ensures ProcOk(DoReadMatched(s, w), w, ProcOf(DoReadMatched(s, w), w))
  {
    var p := ProcOf(s, w);
    var t := DoReadMatched(s, w);
    if GatePasses(p.total, Get(s.matched, p.job, 0)) {
      PassingGateIsSound(s, p.job, p.total, p.sealed);
      assert Sound(t, p.job, Full(s, p.job));
    }
  }

  lemma OwnReadPartial(s: World, w: Worker)
    requires Docs(s) && ProcOf(s, w).Reading? && ProcOk(s, w, ProcOf(s, w))
    ensures ProcOk(DoReadPartial(s, w), w, ProcOf(DoReadPartial(s, w), w))
  {
  }

  lemma ListedComponents(fragments: map<FragmentKey, seq<Component>>, j: JobId, order: seq<BlobId>)
    requires IsListing(fragments, j, order)
    ensures var components := Dedup(Concat(Listed(fragments, j, order)));
      Distinct(components) && forall c :: c in components <==> InFragments(fragments, j, c)
  {
    var listed := Listed(fragments, j, order);
    DedupKeepsElements(Concat(listed));
    forall c
      ensures c in Concat(listed) <==> InFragments(fragments, j, c)
    {
      ConcatMembers(listed, c);
      if i :| 0 <= i < |listed| && c in listed[i] {
        assert order[i] in order;
        assert c in fragments[FragmentKey(j, order[i])];
      }
      if f :| f in fragments && f.job == j && c in fragments[f] {
        assert f == FragmentKey(j, f.blob);
        var i :| 0 <= i < |order| && order[i] == f.blob;
        assert c in listed[i];
      }
    }
  }

  lemma OwnListFragments(s: World, w: Worker, order: seq<BlobId>)
    requires ProcOf(s, w).Listing? && ProcOk(s, w, ProcOf(s, w)) && IsListing(s.fragments, ProcOf(s, w).job, order)
    ensures ProcOk(DoListFragments(s, w, order), w, ProcOf(DoListFragments(s, w, order), w))
  {
    ListedComponents(s.fragments, ProcOf(s, w).job, order);
  }

  lemma OwnFinalize(s: World, w: Worker)
    requires ProcOf(s, w).Assembled? && ProcOk(s, w, ProcOf(s, w))
    ensures ProcOk(DoFinalize(s, w), w, ProcOf(DoFinalize(s, w), w))
  {
  }

  lemma OwnFinish(s: World, e: Event)
    requires Enabled(s, e) && (e.PutSbom? || e.PutReport? || e.EmitCompleted?)
    requires ProcOk(s, e.w, ProcOf(s, e.w))
    ensures ProcOk(Next(s, e), e.w, ProcOf(Next(s, e), e.w))
  {
  }

  lemma GrowsWork(s: World, e: Event)
    requires Counters(s) && ScoredStored(s.scored, s.fragments) && ResultsScored(s.results, s.scored)
    requires Enabled(s, e) && Counters(Next(s, e))
    requires e.CountChild? || e.StoreFragment? || e.CountAnalyzed? || e.CountMatched?
    requires ProcOk(s, e.w, ProcOf(s, e.w))
    ensures Grows(s, Next(s, e))
  {
    if e.CountChild? {
      GrowsCountChild(s, e.w);
    } else if e.StoreFragment? {
      GrowsStoreFragment(s, e.w, e.components, e.matches);
    } else if e.CountAnalyzed? {
      GrowsCountAnalyzed(s, e.w);
    } else {
      GrowsCountMatched(s, e.w);
    }
  }

  lemma QuietKeeps(s: World, e: Event)
    requires Enabled(s, e) && !e.Deliver? && !e.Upload?
    requires !e.CountChild? && !e.StoreFragment? && !e.CountAnalyzed? && !e.CountMatched?
    ensures Keeps(s, Next(s, e))
  {
    if AggregateStep(e) {
      AggregationLeavesCore(s, e);
    } else if e.FinishUnpack? || e.AbortUnpack? || e.Crash? || e.ExpireClaim? {
      EndKeeps(s, e);
    } else {
      EmitKeeps(s, e);
    }
  }

  lemma GrowsStep(s: World, e: Event)
    requires Inv(s) && Enabled(s, e) && PromptStep(s, e)
    ensures Grows(s, Next(s, e))
  {
    CoreStep(s, e);
    if e.Deliver? {
      GrowsDeliver(s, e.w, e.m);
    } else if e.Upload? {
      GrowsUpload(s, e.w, e.blob);
    } else if e.CountChild? || e.StoreFragment? || e.CountAnalyzed? || e.CountMatched? {
      GrowsWork(s, e);
    } else {
      QuietKeeps(s, e);
      KeepsGrows(s, Next(s, e));
    }
  }

  lemma OwnAggregate(s: World, e: Event)
    requires Core(s) && Docs(s) && Enabled(s, e) && AggregateStep(e) && ProcOk(s, e.w, ProcOf(s, e.w))
    ensures ProcOk(Next(s, e), e.w, ProcOf(Next(s, e), e.w))
  {
    if e.RecordSlot? || e.ReadTotal? || e.ReadMarker? {
      OwnGate(s, e);
    } else if e.ReadMatched? {
      OwnReadMatched(s, e.w);
    } else if e.ReadPartial? {
      OwnReadPartial(s, e.w);
    } else if e.ListFragments? {
      OwnListFragments(s, e.w, e.order);
    } else if e.Finalize? {
      OwnFinalize(s, e.w);
    } else {
      OwnFinish(s, e);
    }
  }

  lemma OwnStep(s: World, e: Event)
    requires Inv(s) && Enabled(s, e) && PromptStep(s, e) && !e.ExpireClaim? && !e.Triage? && !e.Crash?
    ensures ProcOk(Next(s, e), e.w, ProcOf(Next(s, e), e.w))
  {
    if e.Deliver? {
      OwnDeliver(s, e.w, e.m);
    } else if e.Upload? || e.CountChild? || e.EmitExtracted? || e.FinishUnpack? || e.AbortUnpack? {
      OwnUnpack(s, e);
    } else if AggregateStep(e) {
      OwnAggregate(s, e);
    } else if e.CountAnalyzed? || e.EmitAnalyzed? {
      OwnAnalysis(s, e);
    } else {
      OwnMatch(s, e);
    }
  }

  lemma UntouchedStep(s: World, e: Event, v: Worker, p: Proc)
    requires Enabled(s, e) && ProcOk(s, v, p)
    requires e.Triage? || e.ExpireClaim? || (v != e.w && ProcOk(s, e.w, ProcOf(s, e.w)))
    ensures Untouched(Next(s, e), p)
  {
    if AggregateStep(e) {
      AggregationLeavesCore(s, e);
    } else if e.CountChild? {
      UntouchedCountChild(s, e.w, v, p);
    } else if e.FinishUnpack? || e.AbortUnpack? {
      UntouchedEndUnpack(s, e.w, v, p);
    } else if e.CountAnalyzed? {
      UntouchedCountAnalyzed(s, e.w, v, p);
    } else if e.StoreFragment? {
      UntouchedStoreFragment(s, e.w, e.components, e.matches, v, p);
    } else if e.CountMatched? {
      UntouchedCountMatched(s, e.w, v, p);
    } else if e.EmitMatched? {
      UntouchedEmitMatched(s, e.w, v, p);
    } else {
      UntouchedOther(s, e, p);
    }
  }

  lemma EarlyStepsLeaveClaims(s: World, e: Event)
    requires Enabled(s, e) && EarlyStep(e)
    ensures Next(s, e).owners == s.owners && Next(s, e).claims == s.claims
  {
  }

  lemma OnlyDeliverClaims(s: World, e: Event)
    requires Enabled(s, e) && !e.Deliver?
    ensures Next(s, e).owners == s.owners && (!e.ExpireClaim? ==> Next(s, e).claims == s.claims)
  {
    if EarlyStep(e) {
      EarlyStepsLeaveClaims(s, e);
    }
  }

  lemma OneJobEach(s: World, j: JobId, k: JobId, b: BlobId)
    requires Counters(s) && CountedUploaded(s.counted, s.uploads)
    requires b in BlobsOf(s.analysed, j) && b in BlobsOf(s.analysed, k)
    ensures j == k
  {
    assert BlobsOf(s.analysed, j) <= BlobsOf(s.counted, j) && BlobsOf(s.analysed, k) <= BlobsOf(s.counted, k);
    assert s.uploads[b] == j && s.uploads[b] == k;
  }

  /** Nobody relies on the claim of an untaken message. */
  lemma UntakenNotNeeded(s: World, m: Message, v: Worker)
    requires Core(s) && m in s.sent && Untaken(s, m) && v in s.procs && Backed(s, v, s.procs[v])
    ensures KeyNeeded(s.procs[v]) != Some(KeyOf(m))
  {
    var p := s.procs[v];
    if m.AnalyzedMsg? && (p.FragmentStored? || p.MatchCounted?) && p.blob == m.blob {
      assert FragmentKey(p.job, p.blob) in s.fragments;
      OneJobEach(s, m.job, p.job, m.blob);
    }
  }

  lemma KeysStay(s: World, e: Event, v: Worker)
    requires Core(s) && Procs(s) && Enabled(s, e) && PromptStep(s, e) && v in s.procs
    requires e.Triage? || e.ExpireClaim? || v != e.w
    ensures KeyKept(s, Next(s, e), v, s.procs[v])
  {
    if e.Deliver? {
      LateNotNeeded(s, e.w, e.m, v);
      DeliverKeepsKey(s, e.w, e.m, v, s.procs[v]);
    } else {
      OnlyDeliverClaims(s, e);
    }
  }

  lemma LateNotNeeded(s: World, w: Worker, m: Message, v: Worker)
    requires Core(s) && Procs(s) && m in s.sent && PromptStep(s, Deliver(w, m)) && v in s.procs
    ensures KeyOf(m) in s.owners && KeyOf(m) !in s.claims ==> KeyNeeded(s.procs[v]) != Some(KeyOf(m))
  {
    if KeyOf(m) in s.owners && KeyOf(m) !in s.claims {
      assert ProcOk(s, v, s.procs[v]);
      UntakenNotNeeded(s, m, v);
    }
  }

  lemma DeliverKeepsKey(s: World, w: Worker, m: Message, v: Worker, p: Proc)
    requires KeyOf(m) in s.owners && KeyOf(m) !in s.claims ==> KeyNeeded(p) != Some(KeyOf(m))
    ensures KeyKept(s, DoDeliver(s, w, m), v, p)
  {
  }

  lemma OtherStep(s: World, e: Event, v: Worker)
    requires Inv(s) && Enabled(s, e) && PromptStep(s, e) && v in s.procs
    requires e.Triage? || e.ExpireClaim? || v != e.w
    ensures ProcOk(Next(s, e), v, s.procs[v])
  {
    GrowsStep(s, e);
    KeysStay(s, e, v);
    StableBacked(s, Next(s, e), v, s.procs[v]);
    UntouchedStep(s, e, v, s.procs[v]);
  }

  lemma ProcsStep(s: World, e: Event)
    requires Inv(s) && Enabled(s, e) && PromptStep(s, e)
    ensures Procs(Next(s, e))
  {
    var t := Next(s, e);
    forall v | v in t.procs
      ensures ProcOk(t, v, t.procs[v])
    {
      if e.Triage? || e.ExpireClaim? || v != e.w {
        OnlyActorMoves(s, e, v);
        OtherStep(s, e, v);
      } else if e.Crash? {
        assert t.procs[v] == Idle;
      } else {
        OwnStep(s, e);
      }
    }
  }

  lemma DocsRecord(s: World, w: Worker)
    requires Docs(s) && ProcOf(s, w).Recording? && ProcOk(s, w, ProcOf(s, w))
    ensures Docs(DoRecordSlot(s, w))
  {
    var p := ProcOf(s, w);
    RecordSetsOneSlot(DocOf(s, p.job).slots, p.blob, p.matches);
  }

  lemma DocsStep(s: World, e: Event)
    requires Inv(s) && Enabled(s, e) && PromptStep(s, e)
    ensures Docs(Next(s, e))
  {
    if e.RecordSlot? {
      DocsRecord(s, e.w);
    } else if e.Finalize? {
      DocsFinalize(s, e.w);
    } else {
      OnlyRecordAndFinalizeWriteDocs(s, e);
      GrowsStep(s, e);
      forall j | j in s.docs && s.docs[j].final.Some? {
        StableReport(s, Next(s, e), j, s.docs[j].final.value);
      }
    }
  }

  lemma DocsFinalize(s: World, w: Worker)
    requires Docs(s) && ProcOf(s, w).Assembled? && ProcOk(s, w, ProcOf(s, w))
    ensures Docs(DoFinalize(s, w))
  {
  }

  lemma EarlyStepsLeaveDocs(s: World, e: Event)
    requires Enabled(s, e) && EarlyStep(e)
    ensures Next(s, e).docs == s.docs
  {
  }

  lemma OnlyRecordAndFinalizeWriteDocs(s: World, e: Event)
    requires Enabled(s, e) && !e.RecordSlot? && !e.Finalize?
    ensures Next(s, e).docs == s.docs
  {
    if EarlyStep(e) {
      EarlyStepsLeaveDocs(s, e);
    }
  }

  /** The invariant holds in every state any run with prompt redelivery can reach. */
  lemma {:induction false} InvHolds(r: Run)
    requires Legal(r) && Prompt(r)
    ensures Inv(End(r))
  {
    if r.Then? {
      InvHolds(r.before);
      CoreStep(End(r.before), r.event);
      ComputedStep(End(r.before), r.event);
      ProcsStep(End(r.before), r.event);
      DocsStep(End(r.before), r.event);
    } else {
      InitInv();
    }
  }
}
