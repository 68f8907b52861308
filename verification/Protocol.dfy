/** The fan-out and completion protocol as a step machine.

Workers run stage handlers. Every access a handler makes to a shared store (Redis,
the artifact store, the report store, Kafka) is one step, so any interleaving of
handlers is a run of this machine. A message, once produced, may be delivered to any
idle worker any number of times, and a worker may crash between any two steps.

The fields below the line "history" (who claimed a message first, what was counted, and
what was computed) are observations that no step looks at. */
module Protocol {
  import opened Collections
  import opened Firmware
  import opened Report

  type Worker = nat

  datatype Topic = Triaged | Extracted | Analyzed | Matched

  datatype Message =
    | TriagedMsg(job: JobId)
    | ExtractedMsg(job: JobId, blob: BlobId)
    | AnalyzedMsg(job: JobId, blob: BlobId)
    | MatchedMsg(job: JobId, blob: BlobId, matches: seq<CveMatch>)

  /** `processed:{topic}:{message_key}`. */
  datatype ClaimKey = ClaimKey(topic: Topic, key: string)

  /** The Kafka key: the job for job-scoped topics, the sub-blob for fan-out topics. */
  function KeyOf(m: Message): ClaimKey {
    match m
    case TriagedMsg(job) => ClaimKey(Triaged, job)
    case ExtractedMsg(_, blob) => ClaimKey(Extracted, blob)
    case AnalyzedMsg(_, blob) => ClaimKey(Analyzed, blob)
    case MatchedMsg(_, blob, _) => ClaimKey(Matched, blob)
  }

  /** The message is about this sub-blob, or the job when no sub-blob is meant. */
  function Subject(m: Message): string {
    if m.TriagedMsg? then m.job else m.blob
  }

  predicate SameKind(m: Message, n: Message) {
    || (m.TriagedMsg? && n.TriagedMsg?) || (m.ExtractedMsg? && n.ExtractedMsg?)
    || (m.AnalyzedMsg? && n.AnalyzedMsg?) || (m.MatchedMsg? && n.MatchedMsg?)
  }

  /** Two messages share a claim exactly when they are of one kind and about the same job or
  sub-blob: claiming one never makes another be skipped. */
  lemma SameClaimIff(m: Message, n: Message)
    ensures KeyOf(m) == KeyOf(n) <==> SameKind(m, n) && Subject(m) == Subject(n)
  {
  }

  /** What finalize writes. `full` and `seen` are history: whether every counted child was
  matched when the winner passed the gate, and the slots the winner read. */
  datatype ReportDoc = ReportDoc(
    job: JobId,
    findings: seq<Finding>,
    byTier: map<Tier, nat>,
    components: seq<Component>,
    full: bool,
    seen: seq<Slot>)

  /** A `reports` document; its status is COMPLETE exactly when `final` is there. */
  datatype Doc = Doc(slots: seq<Slot>, final: Option<ReportDoc>)

  /** `sbom-fragments/{job}/{blob}.json`. */
  datatype FragmentKey = FragmentKey(job: JobId, blob: BlobId)

  /** Where a worker is inside a handler. */
  datatype Proc =
    | Idle
    | Unpacking(job: JobId)
    | Uploaded(job: JobId, blob: BlobId)
    | ChildCounted(job: JobId, blob: BlobId)
    | Analyzing(job: JobId, blob: BlobId)
    | AnalysisCounted(job: JobId, blob: BlobId)
    | Matching(job: JobId, blob: BlobId)
    | FragmentStored(job: JobId, blob: BlobId, matches: seq<CveMatch>)
    | MatchCounted(job: JobId, blob: BlobId, matches: seq<CveMatch>)
    | Recording(job: JobId, blob: BlobId, matches: seq<CveMatch>)
    | GateStart(job: JobId)
    | TotalRead(job: JobId, total: nat, sealed: bool)
    | MarkerRead(job: JobId, total: nat, sealed: bool)
    | Reading(job: JobId, full: bool)
    | Listing(job: JobId, full: bool, slots: seq<Slot>)
    | Assembled(job: JobId, report: ReportDoc)
    | Won(job: JobId, report: ReportDoc)
    | SbomPut(job: JobId, report: ReportDoc)
    | ReportPut(job: JobId, report: ReportDoc)

  datatype World = World(
    sent: set<Message>,
    claims: set<ClaimKey>,
    total: map<JobId, nat>,
    completed: map<JobId, nat>,
    matched: map<JobId, nat>,
    marker: set<JobId>,
    uploads: map<BlobId, JobId>,
    fragments: map<FragmentKey, seq<Component>>,
    docs: map<JobId, Doc>,
    sboms: map<JobId, seq<Component>>,
    reports: map<JobId, ReportDoc>,
    completions: seq<JobId>,
    rejected: set<JobId>,
    procs: map<Worker, Proc>,
    // history
    owners: map<ClaimKey, Worker>,
    results: map<FragmentKey, seq<CveMatch>>,
    counted: map<JobId, set<BlobId>>,
    analysed: map<JobId, set<BlobId>>,
    scored: map<JobId, set<BlobId>>,
    winner: map<JobId, Worker>)

  const INIT := World({}, {}, map[], map[], map[], {}, map[], map[], map[], map[], map[], [], {}, map[],
                      map[], map[], map[], map[], map[], map[])

  function ProcOf(s: World, w: Worker): Proc {
    Get(s.procs, w, Idle)
  }

  function At(s: World, w: Worker, p: Proc): World {
    s.(procs := s.procs[w := p])
  }

  function BlobsOf(m: map<JobId, set<BlobId>>, j: JobId): set<BlobId> {
    Get(m, j, {})
  }

  function DocOf(s: World, j: JobId): Doc {
    Get(s.docs, j, Doc([], None))
  }

  function FinalOf(s: World, j: JobId): Option<ReportDoc> {
    DocOf(s, j).final
  }

  function Incr(m: map<JobId, nat>, j: JobId): map<JobId, nat> {
    m[j := Get(m, j, 0) + 1]
  }

  function Insert(m: map<JobId, set<BlobId>>, j: JobId, b: BlobId): (r: map<JobId, set<BlobId>>)
    ensures forall i :: BlobsOf(r, i) == BlobsOf(m, i) + (if i == j then {b} else {})
  {
    m[j := BlobsOf(m, j) + {b}]
  }

  /** Listing by prefix names every fragment of the job once. */
  ghost predicate IsListing(fragments: map<FragmentKey, seq<Component>>, j: JobId, order: seq<BlobId>) {
    Distinct(order) && forall b :: b in order <==> FragmentKey(j, b) in fragments
  }

  /** The fragment documents in listing order. */
  function Listed(fragments: map<FragmentKey, seq<Component>>, j: JobId, order: seq<BlobId>): seq<seq<Component>>
  {
    seq(|order|, i requires 0 <= i < |order| => Get(fragments, FragmentKey(j, order[i]), []))
  }

  datatype Event =
    | Triage(job: JobId)
    | Deliver(w: Worker, m: Message)
    | Upload(w: Worker, blob: BlobId)
    | CountChild(w: Worker)
    | EmitExtracted(w: Worker)
    | FinishUnpack(w: Worker)
    | AbortUnpack(w: Worker)
    | CountAnalyzed(w: Worker)
    | EmitAnalyzed(w: Worker)
    | StoreFragment(w: Worker, components: seq<Component>, matches: seq<CveMatch>)
    | CountMatched(w: Worker)
    | EmitMatched(w: Worker)
    | RecordSlot(w: Worker)
    | ReadTotal(w: Worker)
    | ReadMarker(w: Worker)
    | ReadMatched(w: Worker)
    | ReadPartial(w: Worker)
    | ListFragments(w: Worker, order: seq<BlobId>)
    | Finalize(w: Worker)
    | PutSbom(w: Worker)
    | PutReport(w: Worker)
    | EmitCompleted(w: Worker)
    | Crash(w: Worker)
    | ExpireClaim(key: ClaimKey)

  /** When a step can happen. The values a step brings with it are arbitrary, except
  that an uploaded sub-blob carries a fresh id, a fragment's components name their
  sub-blob, and a listing names every fragment of the job once. */
  ghost predicate Enabled(s: World, e: Event) {
    match e
    case Triage(_) => true
    case Deliver(w, m) => m in s.sent && ProcOf(s, w).Idle?
    case Upload(w, blob) => ProcOf(s, w).Unpacking? && blob !in s.uploads
    case CountChild(w) => ProcOf(s, w).Uploaded?
    case EmitExtracted(w) => ProcOf(s, w).ChildCounted?
    case FinishUnpack(w) => ProcOf(s, w).Unpacking?
    case AbortUnpack(w) => ProcOf(s, w).Unpacking?
    case CountAnalyzed(w) => ProcOf(s, w).Analyzing?
    case EmitAnalyzed(w) => ProcOf(s, w).AnalysisCounted?
    case StoreFragment(w, components, _) =>
      ProcOf(s, w).Matching? && forall c :: c in components ==> c.source == ProcOf(s, w).blob
    case CountMatched(w) => ProcOf(s, w).FragmentStored?
    case EmitMatched(w) => ProcOf(s, w).MatchCounted?
    case RecordSlot(w) => ProcOf(s, w).Recording?
    case ReadTotal(w) => ProcOf(s, w).GateStart?
    case ReadMarker(w) => ProcOf(s, w).TotalRead?
    case ReadMatched(w) => ProcOf(s, w).MarkerRead?
    case ReadPartial(w) => ProcOf(s, w).Reading?
    case ListFragments(w, order) =>
      ProcOf(s, w).Listing? && IsListing(s.fragments, ProcOf(s, w).job, order)
    case Finalize(w) => ProcOf(s, w).Assembled?
    case PutSbom(w) => ProcOf(s, w).Won?
    case PutReport(w) => ProcOf(s, w).SbomPut?
    case EmitCompleted(w) => ProcOf(s, w).ReportPut?
    case Crash(_) => true
    case ExpireClaim(_) => true
  }

  /** The handler a claimed message starts. */
  function Start(m: Message): Proc {
    match m
    case TriagedMsg(job) => Unpacking(job)
    case ExtractedMsg(job, blob) => Analyzing(job, blob)
    case AnalyzedMsg(job, blob) => Matching(job, blob)
    case MatchedMsg(job, blob, matches) => Recording(job, blob, matches)
  }

  function Assemble(job: JobId, slots: seq<Slot>, components: seq<Component>, full: bool): ReportDoc {
    ReportDoc(job, Flatten(slots), TierCount(Flatten(slots)), components, full, slots)
  }

  // ---- the steps, one store access each ---------------------------------------

  /** A delivery claims its message or, when the claim is taken, skips it. */
  function DoDeliver(s: World, w: Worker, m: Message): World {
    var taken := KeyOf(m) in s.claims;
    At(s.(claims := s.claims + {KeyOf(m)}, owners := if taken then s.owners else s.owners[KeyOf(m) := w]),
       w, if taken then Idle else Start(m))
  }

  function DoUpload(s: World, w: Worker, blob: BlobId): World
    requires ProcOf(s, w).Unpacking?
  {
    var j := ProcOf(s, w).job;
    At(s.(uploads := s.uploads[blob := j]), w, Uploaded(j, blob))
  }

  function DoCountChild(s: World, w: Worker): World
    requires ProcOf(s, w).Uploaded?
  {
    var p := ProcOf(s, w);
    At(s.(total := Incr(s.total, p.job), counted := Insert(s.counted, p.job, p.blob)), w, ChildCounted(p.job, p.blob))
  }

  function DoEmitExtracted(s: World, w: Worker): World
    requires ProcOf(s, w).ChildCounted?
  {
    var p := ProcOf(s, w);
    At(s.(sent := s.sent + {ExtractedMsg(p.job, p.blob)}), w, Unpacking(p.job))
  }

  function DoFinishUnpack(s: World, w: Worker): World
    requires ProcOf(s, w).Unpacking?
  {
    At(s.(marker := s.marker + {ProcOf(s, w).job}), w, Idle)
  }

  function DoAbortUnpack(s: World, w: Worker): World
    requires ProcOf(s, w).Unpacking?
  {
    At(s.(rejected := s.rejected + {ProcOf(s, w).job}), w, Idle)
  }

  function DoCountAnalyzed(s: World, w: Worker): World
    requires ProcOf(s, w).Analyzing?
  {
    var p := ProcOf(s, w);
    At(s.(completed := Incr(s.completed, p.job), analysed := Insert(s.analysed, p.job, p.blob)),
       w, AnalysisCounted(p.job, p.blob))
  }

  function DoEmitAnalyzed(s: World, w: Worker): World
    requires ProcOf(s, w).AnalysisCounted?
  {
    var p := ProcOf(s, w);
    At(s.(sent := s.sent + {AnalyzedMsg(p.job, p.blob)}), w, Idle)
  }

  function DoStoreFragment(s: World, w: Worker, components: seq<Component>, matches: seq<CveMatch>): World
    requires ProcOf(s, w).Matching?
  {
    var p := ProcOf(s, w);
    At(s.(fragments := s.fragments[FragmentKey(p.job, p.blob) := components]), w, FragmentStored(p.job, p.blob, matches))
  }

  function DoCountMatched(s: World, w: Worker): World
    requires ProcOf(s, w).FragmentStored?
  {
    var p := ProcOf(s, w);
    At(s.(matched := Incr(s.matched, p.job), scored := Insert(s.scored, p.job, p.blob),
          results := s.results[FragmentKey(p.job, p.blob) := p.matches]),
       w, MatchCounted(p.job, p.blob, p.matches))
  }

  function DoEmitMatched(s: World, w: Worker): World
    requires ProcOf(s, w).MatchCounted?
  {
    var p := ProcOf(s, w);
    At(s.(sent := s.sent + {MatchedMsg(p.job, p.blob, p.matches)}), w, Idle)
  }

  function DoRecordSlot(s: World, w: Worker): World
    requires ProcOf(s, w).Recording?
  {
    var p := ProcOf(s, w);
    var doc := DocOf(s, p.job);
    At(s.(docs := s.docs[p.job := doc.(slots := Record(doc.slots, p.blob, p.matches))]), w, GateStart(p.job))
  }

  function DoReadTotal(s: World, w: Worker): World
    requires ProcOf(s, w).GateStart?
  {
    var j := ProcOf(s, w).job;
    At(s, w, if j in s.total then TotalRead(j, s.total[j], j in s.marker) else Idle)
  }

  function DoReadMarker(s: World, w: Worker): World
    requires ProcOf(s, w).TotalRead?
  {
    var p := ProcOf(s, w);
    At(s, w, if p.job in s.marker then MarkerRead(p.job, p.total, p.sealed) else Idle)
  }

  function DoReadMatched(s: World, w: Worker): World
    requires ProcOf(s, w).MarkerRead?
  {
    var p := ProcOf(s, w);
    At(s, w, if GatePasses(p.total, Get(s.matched, p.job, 0)) then Reading(p.job, Full(s, p.job)) else Idle)
  }

  function DoReadPartial(s: World, w: Worker): World
    requires ProcOf(s, w).Reading?
  {
    var p := ProcOf(s, w);
    At(s, w, Listing(p.job, p.full, DocOf(s, p.job).slots))
  }

  function DoListFragments(s: World, w: Worker, order: seq<BlobId>): World
    requires ProcOf(s, w).Listing?
  {
    var p := ProcOf(s, w);
    var components := Dedup(Concat(Listed(s.fragments, p.job, order)));
    At(s, w, Assembled(p.job, Assemble(p.job, p.slots, components, p.full)))
  }

  /** The atomic transition to COMPLETE: a no-op for everyone but the first. */
  function DoFinalize(s: World, w: Worker): World
    requires ProcOf(s, w).Assembled?
  {
    var p := ProcOf(s, w);
    var won := FinalOf(s, p.job).None?;
    At(s.(docs := if won then s.docs[p.job := DocOf(s, p.job).(final := Some(p.report))] else s.docs,
          winner := if won then s.winner[p.job := w] else s.winner),
       w, if won then Won(p.job, p.report) else Idle)
  }

  function DoPutSbom(s: World, w: Worker): World
    requires ProcOf(s, w).Won?
  {
    var p := ProcOf(s, w);
    At(s.(sboms := s.sboms[p.job := p.report.components]), w, SbomPut(p.job, p.report))
  }

  function DoPutReport(s: World, w: Worker): World
    requires ProcOf(s, w).SbomPut?
  {
    var p := ProcOf(s, w);
    At(s.(reports := s.reports[p.job := p.report]), w, ReportPut(p.job, p.report))
  }

  function DoEmitCompleted(s: World, w: Worker): World
    requires ProcOf(s, w).ReportPut?
  {
    var p := ProcOf(s, w);
    At(s.(completions := s.completions + [p.job]), w, Idle)
  }

  function Next(s: World, e: Event): World
    requires Enabled(s, e)
  {
    match e
    case Triage(job) => s.(sent := s.sent + {TriagedMsg(job)})
    case Deliver(w, m) => DoDeliver(s, w, m)
    case Upload(w, blob) => DoUpload(s, w, blob)
    case CountChild(w) => DoCountChild(s, w)
    case EmitExtracted(w) => DoEmitExtracted(s, w)
    case FinishUnpack(w) => DoFinishUnpack(s, w)
    case AbortUnpack(w) => DoAbortUnpack(s, w)
    case CountAnalyzed(w) => DoCountAnalyzed(s, w)
    case EmitAnalyzed(w) => DoEmitAnalyzed(s, w)
    case StoreFragment(w, components, matches) => DoStoreFragment(s, w, components, matches)
    case CountMatched(w) => DoCountMatched(s, w)
    case EmitMatched(w) => DoEmitMatched(s, w)
    case RecordSlot(w) => DoRecordSlot(s, w)
    case ReadTotal(w) => DoReadTotal(s, w)
    case ReadMarker(w) => DoReadMarker(s, w)
    case ReadMatched(w) => DoReadMatched(s, w)
    case ReadPartial(w) => DoReadPartial(s, w)
    case ListFragments(w, order) => DoListFragments(s, w, order)
    case Finalize(w) => DoFinalize(s, w)
    case PutSbom(w) => DoPutSbom(s, w)
    case PutReport(w) => DoPutReport(s, w)
    case EmitCompleted(w) => DoEmitCompleted(s, w)
    case Crash(w) => At(s, w, Idle)
    case ExpireClaim(key) => s.(claims := s.claims - {key})
  }

  /** Unpacking and analysing, as opposed to matching and aggregating. */
  ghost predicate EarlyStep(e: Event) {
    e.Upload? || e.CountChild? || e.EmitExtracted? || e.FinishUnpack? || e.AbortUnpack? || e.CountAnalyzed? || e.EmitAnalyzed?
  }

  lemma EarlyActorMoves(s: World, e: Event, v: Worker)
    requires Enabled(s, e) && EarlyStep(e) && v != e.w
    ensures v in Next(s, e).procs <==> v in s.procs
    ensures v in s.procs ==> Next(s, e).procs[v] == s.procs[v]
  {
  }

  lemma LateActorMoves(s: World, e: Event, v: Worker)
    requires Enabled(s, e) && !EarlyStep(e) && (e.Triage? || e.ExpireClaim? || v != e.w)
    ensures v in Next(s, e).procs <==> v in s.procs
    ensures v in s.procs ==> Next(s, e).procs[v] == s.procs[v]
  {
  }

  /** A step moves only its own worker. */
  lemma OnlyActorMoves(s: World, e: Event, v: Worker)
    requires Enabled(s, e) && (e.Triage? || e.ExpireClaim? || v != e.w)
    ensures v in Next(s, e).procs <==> v in s.procs
    ensures v in s.procs ==> Next(s, e).procs[v] == s.procs[v]
  {
    if EarlyStep(e) {
      EarlyActorMoves(s, e, v);
    } else {
      LateActorMoves(s, e, v);
    }
  }

  /** The last test of `completion_ready`. */
  predicate GatePasses(total: nat, matched: nat) {
    total > 0 && matched >= total
  }

  /** As many children matched as counted, going by the counters as they are now. */
  predicate Full(s: World, j: JobId) {
    Get(s.matched, j, 0) == Get(s.total, j, 0)
  }

  // ---- runs -----------------------------------------------------------------

  datatype Run = Empty | Then(before: Run, event: Event)

  ghost predicate Legal(r: Run) {
    r.Then? ==> Legal(r.before) && Enabled(End(r.before), r.event)
  }

  ghost function End(r: Run): World {
    match r
    case Empty => INIT
    case Then(before, event) =>
      if Enabled(End(before), event) then Next(End(before), event) else End(before)
  }

  ghost predicate Extends(r: Run, prefix: Run) {
    r == prefix || (r.Then? && Extends(r.before, prefix))
  }

  predicate InUnpack(p: Proc) {
    p.Unpacking? || p.Uploaded? || p.ChildCounted?
  }

  /** Nothing that the handler of the message does has been done, and nobody is at it. The
  handling of a `firmware.matched` may be repeated. */
  ghost predicate Untaken(s: World, m: Message) {
    match m
    case TriagedMsg(j) =>
      j !in s.marker && j !in s.rejected && forall v :: v in s.procs && InUnpack(s.procs[v]) ==> s.procs[v].job != j
    case ExtractedMsg(j, b) =>
      b !in BlobsOf(s.analysed, j) && forall v :: v in s.procs && s.procs[v].Analyzing? ==> s.procs[v].blob != b
    case AnalyzedMsg(j, b) =>
      FragmentKey(j, b) !in s.fragments && forall v :: v in s.procs && s.procs[v].Matching? ==> s.procs[v].blob != b
    case MatchedMsg(_, _, _) => true
  }

  /** A delivery of a message that was claimed before finds the claim still there, or finds
  the message untaken. */
  ghost predicate PromptStep(s: World, e: Event) {
    e.Deliver? && KeyOf(e.m) in s.owners && KeyOf(e.m) !in s.claims ==> Untaken(s, e.m)
  }

  /** Every redelivery falls inside the claim's lifetime, unless it comes to nobody's harm.
  Claims may run out at any time otherwise, and all of them do. */
  ghost predicate Prompt(r: Run) {
    r.Then? ==> Prompt(r.before) && PromptStep(End(r.before), r.event)
  }

  /** One router process runs every handler (the fat-container deployment). */
  ghost predicate OneWorker(r: Run, w: Worker) {
    r.Then? ==>
      && OneWorker(r.before, w)
      && match r.event
         case Triage(_) => true
         case ExpireClaim(_) => true
         case e => e.w == w
  }
}
