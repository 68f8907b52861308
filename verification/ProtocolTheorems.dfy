/** The promises of the completion protocol, for every run. */
module ProtocolTheorems {
  import opened Collections
  import opened Firmware
  import opened Report
  import opened Protocol
  import opened ProtocolSafety
  import opened ProtocolOnce
  import opened ProtocolReads

  /** `matched_children <= completed_children <= total_children`, each the size of a
  set of distinct sub-blobs nested in the next; so the gate's `>=` is an `==`. */
  lemma CountersCountNestedSets(r: Run, j: JobId)
    requires Legal(r) && Prompt(r)
    ensures var s := End(r);
      && Get(s.total, j, 0) == |BlobsOf(s.counted, j)|
      && Get(s.completed, j, 0) == |BlobsOf(s.analysed, j)|
      && Get(s.matched, j, 0) == |BlobsOf(s.scored, j)|
      && BlobsOf(s.scored, j) <= BlobsOf(s.analysed, j) <= BlobsOf(s.counted, j)
      && Get(s.matched, j, 0) <= Get(s.completed, j, 0) <= Get(s.total, j, 0)
      && (GatePasses(Get(s.total, j, 0), Get(s.matched, j, 0)) <==>
          Get(s.total, j, 0) > 0 && Get(s.matched, j, 0) == Get(s.total, j, 0))
  {
    InvHolds(r);
    var s := End(r);
    SubsetCardinality(BlobsOf(s.scored, j), BlobsOf(s.analysed, j));
    SubsetCardinality(BlobsOf(s.analysed, j), BlobsOf(s.counted, j));
  }

  /** A worker past the gate: the job's unpack ran to its end, was not rejected and is
  not running; and if the counters agreed at the last read, every counted sub-blob has
  been matched and has its fragment stored. */
  lemma PassedGate(r: Run, w: Worker)
    requires Legal(r) && Prompt(r) && ProcOf(End(r), w).Reading?
    ensures var s, j := End(r), ProcOf(End(r), w).job;
      && j in s.marker && j !in s.rejected
      && (forall v :: var p := ProcOf(s, v); !(p.Unpacking? || p.Uploaded? || p.ChildCounted?) || p.job != j)
      && (ProcOf(s, w).full ==> Complete(s, j))
      && (ProcOf(s, w).full ==> forall b :: b in BlobsOf(s.counted, j) ==> FragmentKey(j, b) in s.fragments)
  {
    InvHolds(r);
    var s := End(r);
    assert ProcOk(s, w, s.procs[w]);
    forall v
      ensures var p := ProcOf(s, v); !(p.Unpacking? || p.Uploaded? || p.ChildCounted?) || p.job != ProcOf(s, w).job
    {
      if v in s.procs {
        assert ProcOk(s, v, s.procs[v]);
      }
    }
  }

  /** Two workers never unpack the same job. */
  lemma UnpackedByOne(r: Run, v: Worker, w: Worker)
    requires Legal(r) && Prompt(r) && v != w
    requires InUnpack(ProcOf(End(r), v)) && InUnpack(ProcOf(End(r), w))
    ensures ProcOf(End(r), v).job != ProcOf(End(r), w).job
  {
    InvHolds(r);
    var s := End(r);
    assert Backed(s, v, s.procs[v]) && Backed(s, w, s.procs[w]);
  }

  /** What the last read of the gate decides, exactly: when it passes, every counted
  child is matched just in case the matched counter equals the total as it is now.
  It does whenever the total that was read is still current, and the total is still
  current when the marker was set before it was read. */
  lemma PassingGateExactly(r: Run, w: Worker)
    requires r.Then? && Legal(r) && Prompt(r)
    requires r.event == ReadMatched(w) && ProcOf(End(r), w).Reading?
    ensures var s, p := End(r.before), ProcOf(End(r.before), w);
      && ProcOf(End(r), w) == Reading(p.job, Full(s, p.job))
      && (Complete(s, p.job) <==> Full(s, p.job))
      && (p.total == Get(s.total, p.job, 0) ==> Full(s, p.job))
      && (p.sealed ==> p.total == Get(s.total, p.job, 0))
  {
    var s, p := End(r.before), ProcOf(End(r.before), w);
    assert End(r) == DoReadMatched(s, w);
    GateAtLastRead(r.before, w);
  }

  lemma GateAtLastRead(r: Run, w: Worker)
    requires Legal(r) && Prompt(r) && ProcOf(End(r), w).MarkerRead?
    requires GatePasses(ProcOf(End(r), w).total, Get(End(r).matched, ProcOf(End(r), w).job, 0))
    ensures var s, p := End(r), ProcOf(End(r), w);
      && (Complete(s, p.job) <==> Full(s, p.job))
      && (p.total == Get(s.total, p.job, 0) ==> Full(s, p.job))
      && (p.sealed ==> p.total == Get(s.total, p.job, 0))
  {
    InvHolds(r);
    var s, p := End(r), ProcOf(End(r), w);
    assert Backed(s, w, p);
    PassingGateIsSound(s, p.job, p.total, p.sealed);
    MatchedAtMostTotal(s, p.job);
  }

  lemma MatchedAtMostTotal(s: World, j: JobId)
    requires Counters(s)
    ensures Get(s.matched, j, 0) <= Get(s.total, j, 0)
  {
    assert BlobsOf(s.scored, j) <= BlobsOf(s.analysed, j) <= BlobsOf(s.counted, j);
    SubsetCardinality(BlobsOf(s.scored, j), BlobsOf(s.counted, j));
  }

  // ---- the SBOM ---------------------------------------------------------------------

  /** A report from a full gate covers every child: each counted sub-blob has a fragment,
  and the components are exactly those of the fragments. */
  lemma FullReportIsComplete(r: Run, j: JobId)
    requires Legal(r) && Prompt(r) && FinalOf(End(r), j).Some? && FinalOf(End(r), j).value.full
    ensures var s, report := End(r), FinalOf(End(r), j).value;
      && Complete(s, j)
      && (forall b :: b in BlobsOf(s.counted, j) ==> Covers(s, report, j, b))
      && (forall c :: c in report.components <==> InFragments(s.fragments, j, c))
      && Distinct(report.components)
  {
    InvHolds(r);
    var s, report := End(r), FinalOf(End(r), j).value;
    assert ReportOk(s, j, report);
    forall b | b in BlobsOf(s.counted, j)
      ensures Covers(s, report, j, b)
    {
      assert b in BlobsOf(s.scored, j);
      assert FragmentKey(j, b).job == j;
    }
  }

  /** The child's fragment is stored and the SBOM lists all its components. */
  ghost predicate Covers(s: World, report: ReportDoc, j: JobId, b: BlobId) {
    var f := FragmentKey(j, b);
    f in s.fragments && forall c :: c in s.fragments[f] ==> c in report.components
  }

  /** The child's fragment is stored, and was when the winner listed, unless it is empty. */
  ghost predicate ListedInTime(s: World, listed: map<FragmentKey, seq<Component>>, j: JobId, b: BlobId) {
    var f := FragmentKey(j, b);
    f in s.fragments && (s.fragments[f] == [] || f in listed)
  }

  lemma CoversIff(r: Run, j: JobId, b: BlobId)
    requires Legal(r) && Prompt(r) && FinalOf(End(r), j).Some?
    ensures Covers(End(r), FinalOf(End(r), j).value, j, b) <==> ListedInTime(End(r), FragmentsListed(r, j), j, b)
  {
    FinalReportReads(r, j);
    ListedFragmentsStay(r, j);
    FragmentsSourced(r);
    var s, report, listed, f := End(r), FinalOf(End(r), j).value, FragmentsListed(r, j), FragmentKey(j, b);
    if f in s.fragments && f in listed {
      assert listed[f] == s.fragments[f] && f.job == j;
      assert forall c :: c in s.fragments[f] ==> InFragments(listed, j, c);
    } else if f in s.fragments && s.fragments[f] != [] {
      var c := s.fragments[f][0];
      assert c in s.fragments[f] && c.source == b;
      assert forall g :: g in listed && g.job == j && c in listed[g] ==> g == f;
      assert !InFragments(listed, j, c);
    }
  }

  /** Whatever the gate saw: the final SBOM covers every counted child if and only if
  each child with components had its fragment stored when the winner listed them. */
  lemma SbomCompleteIff(r: Run, j: JobId)
    requires Legal(r) && Prompt(r) && FinalOf(End(r), j).Some?
    ensures var s, report := End(r), FinalOf(End(r), j).value;
      (forall b :: b in BlobsOf(s.counted, j) ==> Covers(s, report, j, b))
      <==> (forall b :: b in BlobsOf(s.counted, j) ==> ListedInTime(s, FragmentsListed(r, j), j, b))
  {
    forall b
      ensures Covers(End(r), FinalOf(End(r), j).value, j, b) <==> ListedInTime(End(r), FragmentsListed(r, j), j, b)
    {
      CoversIff(r, j, b);
    }
  }

  /** A job that a defence rejected is never finalized and never completes, however
  the gate's reads interleave. */
  lemma RejectedNeverCompletes(r: Run, j: JobId)
    requires Legal(r) && Prompt(r) && j in End(r).rejected
    ensures FinalOf(End(r), j).None? && j !in End(r).completions && j !in End(r).marker
  {
    InvHolds(r);
    OnceHolds(r);
  }

  // ---- findings -------------------------------------------------------------------

  /** The child was matched and the report shows what was computed for it. */
  ghost predicate Shows(s: World, report: ReportDoc, j: JobId, b: BlobId) {
    var f := FragmentKey(j, b);
    f in s.results && ShownAs(OfBlob(report.findings, b), b, s.results[f])
  }

  /** The child was matched, and was recorded in these slots unless nothing was found. */
  ghost predicate RecordedInTime(s: World, slots: seq<Slot>, j: JobId, b: BlobId) {
    var f := FragmentKey(j, b);
    f in s.results && (s.results[f] == [] || Recorded(slots, b))
  }

  lemma {:induction false} SlotOf(slots: seq<Slot>, b: BlobId) returns (i: nat)
    requires Recorded(slots, b)
    ensures i < |slots| && slots[i].blob == b && MatchesOf(slots, b) == slots[i].matches
  {
    i := |slots| - 1;
    if slots[i].blob != b {
      i := SlotOf(slots[..i], b);
    }
  }

  lemma SlotsHoldResults(s: World, j: JobId, slots: seq<Slot>, b: BlobId)
    requires SlotsOk(s, j, slots) && Computed(s) && Recorded(slots, b)
    ensures FragmentKey(j, b) in s.results && MatchesOf(slots, b) == s.results[FragmentKey(j, b)]
  {
    var i := SlotOf(slots, b);
    assert slots[i] in slots;
    assert MatchedMsg(j, b, slots[i].matches) in s.sent;
  }

  lemma FlattenShowsIff(s: World, report: ReportDoc, slots: seq<Slot>, j: JobId, b: BlobId)
    requires SlotsOk(s, j, slots) && Computed(s) && report.findings == Flatten(slots)
    ensures Shows(s, report, j, b) <==> RecordedInTime(s, slots, j, b)
  {
    FlattenCountsEachBlobOnce(slots, b);
    if Recorded(slots, b) {
      SlotsHoldResults(s, j, slots, b);
    }
  }

  lemma FinalSlots(r: Run, j: JobId)
    requires Legal(r) && Prompt(r) && FinalOf(End(r), j).Some?
    ensures SlotsOk(End(r), j, SlotsRead(r, j)) && Computed(End(r))
    ensures FinalOf(End(r), j).value.findings == Flatten(SlotsRead(r, j))
  {
    InvHolds(r);
    FinalReportReads(r, j);
    assert ReportOk(End(r), j, FinalOf(End(r), j).value);
  }

  /** What a report shows of one sub-blob: its computed matches exactly when it was
  recorded before the winner read the document, or there was nothing to show. */
  lemma ShowsIff(r: Run, j: JobId, b: BlobId)
    requires Legal(r) && Prompt(r) && FinalOf(End(r), j).Some?
    ensures Shows(End(r), FinalOf(End(r), j).value, j, b) <==> RecordedInTime(End(r), SlotsRead(r, j), j, b)
  {
    FinalSlots(r, j);
    FlattenShowsIff(End(r), FinalOf(End(r), j).value, SlotsRead(r, j), j, b);
  }

  /** The findings cover every counted child, also one whose message was never produced,
  if and only if each child with something to report was recorded before the read. */
  lemma FindingsCompleteIff(r: Run, j: JobId)
    requires Legal(r) && Prompt(r) && FinalOf(End(r), j).Some?
    ensures var s, report := End(r), FinalOf(End(r), j).value;
      (forall b :: b in BlobsOf(s.counted, j) ==> Shows(s, report, j, b))
      <==> (forall b :: b in BlobsOf(s.counted, j) ==> RecordedInTime(s, SlotsRead(r, j), j, b))
  {
    forall b
      ensures Shows(End(r), FinalOf(End(r), j).value, j, b) <==> RecordedInTime(End(r), SlotsRead(r, j), j, b)
    {
      ShowsIff(r, j, b);
    }
  }

  // ---- one router process -----------------------------------------------------------

  /** What a lone worker knows inside the gate: the total it read is current. */
  ghost predicate AloneAt(s: World, p: Proc) {
    match p
    case TotalRead(j, total, _) => total == Get(s.total, j, 0)
    case MarkerRead(j, total, _) => total == Get(s.total, j, 0)
    case Reading(_, full) => full
    case Listing(_, full, _) => full
    case Assembled(_, report) => report.full
    case _ => true
  }

  ghost predicate DocsFull(docs: map<JobId, Doc>) {
    forall j :: j in docs && docs[j].final.Some? ==> docs[j].final.value.full
  }

  /** With a single worker nothing moves between the gate's reads. */
  ghost predicate Alone(s: World, w: Worker) {
    (forall v :: v in s.procs && v != w ==> s.procs[v] == Idle) && AloneAt(s, ProcOf(s, w)) && DocsFull(s.docs)
  }

  lemma AloneReadMatched(s: World, w: Worker)
    requires ProcOf(s, w).MarkerRead? && AloneAt(s, ProcOf(s, w)) && Counters(s)
    ensures AloneAt(DoReadMatched(s, w), ProcOf(DoReadMatched(s, w), w))
  {
    MatchedAtMostTotal(s, ProcOf(s, w).job);
  }

  lemma AloneGate(s: World, e: Event)
    requires Enabled(s, e) && (e.ReadTotal? || e.ReadMarker? || e.ReadPartial? || e.ListFragments?)
    requires AloneAt(s, ProcOf(s, e.w))
    ensures AloneAt(Next(s, e), ProcOf(Next(s, e), e.w))
  {
  }

  lemma EarlyLeavesGate(s: World, e: Event)
    requires Enabled(s, e) && EarlyStep(e)
    ensures AloneAt(Next(s, e), ProcOf(Next(s, e), e.w))
  {
  }

  lemma LateLeavesGate(s: World, e: Event)
    requires Enabled(s, e)
    requires e.Deliver? || e.StoreFragment? || e.CountMatched? || e.EmitMatched? || e.RecordSlot? || e.Finalize? || e.PutSbom?
             || e.PutReport? || e.EmitCompleted? || e.Crash?
    ensures AloneAt(Next(s, e), ProcOf(Next(s, e), e.w))
  {
  }

  lemma AloneActor(s: World, e: Event)
    requires Enabled(s, e) && Counters(s) && !e.Triage? && !e.ExpireClaim? && AloneAt(s, ProcOf(s, e.w))
    ensures AloneAt(Next(s, e), ProcOf(Next(s, e), e.w))
  {
    if e.ReadMatched? {
      AloneReadMatched(s, e.w);
    } else if e.ReadTotal? || e.ReadMarker? || e.ReadPartial? || e.ListFragments? {
      AloneGate(s, e);
    } else if EarlyStep(e) {
      EarlyLeavesGate(s, e);
    } else {
      LateLeavesGate(s, e);
    }
  }

  lemma AloneDocs(s: World, e: Event)
    requires Enabled(s, e) && DocsFull(s.docs) && (e.Finalize? ==> AloneAt(s, ProcOf(s, e.w)))
    ensures DocsFull(Next(s, e).docs)
  {
    if !e.RecordSlot? && !e.Finalize? {
      OnlyRecordAndFinalizeWriteDocs(s, e);
    }
  }

  lemma AloneStep(s: World, e: Event, w: Worker)
    requires Alone(s, w) && Counters(s) && Enabled(s, e) && (e.Triage? || e.ExpireClaim? || e.w == w)
    ensures Alone(Next(s, e), w)
  {
    forall v | v in Next(s, e).procs && v != w
      ensures Next(s, e).procs[v] == Idle
    {
      OnlyActorMoves(s, e, v);
    }
    AloneDocs(s, e);
    if e.Triage? || e.ExpireClaim? {
      OnlyActorMoves(s, e, w);
      EmitKeepsTotals(s, e);
    } else {
      AloneActor(s, e);
    }
  }

  lemma EmitKeepsTotals(s: World, e: Event)
    requires Enabled(s, e) && (e.Triage? || e.ExpireClaim?)
    ensures Next(s, e).total == s.total
  {
  }

  lemma {:induction false} AloneHolds(r: Run, w: Worker)
    requires Legal(r) && Prompt(r) && OneWorker(r, w)
    ensures Alone(End(r), w)
  {
    if r.Then? {
      AloneHolds(r.before, w);
      InvHolds(r.before);
      AloneStep(End(r.before), r.event, w);
    }
  }

  /** In the fat-container deployment (one router process) every finalized SBOM holds
  every component of every child that was counted. */
  lemma OneRouterCompletes(r: Run, w: Worker, j: JobId)
    requires Legal(r) && Prompt(r) && OneWorker(r, w) && FinalOf(End(r), j).Some?
    ensures var s, report := End(r), FinalOf(End(r), j).value;
      && Complete(s, j)
      && (forall b :: b in BlobsOf(s.counted, j) ==> Covers(s, report, j, b))
      && (forall c :: c in report.components <==> InFragments(s.fragments, j, c))
  {
    AloneHolds(r, w);
    FullReportIsComplete(r, j);
  }
}
