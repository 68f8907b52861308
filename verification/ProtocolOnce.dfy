/** What the atomic finalize alone guarantees, with no help from the claims: any
number of racing aggregators, any redelivery, claims running out at any moment. */
module ProtocolOnce {
  import opened Collections
  import opened Firmware
  import opened Report
  import opened Protocol

  /** A report is the flattening of distinct slots, with its statistics. */
  ghost predicate WellBuilt(j: JobId, r: ReportDoc) {
    DistinctBlobs(r.seen) && r == Assemble(j, r.seen, r.components, r.full)
  }

  /** The winner of finalize holds the document's own report and has not emitted. */
  ghost predicate Winner(s: World, w: Worker, j: JobId, r: ReportDoc) {
    FinalOf(s, j) == Some(r) && j in s.winner && s.winner[j] == w && j !in s.completions
  }

  ghost predicate SbomStored(s: World, j: JobId, r: ReportDoc) {
    j in s.sboms && s.sboms[j] == r.components
  }

  ghost predicate ReportStored(s: World, j: JobId, r: ReportDoc) {
    j in s.reports && s.reports[j] == r
  }

  ghost predicate ProcOnce(s: World, w: Worker, p: Proc) {
    match p
    case Listing(_, _, slots) => DistinctBlobs(slots)
    case Assembled(j, r) => WellBuilt(j, r)
    case Won(j, r) => Winner(s, w, j, r)
    case SbomPut(j, r) => Winner(s, w, j, r) && SbomStored(s, j, r)
    case ReportPut(j, r) => Winner(s, w, j, r) && SbomStored(s, j, r) && ReportStored(s, j, r)
    case _ => true
  }

  ghost predicate ProcsOnce(s: World) {
    forall w :: w in s.procs ==> ProcOnce(s, w, s.procs[w])
  }

  /** A completion that was emitted has both of its artifacts behind it. */
  ghost predicate Backing(s: World, j: JobId) {
    FinalOf(s, j).Some? && SbomStored(s, j, FinalOf(s, j).value) && ReportStored(s, j, FinalOf(s, j).value)
  }

  ghost predicate Emitted(s: World) {
    && Distinct(s.completions)
    && (forall j :: j in s.completions ==> Backing(s, j))
    && (forall j :: j in s.winner ==> FinalOf(s, j).Some?)
  }

  ghost predicate DocsBuilt(docs: map<JobId, Doc>) {
    forall j :: j in docs ==> DistinctBlobs(docs[j].slots) && (docs[j].final.Some? ==> WellBuilt(j, docs[j].final.value))
  }

  ghost predicate Once(s: World) {
    ProcsOnce(s) && Emitted(s) && DocsBuilt(s.docs)
  }

  ghost predicate ReportingStep(e: Event) {
    e.RecordSlot? || e.Finalize? || e.PutSbom? || e.PutReport? || e.EmitCompleted?
  }

  ghost predicate SameReports(s: World, t: World) {
    t.docs == s.docs && t.sboms == s.sboms && t.reports == s.reports && t.completions == s.completions && t.winner == s.winner
  }

  lemma EarlyLeaveReports(s: World, e: Event)
    requires Enabled(s, e) && EarlyStep(e)
    ensures SameReports(s, Next(s, e))
  {
  }

  /** Everything but the reporting steps leaves documents and artifacts alone. */
  lemma OthersLeaveReports(s: World, e: Event)
    requires Enabled(s, e) && !ReportingStep(e)
    ensures SameReports(s, Next(s, e))
  {
    if EarlyStep(e) {
      EarlyLeaveReports(s, e);
    }
  }

  /** Once COMPLETE, a document's report never changes. */
  lemma FinalKept(s: World, e: Event, j: JobId)
    requires Enabled(s, e) && FinalOf(s, j).Some?
    ensures FinalOf(Next(s, e), j) == FinalOf(s, j)
  {
    if !ReportingStep(e) {
      OthersLeaveReports(s, e);
    }
  }

  lemma OnceOther(s: World, e: Event)
    requires Once(s) && Enabled(s, e) && !ReportingStep(e)
    ensures Once(Next(s, e))
  {
    OthersLeaveReports(s, e);
    var t := Next(s, e);
    forall v | v in t.procs
      ensures ProcOnce(t, v, t.procs[v])
    {
      OnceOtherProc(s, e, v);
    }
  }

  lemma OnceOtherProc(s: World, e: Event, v: Worker)
    requires Once(s) && Enabled(s, e) && !ReportingStep(e) && v in Next(s, e).procs
    ensures ProcOnce(Next(s, e), v, Next(s, e).procs[v])
  {
    if e.Triage? || e.ExpireClaim? || v != e.w {
      OnlyActorMoves(s, e, v);
      OthersLeaveReports(s, e);
      SameReportsSameProc(s, Next(s, e), v, s.procs[v]);
    } else {
      ActorHoldsNoReport(s, e);
    }
  }

  lemma SameReportsSameProc(s: World, t: World, v: Worker, p: Proc)
    requires SameReports(s, t) && ProcOnce(s, v, p)
    ensures ProcOnce(t, v, p)
  {
  }

  lemma ActorHoldsNoReport(s: World, e: Event)
    requires Once(s) && Enabled(s, e) && !ReportingStep(e) && !e.Triage? && !e.ExpireClaim?
    ensures var p := ProcOf(Next(s, e), e.w);
      && !p.Won? && !p.SbomPut? && !p.ReportPut?
      && (p.Listing? ==> DistinctBlobs(p.slots)) && (p.Assembled? ==> WellBuilt(p.job, p.report))
  {
    if e.ReadPartial? {
      assert Once(s);
    } else if e.ListFragments? {
      assert ProcOnce(s, e.w, ProcOf(s, e.w));
    } else {
      ActorStaysEarly(s, e);
    }
  }

  lemma ActorStaysEarly(s: World, e: Event)
    requires Enabled(s, e) && !ReportingStep(e) && !e.Triage? && !e.ExpireClaim? && !e.ReadPartial? && !e.ListFragments?
    ensures var p := ProcOf(Next(s, e), e.w);
      !p.Listing? && !p.Assembled? && !p.Won? && !p.SbomPut? && !p.ReportPut?
  {
  }

  lemma OnceRecord(s: World, w: Worker)
    requires Once(s) && ProcOf(s, w).Recording?
    ensures Once(DoRecordSlot(s, w))
  {
    var p := ProcOf(s, w);
    RecordSetsOneSlot(DocOf(s, p.job).slots, p.blob, p.matches);
    var t := DoRecordSlot(s, w);
    assert forall j :: FinalOf(t, j) == FinalOf(s, j);
  }

  lemma OnceFinalizeProcs(s: World, w: Worker)
    requires ProcsOnce(s) && ProcOf(s, w).Assembled?
    requires forall j :: j in s.completions ==> FinalOf(s, j).Some?
    ensures ProcsOnce(DoFinalize(s, w))
  {
    var p := ProcOf(s, w);
    var t := DoFinalize(s, w);
    forall v | v in t.procs
      ensures ProcOnce(t, v, t.procs[v])
    {
      if v != w {
        OnlyActorMoves(s, Finalize(w), v);
        assert ProcOnce(s, v, s.procs[v]);
      }
    }
  }

  lemma OnceFinalize(s: World, w: Worker)
    requires Once(s) && ProcOf(s, w).Assembled?
    ensures Once(DoFinalize(s, w))
  {
    OnceFinalizeProcs(s, w);
    FinalizeKeepsEmitted(s, w);
    FinalizeKeepsDocs(s, w);
  }

  lemma FinalizeKeepsBacking(s: World, w: Worker, j: JobId)
    requires ProcOf(s, w).Assembled? && FinalOf(s, j).Some?
    ensures FinalOf(DoFinalize(s, w), j) == FinalOf(s, j)
    ensures Backing(s, j) ==> Backing(DoFinalize(s, w), j)
  {
  }

  lemma FinalizeKeepsEmitted(s: World, w: Worker)
    requires Emitted(s) && ProcOf(s, w).Assembled?
    ensures Emitted(DoFinalize(s, w))
  {
    var t := DoFinalize(s, w);
    forall j | j in t.completions
      ensures Backing(t, j)
    {
      FinalizeKeepsBacking(s, w, j);
    }
    forall j | j in t.winner
      ensures FinalOf(t, j).Some?
    {
      if j in s.winner {
        FinalizeKeepsBacking(s, w, j);
      }
    }
  }

  lemma FinalizeKeepsDocs(s: World, w: Worker)
    requires DocsBuilt(s.docs) && ProcOnce(s, w, ProcOf(s, w)) && ProcOf(s, w).Assembled?
    ensures DocsBuilt(DoFinalize(s, w).docs)
  {
  }

  lemma OncePutSbom(s: World, w: Worker)
    requires Once(s) && ProcOf(s, w).Won?
    ensures Once(DoPutSbom(s, w))
  {
  }

  lemma PutReportKeepsProc(s: World, w: Worker, v: Worker)
    requires Once(s) && ProcOf(s, w).SbomPut? && v in DoPutReport(s, w).procs
    ensures ProcOnce(DoPutReport(s, w), v, DoPutReport(s, w).procs[v])
  {
    assert ProcOnce(s, w, s.procs[w]);
    if v != w {
      assert ProcOnce(s, v, s.procs[v]);
    }
  }

  lemma PutReportKeepsEmitted(s: World, w: Worker)
    requires Emitted(s) && ProcOf(s, w).SbomPut? && ProcOnce(s, w, ProcOf(s, w))
    ensures Emitted(DoPutReport(s, w))
  {
    forall j | j in s.completions
      ensures Backing(DoPutReport(s, w), j)
    {
      assert Backing(s, j);
    }
  }

  lemma OncePutReport(s: World, w: Worker)
    requires Once(s) && ProcOf(s, w).SbomPut?
    ensures Once(DoPutReport(s, w))
  {
    assert ProcOnce(s, w, s.procs[w]);
    PutReportKeepsEmitted(s, w);
    forall v | v in DoPutReport(s, w).procs
      ensures ProcOnce(DoPutReport(s, w), v, DoPutReport(s, w).procs[v])
    {
      PutReportKeepsProc(s, w, v);
    }
  }

  lemma OnceEmit(s: World, w: Worker)
    requires Once(s) && ProcOf(s, w).ReportPut?
    ensures Once(DoEmitCompleted(s, w))
  {
  }

  lemma {:induction false} OnceHolds(r: Run)
    requires Legal(r)
    ensures Once(End(r))
  {
    if r.Then? {
      OnceHolds(r.before);
      var s, e := End(r.before), r.event;
      if !ReportingStep(e) {
        OnceOther(s, e);
      } else if e.RecordSlot? {
        OnceRecord(s, e.w);
      } else if e.Finalize? {
        OnceFinalize(s, e.w);
      } else if e.PutSbom? {
        OncePutSbom(s, e.w);
      } else if e.PutReport? {
        OncePutReport(s, e.w);
      } else {
        OnceEmit(s, e.w);
      }
    }
  }

  // ---- theorems -------------------------------------------------------------------

  /** At most one `firmware.completed` per job, and when there is one both artifacts
  are stored and agree with the finalized document. */
  lemma AtMostOneCompletion(r: Run)
    requires Legal(r)
    ensures var s := End(r);
      && (forall i, k :: 0 <= i < k < |s.completions| ==> s.completions[i] != s.completions[k])
      && forall j :: j in s.completions ==>
           FinalOf(s, j).Some?
           && j in s.sboms && s.sboms[j] == FinalOf(s, j).value.components
           && j in s.reports && s.reports[j] == FinalOf(s, j).value
  {
    OnceHolds(r);
  }

  lemma {:induction false} PrefixLegal(prefix: Run, r: Run)
    requires Legal(r) && Extends(r, prefix)
    ensures Legal(prefix)
  {
    if r != prefix {
      PrefixLegal(prefix, r.before);
    }
  }

  lemma EmittedStays(s: World, e: Event, j: JobId)
    requires Enabled(s, e) && j in s.completions
    ensures j in Next(s, e).completions
  {
    if !ReportingStep(e) {
      OthersLeaveReports(s, e);
    }
  }

  lemma {:induction false} FinalAndEmittedStay(prefix: Run, r: Run, j: JobId)
    requires Legal(r) && Extends(r, prefix)
    ensures FinalOf(End(prefix), j).Some? ==> FinalOf(End(r), j) == FinalOf(End(prefix), j)
    ensures j in End(prefix).completions ==> j in End(r).completions
  {
    if r != prefix {
      FinalAndEmittedStay(prefix, r.before, j);
      if FinalOf(End(r.before), j).Some? {
        FinalKept(End(r.before), r.event, j);
      }
      if j in End(r.before).completions {
        EmittedStays(End(r.before), r.event, j);
      }
    }
  }

  /** A finalized report (its findings, statistics and components) survives every
  later step, and so do the artifacts of an emitted completion. */
  lemma CompletionIsPermanent(prefix: Run, r: Run, j: JobId)
    requires Legal(r) && Extends(r, prefix)
    ensures FinalOf(End(prefix), j).Some? ==> FinalOf(End(r), j) == FinalOf(End(prefix), j)
    ensures j in End(prefix).completions ==>
              && j in End(r).completions
              && j in End(prefix).sboms && j in End(r).sboms && End(r).sboms[j] == End(prefix).sboms[j]
              && j in End(prefix).reports && j in End(r).reports && End(r).reports[j] == End(prefix).reports[j]
  {
    FinalAndEmittedStay(prefix, r, j);
    PrefixLegal(prefix, r);
    OnceHolds(prefix);
    OnceHolds(r);
  }

  /** A finalized report is built from distinct slots: each sub-blob it saw counts
  exactly once, in order, and the tiers add up to the number of findings. */
  lemma FinalizedFindings(r: Run, j: JobId, blob: BlobId)
    requires Legal(r) && FinalOf(End(r), j).Some?
    ensures var report := FinalOf(End(r), j).value;
      && report.findings == Flatten(report.seen) && DistinctBlobs(report.seen)
      && report.byTier == TierCount(report.findings)
      && |report.findings| == Earlier(report.seen, |report.seen|)
      && ShownAs(OfBlob(report.findings, blob), blob, MatchesOf(report.seen, blob))
      && (!Recorded(report.seen, blob) ==> OfBlob(report.findings, blob) == [])
      && SumTiers(report.byTier) == |report.findings|
  {
    OnceHolds(r);
    var report := FinalOf(End(r), j).value;
    FlattenCountsEachBlobOnce(report.seen, blob);
    FlattenLength(report.seen);
    TierCountsSum(report.findings);
  }
}
