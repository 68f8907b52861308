/** What the winner of a finalize had read, in terms of the states it read from: for every
run, whatever happens to the claims. */
module ProtocolReads {
  import opened Firmware
  import opened Report
  import opened Protocol
  import opened ProtocolSafety
  import opened ProtocolOnce

  /** The run up to the last time `w` read the partial document. */
  ghost function LastRead(r: Run, w: Worker): Run {
    match r
    case Empty => Empty
    case Then(before, event) => if event == ReadPartial(w) then before else LastRead(before, w)
  }

  /** The run up to the last time `w` listed the fragments. */
  ghost function LastListing(r: Run, w: Worker): Run {
    match r
    case Empty => Empty
    case Then(before, event) => if event.ListFragments? && event.w == w then before else LastListing(before, w)
  }

  /** The run up to and with the step that finalized `j`. */
  ghost function Finalizing(r: Run, j: JobId): (f: Run)
    requires FinalOf(End(r), j).Some?
    ensures Extends(r, f) && f.Then? && FinalOf(End(f), j).Some? && FinalOf(End(f.before), j).None?
  {
    match r
    case Then(before, event) => if FinalOf(End(before), j).Some? then Finalizing(before, j) else r
  }

  /** The slots of the job's document just before the winner read it. */
  ghost function SlotsRead(r: Run, j: JobId): seq<Slot>
    requires FinalOf(End(r), j).Some?
  {
    var f := Finalizing(r, j);
    if f.event.Finalize? then DocOf(End(LastRead(f, f.event.w)), j).slots else []
  }

  /** The stored fragments just before the winner listed them. */
  ghost function FragmentsListed(r: Run, j: JobId): map<FragmentKey, seq<Component>>
    requires FinalOf(End(r), j).Some?
  {
    var f := Finalizing(r, j);
    if f.event.Finalize? then End(LastListing(f, f.event.w)).fragments else map[]
  }

  ghost predicate ReadFrom(r: Run, w: Worker, p: Proc) {
    match p
    case Listing(j, full, slots) =>
      && ProcOf(End(LastRead(r, w)), w) == Reading(j, full)
      && slots == DocOf(End(LastRead(r, w)), j).slots
    case Assembled(j, report) =>
      && ProcOf(End(LastRead(r, w)), w) == Reading(j, report.full)
      && ProcOf(End(LastListing(r, w)), w) == Listing(j, report.full, report.seen)
      && report == Assemble(j, DocOf(End(LastRead(r, w)), j).slots, report.components, report.full)
      && forall c :: c in report.components <==> InFragments(End(LastListing(r, w)).fragments, j, c)
    case _ => true
  }

  lemma ReadPartialReads(r: Run, w: Worker)
    requires ProcOf(End(r), w).Reading?
    ensures ReadFrom(Then(r, ReadPartial(w)), w, ProcOf(DoReadPartial(End(r), w), w))
  {
  }

  lemma ListFragmentsReads(r: Run, w: Worker, order: seq<BlobId>)
    requires ProcOf(End(r), w).Listing? && IsListing(End(r).fragments, ProcOf(End(r), w).job, order)
    requires ReadFrom(r, w, ProcOf(End(r), w))
    ensures ReadFrom(Then(r, ListFragments(w, order)), w, ProcOf(DoListFragments(End(r), w, order), w))
  {
    ListedComponents(End(r).fragments, ProcOf(End(r), w).job, order);
  }

  lemma OtherReportingStarts(s: World, e: Event)
    requires Enabled(s, e) && ReportingStep(e)
    ensures var p := ProcOf(Next(s, e), e.w); !p.Listing? && !p.Assembled?
  {
  }

  lemma ActorReads(r: Run, e: Event)
    requires Enabled(End(r), e) && !e.Triage? && !e.ExpireClaim?
    requires ReadFrom(r, e.w, ProcOf(End(r), e.w))
    ensures ReadFrom(Then(r, e), e.w, ProcOf(Next(End(r), e), e.w))
  {
    if e.ReadPartial? {
      ReadPartialReads(r, e.w);
    } else if e.ListFragments? {
      ListFragmentsReads(r, e.w, e.order);
    } else if ReportingStep(e) {
      OtherReportingStarts(End(r), e);
    } else {
      ActorStaysEarly(End(r), e);
    }
  }

  lemma {:induction false} EveryoneReads(r: Run, w: Worker)
    requires Legal(r)
    ensures ReadFrom(r, w, ProcOf(End(r), w))
  {
    if r.Then? {
      var s, e := End(r.before), r.event;
      EveryoneReads(r.before, w);
      if e.Triage? || e.ExpireClaim? || e.w != w {
        OnlyActorMoves(s, e, w);
        assert LastRead(r, w) == LastRead(r.before, w) && LastListing(r, w) == LastListing(r.before, w);
      } else {
        ActorReads(r.before, e);
      }
    }
  }

  lemma OnlyFinalizeFinalizes(s: World, e: Event, j: JobId)
    requires Enabled(s, e) && FinalOf(s, j).None? && FinalOf(Next(s, e), j).Some?
    ensures e.Finalize? && ProcOf(s, e.w).Assembled? && ProcOf(s, e.w).job == j
    ensures FinalOf(Next(s, e), j).value == ProcOf(s, e.w).report
  {
    if !ReportingStep(e) {
      OthersLeaveReports(s, e);
    }
  }

  /** The states those functions look at are the winner's own, reading and listing this job. */
  ghost predicate WinnerWas(r: Run, j: JobId, report: ReportDoc)
    requires FinalOf(End(r), j).Some?
  {
    var f := Finalizing(r, j);
    && f.event.Finalize?
    && ProcOf(End(LastRead(f, f.event.w)), f.event.w) == Reading(j, report.full)
    && ProcOf(End(LastListing(f, f.event.w)), f.event.w) == Listing(j, report.full, report.seen)
  }

  /** A finalized report flattens the slots that the job's document had when the winner
  read it, and lists the components of the fragments that were stored when the winner
  listed them. */
  lemma FinalReportReads(r: Run, j: JobId)
    requires Legal(r) && FinalOf(End(r), j).Some?
    ensures var report := FinalOf(End(r), j).value;
      && WinnerWas(r, j, report)
      && report == Assemble(j, SlotsRead(r, j), report.components, report.full)
      && forall c :: c in report.components <==> InFragments(FragmentsListed(r, j), j, c)
  {
    var f := Finalizing(r, j);
    PrefixLegal(f, r);
    OnlyFinalizeFinalizes(End(f.before), f.event, j);
    EveryoneReads(f.before, f.event.w);
    FinalAndEmittedStay(f, r, j);
    assert LastRead(f, f.event.w) == LastRead(f.before, f.event.w);
    assert LastListing(f, f.event.w) == LastListing(f.before, f.event.w);
  }

  // ---- earlier states ---------------------------------------------------------------

  lemma {:induction false} LastListingIsBefore(r: Run, w: Worker)
    ensures Extends(r, LastListing(r, w))
  {
    if r.Then? && !(r.event.ListFragments? && r.event.w == w) {
      LastListingIsBefore(r.before, w);
    }
  }

  lemma {:induction false} ExtendsThrough(a: Run, b: Run, c: Run)
    requires Extends(a, b) && Extends(b, c)
    ensures Extends(a, c)
  {
    if a != b {
      ExtendsThrough(a.before, b, c);
    }
  }

  /** What is stored stays stored, as it was. */
  lemma {:induction false} FragmentsGrow(prefix: Run, r: Run)
    requires Legal(r) && Prompt(r) && Extends(r, prefix)
    ensures MapGrows(End(prefix).fragments, End(r).fragments)
  {
    if r != prefix {
      FragmentsGrow(prefix, r.before);
      InvHolds(r.before);
      GrowsStep(End(r.before), r.event);
    }
  }

  lemma ListedFragmentsStay(r: Run, j: JobId)
    requires Legal(r) && Prompt(r) && FinalOf(End(r), j).Some?
    ensures MapGrows(FragmentsListed(r, j), End(r).fragments)
  {
    var f := Finalizing(r, j);
    if f.event.Finalize? {
      LastListingIsBefore(f, f.event.w);
      ExtendsThrough(r, f, LastListing(f, f.event.w));
      FragmentsGrow(LastListing(f, f.event.w), r);
    }
  }

  ghost predicate Sourced(fragments: map<FragmentKey, seq<Component>>) {
    forall f, c :: f in fragments && c in fragments[f] ==> c.source == f.blob
  }

  lemma OnlyStoringWritesFragments(s: World, e: Event)
    requires Enabled(s, e) && !e.StoreFragment?
    ensures Next(s, e).fragments == s.fragments
  {
    if EarlyStep(e) {
      EarlyStepsLeaveFragments(s, e);
    }
  }

  lemma EarlyStepsLeaveFragments(s: World, e: Event)
    requires Enabled(s, e) && EarlyStep(e)
    ensures Next(s, e).fragments == s.fragments
  {
  }

  /** A fragment's components name the sub-blob they were found in. */
  lemma {:induction false} FragmentsSourced(r: Run)
    requires Legal(r)
    ensures Sourced(End(r).fragments)
  {
    if r.Then? {
      FragmentsSourced(r.before);
      if !r.event.StoreFragment? {
        OnlyStoringWritesFragments(End(r.before), r.event);
      }
    }
  }
}
