/** One router process running the stage handlers, message after message. The ghost
`history` says that what the handlers do is a run of the protocol machine; the
theorems about runs therefore speak about this program. */
module Router {
  import opened Collections
  import opened Firmware
  import opened Report
  import opened Protocol
  import opened ProtocolSafety
  import opened ProtocolOnce
  import opened ProtocolTheorems
  import opened Stores
  import opened Unpack

  /** What the extractor, the matcher and its models answer for one message. */
  datatype Answers = Answers(children: seq<BlobId>, rejects: bool, components: seq<Component>, matches: seq<CveMatch>)

  /** One `firmware.extracted` per child. */
  ghost function Announced(job: JobId, children: seq<BlobId>): set<Message> {
    set b | b in children :: ExtractedMsg(job, b)
  }

  ghost predicate TotalUp(before: map<JobId, nat>, after: map<JobId, nat>, job: JobId, n: nat) {
    forall j :: Get(after, j, 0) == Get(before, j, 0) + (if j == job then n else 0)
  }

  ghost predicate CountedUp(before: map<JobId, set<BlobId>>, after: map<JobId, set<BlobId>>, job: JobId, more: set<BlobId>) {
    forall j :: BlobsOf(after, j) == BlobsOf(before, j) + (if j == job then more else {})
  }

  /** The older objects stay as they were, and these are filed under this job. */
  ghost predicate UploadsUp(before: map<BlobId, JobId>, after: map<BlobId, JobId>, job: JobId, more: set<BlobId>) {
    && after.Keys == before.Keys + more
    && forall b :: b in after ==> after[b] == if b in more then job else before[b]
  }

  ghost predicate OnlyFanOutFields(s: World, t: World) {
    t == s.(procs := t.procs, uploads := t.uploads, total := t.total, counted := t.counted, sent := t.sent)
  }

  lemma OnlyFanOutFieldsMore(s: World, t: World, u: World)
    requires OnlyFanOutFields(s, t) && OnlyFanOutFields(t, u)
    ensures OnlyFanOutFields(s, u)
  {
  }

  /** Fanning out stored, counted and announced exactly these children of this job, and
  did nothing else. */
  ghost predicate FannedOut(s: World, t: World, job: JobId, children: seq<BlobId>) {
    && OnlyFanOutFields(s, t)
    && UploadsUp(s.uploads, t.uploads, job, Elements(children))
    && TotalUp(s.total, t.total, job, |children|)
    && CountedUp(s.counted, t.counted, job, Elements(children))
    && t.sent == s.sent + Announced(job, children)
  }

  lemma FannedOutNone(s: World, job: JobId)
    ensures FannedOut(s, s, job, [])
  {
  }

  lemma NotYetUploaded(s: World, t: World, job: JobId, children: seq<BlobId>, i: nat)
    requires i < |children| && FannedOut(s, t, job, children[..i])
    requires Distinct(children) && forall c :: c in children ==> c !in s.uploads
    ensures children[i] !in t.uploads
  {
  }

  lemma TotalUpMore(before: map<JobId, nat>, after: map<JobId, nat>, last: map<JobId, nat>, job: JobId, n: nat, m: nat)
    requires TotalUp(before, after, job, n) && last == Incr(after, job) && m == n + 1
    ensures TotalUp(before, last, job, m)
  {
    forall j
      ensures Get(last, j, 0) == Get(before, j, 0) + (if j == job then m else 0)
    {
      assert Get(after, j, 0) == Get(before, j, 0) + (if j == job then n else 0);
    }
  }

  lemma CountedUpMore(before: map<JobId, set<BlobId>>, after: map<JobId, set<BlobId>>, last: map<JobId, set<BlobId>>,
                      job: JobId, done: set<BlobId>, b: BlobId, more: set<BlobId>)
    requires CountedUp(before, after, job, done) && last == Insert(after, job, b) && more == done + {b}
    ensures CountedUp(before, last, job, more)
  {
    forall j
      ensures BlobsOf(last, j) == BlobsOf(before, j) + (if j == job then more else {})
    {
      assert BlobsOf(after, j) == BlobsOf(before, j) + (if j == job then done else {});
    }
  }

  lemma UploadsUpMore(before: map<BlobId, JobId>, after: map<BlobId, JobId>, last: map<BlobId, JobId>,
                      job: JobId, done: set<BlobId>, b: BlobId, more: set<BlobId>)
    requires UploadsUp(before, after, job, done) && last == after[b := job] && more == done + {b}
    ensures UploadsUp(before, last, job, more)
  {
  }

  lemma UnionMore<T>(a: set<T>, b: set<T>, c: set<T>, d: set<T>, e: set<T>, x: T)
    requires b == a + c && e == b + {x} && d == c + {x}
    ensures e == a + d
  {
  }

  lemma ElementsAppend(done: seq<BlobId>, b: BlobId)
    ensures Elements(done + [b]) == Elements(done) + {b}
  {
  }

  lemma AnnouncedAppend(job: JobId, done: seq<BlobId>, b: BlobId)
    ensures Announced(job, done + [b]) == Announced(job, done) + {ExtractedMsg(job, b)}
  {
  }

  lemma FannedOutMore(s: World, t: World, u: World, job: JobId, done: seq<BlobId>, b: BlobId, more: seq<BlobId>)
    requires FannedOut(s, t, job, done) && more == done + [b]
    requires OnlyFanOutFields(t, u) && u.uploads == t.uploads[b := job] && u.total == Incr(t.total, job)
    requires u.counted == Insert(t.counted, job, b) && u.sent == t.sent + {ExtractedMsg(job, b)}
    ensures FannedOut(s, u, job, more)
  {
    ElementsAppend(done, b);
    AnnouncedAppend(job, done, b);
    OnlyFanOutFieldsMore(s, t, u);
    TotalUpMore(s.total, t.total, u.total, job, |done|, |more|);
    CountedUpMore(s.counted, t.counted, u.counted, job, Elements(done), b, Elements(more));
    UploadsUpMore(s.uploads, t.uploads, u.uploads, job, Elements(done), b, Elements(more));
    UnionMore(s.sent, t.sent, Announced(job, done), Announced(job, more), u.sent, ExtractedMsg(job, b));
  }

  function NamesOf<F>(emitted: seq<SubBlob<F>>, name: nat -> BlobId): seq<BlobId> {
    seq(|emitted|, i requires 0 <= i < |emitted| => name(emitted[i].id))
  }

  lemma NamesDistinct<F>(emitted: seq<SubBlob<F>>, name: nat -> BlobId, high: nat)
    requires Increasing(emitted, 0, high) && forall i, k :: i != k ==> name(i) != name(k)
    ensures Distinct(NamesOf(emitted, name))
    ensures forall b :: b in NamesOf(emitted, name) ==> exists i :: b == name(i)
  {
    var names := NamesOf(emitted, name);
    forall b | b in names
      ensures exists i :: b == name(i)
    {
      var k :| 0 <= k < |names| && names[k] == b;
      assert b == name(emitted[k].id);
    }
  }

  predicate NoRepeats(s: seq<BlobId>)
    ensures NoRepeats(s) <==> Distinct(s)
  {
    s == [] || (NoRepeats(s[..|s| - 1]) && s[|s| - 1] !in s[..|s| - 1])
  }

  /** What the consumer loop meets. */
  datatype Poll = Submitted(job: JobId) | Lapses(key: ClaimKey) | Polled(m: Message, answers: Answers)

  ghost predicate LapsedBy(polled: seq<Poll>, i: nat, key: ClaimKey)
    requires i <= |polled|
  {
    exists k :: 0 <= k < i && polled[k] == Lapses(key)
  }

  /** No message comes again after its claim ran out, unless it is a `firmware.matched`. */
  ghost predicate NoneLate(polled: seq<Poll>) {
    forall i, k :: 0 <= i < k < |polled| && polled[i].Lapses? && polled[k].Polled? && !polled[k].m.MatchedMsg? ==>
      polled[i].key != KeyOf(polled[k].m)
  }

  /** Unpacking fanned out these children, then set the marker or rejected the job. */
  ghost predicate Unpacked(s: World, t: World, job: JobId, children: seq<BlobId>, rejects: bool) {
    && FannedOut(s, t.(marker := s.marker, rejected := s.rejected), job, children)
    && t.marker == s.marker + (if rejects then {} else {job})
    && t.rejected == s.rejected + (if rejects then {job} else {})
  }

  ghost predicate OnlyReportFields(s: World, t: World) {
    t == s.(procs := t.procs, docs := t.docs, sboms := t.sboms, reports := t.reports, completions := t.completions, winner := t.winner)
  }

  lemma OnlyReportFieldsMore(s: World, t: World, u: World)
    requires OnlyReportFields(s, t) && OnlyReportFields(t, u)
    ensures OnlyReportFields(s, u)
  {
  }

  ghost predicate GateOpen(s: World, job: JobId) {
    job in s.total && job in s.marker && GatePasses(s.total[job], Get(s.matched, job, 0))
  }

  /** Past an open gate the job was finalized and announced, if nobody had; otherwise nothing
  happened. */
  ghost predicate Completed(s: World, t: World, job: JobId, completed: bool) {
    && OnlyReportFields(s, t)
    && (completed <==> GateOpen(s, job) && FinalOf(s, job).None?)
    && t.completions == s.completions + (if completed then [job] else [])
    && DocOf(t, job).slots == DocOf(s, job).slots
    && (completed ==> FinalOf(t, job).Some? && FinalOf(t, job).value.findings == Flatten(DocOf(t, job).slots))
    && (!completed ==> FinalOf(t, job) == FinalOf(s, job))
  }

  lemma NotCompleted(s: World, t: World, job: JobId)
    requires t == s.(procs := t.procs) && !GateOpen(s, job)
    ensures Completed(s, t, job, false)
  {
  }

  /** From a gate that was found open: finishing the job completes it unless it is final. */
  lemma FinishedIsCompleted(s: World, t: World, u: World, job: JobId, completed: bool)
    requires t == s.(procs := t.procs) && GateOpen(s, job) && OnlyReportFields(t, u)
    requires completed <==> FinalOf(t, job).None?
    requires u.completions == t.completions + (if completed then [job] else [])
    requires DocOf(u, job).slots == DocOf(t, job).slots && FinalOf(u, job).Some?
    requires completed ==> FinalOf(u, job).value.findings == Flatten(DocOf(u, job).slots)
    requires !completed ==> FinalOf(u, job) == FinalOf(t, job)
    ensures Completed(s, u, job, completed)
  {
  }

  lemma RecordedThenCompleted(s: World, t: World, u: World, job: JobId, blob: BlobId, matches: seq<CveMatch>, completed: bool)
    requires t == s.(procs := t.procs, docs := t.docs)
    requires DocOf(t, job) == DocOf(s, job).(slots := Record(DocOf(s, job).slots, blob, matches))
    requires Completed(t, u, job, completed)
    ensures Aggregated(s, u, job, blob, matches, completed)
  {
    OnlyReportFieldsMore(s, t, u);
  }

  /** Aggregating recorded the slot and, past an open gate, finalized once and announced. */
  ghost predicate Aggregated(s: World, t: World, job: JobId, blob: BlobId, matches: seq<CveMatch>, completed: bool) {
    && OnlyReportFields(s, t)
    && (completed <==> GateOpen(s, job) && FinalOf(s, job).None?)
    && t.completions == s.completions + (if completed then [job] else [])
    && DocOf(t, job).slots == Record(DocOf(s, job).slots, blob, matches)
    && (completed ==> FinalOf(t, job).Some? && FinalOf(t, job).value.findings == Flatten(DocOf(t, job).slots))
    && (!completed ==> FinalOf(t, job) == FinalOf(s, job))
  }

  /** The effect of the handler for a message that was just claimed. */
  ghost predicate Handled(s: World, t: World, w: Worker, m: Message, answers: Answers) {
    match m
    case TriagedMsg(job) => Unpacked(s, t, job, answers.children, answers.rejects)
    case ExtractedMsg(job, blob) =>
      ProcOf(s, w) == Analyzing(job, blob) && t == DoEmitAnalyzed(DoCountAnalyzed(s, w), w)
    case AnalyzedMsg(job, blob) =>
      && ProcOf(s, w) == Matching(job, blob)
      && t == DoEmitMatched(DoCountMatched(DoStoreFragment(s, w, answers.components, answers.matches), w), w)
    case MatchedMsg(job, blob, matches) =>
      Aggregated(s, t, job, blob, matches, true) || Aggregated(s, t, job, blob, matches, false)
  }

  class Router {
    const id: Worker
    const redis: Redis
    const store: ReportStore
    const artifacts: ArtifactStore
    const blobs: BlobStore
    const broker: Broker
    ghost var procs: map<Worker, Proc>
    ghost var history: Run

    constructor (id: Worker)
      ensures this.id == id && Valid() && OnTime() && Now().Idle? && State() == INIT
      ensures fresh(redis) && fresh(store) && fresh(artifacts) && fresh(blobs) && fresh(broker)
    {
      this.id := id;
      redis := new Redis();
      store := new ReportStore();
      artifacts := new ArtifactStore();
      blobs := new BlobStore();
      broker := new Broker();
      procs, history := map[], Empty;
    }

    /** The stores as a state of the machine. */
    ghost function State(): World
      reads this, redis, store, artifacts, blobs, broker
    {
      World(broker.sent, redis.claims, redis.total, redis.completed, redis.matched, redis.marker, blobs.uploads,
            artifacts.fragments, store.docs, artifacts.sboms, artifacts.reports, broker.completions, broker.rejected,
            procs, redis.owners, redis.results, redis.counted, redis.analysed, redis.scored, store.winner)
    }

    ghost function Now(): Proc
      reads this
    {
      Get(procs, id, Idle)
    }

    /** Everything done so far is a legal run by this worker. */
    ghost predicate Valid()
      reads this, redis, store, artifacts, blobs, broker
    {
      && Legal(history) && OneWorker(history, id)
      && State() == End(history)
    }

    /** No redelivery so far came to anybody's harm. */
    ghost predicate OnTime()
      reads this
    {
      Prompt(history)
    }

    /** Note that the store access just made is the given step. */
    ghost method Log(e: Event)
      requires Legal(history) && OneWorker(history, id)
      requires e.Triage? || e.ExpireClaim? || e.w == id
      requires Enabled(End(history), e)
      requires State().(procs := Next(End(history), e).procs) == Next(End(history), e)
      modifies this`procs, this`history
      ensures Valid() && history == Then(old(history), e)
      ensures OnTime() <==> old(OnTime() && PromptStep(End(history), e))
    {
      procs := Next(End(history), e).procs;
      history := Then(history, e);
    }

    ghost function Stores(): set<object> {
      {this, redis, store, artifacts, blobs, broker}
    }

    // ---- unpack -----------------------------------------------------------------

    method PutChild(job: JobId, blob: BlobId)
      requires Valid() && Now() == Unpacking(job) && blob !in blobs.uploads
      modifies Stores()
      ensures Valid() && (old(OnTime()) ==> OnTime()) && State() == DoUpload(old(State()), id, blob)
    {
      blobs.PutBytes(job, blob);
      Log(Upload(id, blob));
    }

    method IncrChildren(job: JobId, blob: BlobId)
      requires Valid() && Now() == Uploaded(job, blob)
      modifies Stores()
      ensures Valid() && (old(OnTime()) ==> OnTime()) && State() == DoCountChild(old(State()), id)
    {
      redis.IncrTotal(job, blob);
      Log(CountChild(id));
    }

    method AnnounceChild(job: JobId, blob: BlobId)
      requires Valid() && Now() == ChildCounted(job, blob)
      modifies Stores()
      ensures Valid() && (old(OnTime()) ==> OnTime()) && State() == DoEmitExtracted(old(State()), id)
    {
      broker.Emit(ExtractedMsg(job, blob));
      Log(EmitExtracted(id));
    }

    /** Upload one child, count it, announce it. */
    method FanOut(job: JobId, blob: BlobId)
      requires Valid() && Now() == Unpacking(job) && blob !in blobs.uploads
      modifies Stores()
      ensures Valid() && (old(OnTime()) ==> OnTime()) && Now() == Unpacking(job)
      ensures var s := old(State());
        State() == s.(procs := procs, uploads := s.uploads[blob := job], total := Incr(s.total, job),
                      counted := Insert(s.counted, job, blob), sent := s.sent + {ExtractedMsg(job, blob)})
    {
      PutChild(job, blob);
      IncrChildren(job, blob);
      AnnounceChild(job, blob);
    }

    method FanOutNext(job: JobId, children: seq<BlobId>, i: nat, ghost start: World)
      requires Valid() && Now() == Unpacking(job) && i < |children|
      requires FannedOut(start, State(), job, children[..i]) && children[i] !in blobs.uploads
      modifies Stores()
      ensures Valid() && (old(OnTime()) ==> OnTime()) && Now() == Unpacking(job)
      ensures FannedOut(start, State(), job, children[..i + 1])
    {
      ghost var before := State();
      FanOut(job, children[i]);
      FannedOutMore(start, before, State(), job, children[..i], children[i], children[..i + 1]);
    }

    /** The extractor's loop: fan out every child it yields. */
    method FanOutAll(job: JobId, children: seq<BlobId>)
      requires Valid() && Now() == Unpacking(job)
      requires Distinct(children) && forall c :: c in children ==> c !in blobs.uploads
      modifies Stores()
      ensures Valid() && (old(OnTime()) ==> OnTime()) && Now() == Unpacking(job)
      ensures FannedOut(old(State()), State(), job, children)
    {
      FannedOutNone(State(), job);
      for i := 0 to |children|
        invariant Valid() && (old(OnTime()) ==> OnTime()) && Now() == Unpacking(job)
        invariant FannedOut(old(State()), State(), job, children[..i])
      {
        NotYetUploaded(old(State()), State(), job, children, i);
        FanOutNext(job, children, i, old(State()));
      }
      assert children[..|children|] == children;
    }

    /** Fan out the children the extractor yields; then set the marker or, when a
    defence tripped after them, reject the job. */
    method HandleUnpack(job: JobId, children: seq<BlobId>, rejects: bool)
      requires Valid() && Now() == Unpacking(job)
      requires Distinct(children) && forall c :: c in children ==> c !in blobs.uploads
      modifies Stores()
      ensures Valid() && (old(OnTime()) ==> OnTime()) && Now() == Idle
      ensures Unpacked(old(State()), State(), job, children, rejects)
    {
      FanOutAll(job, children);
      EndUnpack(job, rejects);
    }

    /** The handler with the walk behind it: the job's marker is set exactly when its image
    unpacks within the bounds, and then every leaf of the image was fanned out; otherwise
    the job is rejected, after a part of them. */
    method HandleArchive<F(!new)>(job: JobId, archive: Archive<F>, inputSize: nat, root: F, name: nat -> BlobId)
      returns (children: seq<BlobId>)
      requires Valid() && Now() == Unpacking(job)
      requires forall i, k :: i != k ==> name(i) != name(k)
      requires forall i :: name(i) !in blobs.uploads
      modifies Stores()
      ensures Valid() && (old(OnTime()) ==> OnTime()) && Now() == Idle
      ensures var fits := Fits(archive, root, 8) && (inputSize == 0 || TotalSize(archive, root, 8) <= 100 * inputSize);
        var leaves := NamesOf(Emit(archive, root, 8, None, 0).blobs, name);
        && children <= leaves && (fits ==> children == leaves && |children| == |Leaves(archive, root, 8)|)
        && Unpacked(old(State()), State(), job, children, !fits)
    {
      var walker := new Walker(archive, inputSize);
      var error := walker.Walk(root);
      children := NamesOf(walker.emitted, name);
      NamesDistinct(walker.emitted, name, Emit(archive, root, 8, None, 0).next);
      assert |FilesOf(walker.emitted)| == |walker.emitted|;
      HandleUnpack(job, children, error.Some?);
    }

    method EndUnpack(job: JobId, rejects: bool)
      requires Valid() && Now() == Unpacking(job)
      modifies Stores()
      ensures Valid() && (old(OnTime()) ==> OnTime()) && Now() == Idle
      ensures State() == if rejects then DoAbortUnpack(old(State()), id) else DoFinishUnpack(old(State()), id)
    {
      if rejects {
        Reject(job);
      } else {
        SetMarker(job);
      }
    }

    method SetMarker(job: JobId)
      requires Valid() && Now() == Unpacking(job)
      modifies Stores()
      ensures Valid() && (old(OnTime()) ==> OnTime()) && State() == DoFinishUnpack(old(State()), id)
    {
      redis.SetMarker(job);
      Log(FinishUnpack(id));
    }

    method Reject(job: JobId)
      requires Valid() && Now() == Unpacking(job)
      modifies Stores()
      ensures Valid() && (old(OnTime()) ==> OnTime()) && State() == DoAbortUnpack(old(State()), id)
    {
      broker.EmitRejected(job);
      Log(AbortUnpack(id));
    }

    // ---- analysis and matching ----------------------------------------------------

    method IncrAnalysed(job: JobId, blob: BlobId)
      requires Valid() && Now() == Analyzing(job, blob)
      modifies Stores()
      ensures Valid() && (old(OnTime()) ==> OnTime()) && State() == DoCountAnalyzed(old(State()), id)
    {
      redis.IncrCompleted(job, blob);
      Log(CountAnalyzed(id));
    }

    method HandleAnalysis(job: JobId, blob: BlobId)
      requires Valid() && Now() == Analyzing(job, blob)
      modifies Stores()
      ensures Valid() && (old(OnTime()) ==> OnTime()) && State() == DoEmitAnalyzed(DoCountAnalyzed(old(State()), id), id)
    {
      IncrAnalysed(job, blob);
      broker.Emit(AnalyzedMsg(job, blob));
      Log(EmitAnalyzed(id));
    }

    method PutFragment(job: JobId, blob: BlobId, components: seq<Component>, ghost matches: seq<CveMatch>)
      requires Valid() && Now() == Matching(job, blob) && forall c :: c in components ==> c.source == blob
      modifies Stores()
      ensures Valid() && (old(OnTime()) ==> OnTime()) && State() == DoStoreFragment(old(State()), id, components, matches)
    {
      artifacts.PutFragment(job, blob, components);
      Log(StoreFragment(id, components, matches));
    }

    method IncrMatches(job: JobId, blob: BlobId, ghost matches: seq<CveMatch>)
      requires Valid() && Now() == FragmentStored(job, blob, matches)
      modifies Stores()
      ensures Valid() && (old(OnTime()) ==> OnTime()) && State() == DoCountMatched(old(State()), id)
    {
      redis.IncrMatched(job, blob, matches);
      Log(CountMatched(id));
    }

    method AnnounceMatches(job: JobId, blob: BlobId, matches: seq<CveMatch>)
      requires Valid() && Now() == MatchCounted(job, blob, matches)
      modifies Stores()
      ensures Valid() && (old(OnTime()) ==> OnTime()) && State() == DoEmitMatched(old(State()), id)
    {
      broker.Emit(MatchedMsg(job, blob, matches));
      Log(EmitMatched(id));
    }

    /** Fragment first, then the counter, then the message. */
    method HandleCveMatch(job: JobId, blob: BlobId, components: seq<Component>, matches: seq<CveMatch>)
      requires Valid() && Now() == Matching(job, blob) && forall c :: c in components ==> c.source == blob
      modifies Stores()
      ensures Valid() && (old(OnTime()) ==> OnTime()) && Now() == Idle
      ensures State() == DoEmitMatched(DoCountMatched(DoStoreFragment(old(State()), id, components, matches), id), id)
    {
      PutFragment(job, blob, components, matches);
      IncrMatches(job, blob, matches);
      AnnounceMatches(job, blob, matches);
    }

    // ---- aggregation ----------------------------------------------------------------

    method RecordSubBlob(job: JobId, blob: BlobId, matches: seq<CveMatch>)
      requires Valid() && Now() == Recording(job, blob, matches)
      modifies Stores()
      ensures Valid() && (old(OnTime()) ==> OnTime()) && Now() == GateStart(job)
      ensures State() == old(State()).(procs := procs, docs := store.docs)
      ensures DocOf(State(), job) == DocOf(old(State()), job).(slots := Record(DocOf(old(State()), job).slots, blob, matches))
    {
      store.RecordSubBlob(job, blob, matches);
      assert store.docs == DoRecordSlot(old(State()), id).docs;
      Log(RecordSlot(id));
    }

    method GetTotal(job: JobId) returns (total: Option<nat>)
      requires Valid() && Now() == GateStart(job)
      modifies this`procs, this`history
      ensures Valid() && (old(OnTime()) ==> OnTime()) && State() == DoReadTotal(old(State()), id)
      ensures total == if job in redis.total then Some(redis.total[job]) else None
    {
      total := if job in redis.total then Some(redis.total[job]) else None;
      Log(ReadTotal(id));
    }

    method GetMarker(job: JobId, ghost total: nat, ghost sealed: bool) returns (marked: bool)
      requires Valid() && Now() == TotalRead(job, total, sealed)
      modifies this`procs, this`history
      ensures Valid() && (old(OnTime()) ==> OnTime()) && State() == DoReadMarker(old(State()), id)
      ensures marked <==> job in redis.marker
    {
      marked := job in redis.marker;
      Log(ReadMarker(id));
    }

    method GetMatched(job: JobId, ghost total: nat, ghost sealed: bool) returns (matched: nat)
      requires Valid() && Now() == MarkerRead(job, total, sealed)
      modifies this`procs, this`history
      ensures Valid() && (old(OnTime()) ==> OnTime()) && State() == DoReadMatched(old(State()), id)
      ensures matched == Get(redis.matched, job, 0)
    {
      matched := Get(redis.matched, job, 0);
      Log(ReadMatched(id));
    }

    /** The completion gate: three reads, one after the other. `full` is the history that the
    report document carries. */
    method CompletionReady(job: JobId) returns (ready: bool, full: bool)
      requires Valid() && Now() == GateStart(job)
      modifies this`procs, this`history
      ensures Valid() && (old(OnTime()) ==> OnTime()) && Now() == if ready then Reading(job, full) else Idle
      ensures ready ==> (full <==> Full(State(), job))
      ensures ready <==> job in redis.total && job in redis.marker && GatePasses(redis.total[job], Get(redis.matched, job, 0))
      ensures State() == old(State()).(procs := procs)
    {
      var total := GetTotal(job);
      if total.None? {
        return false, false;
      }
      var marked := GetMarker(job, total.value, job in redis.marker);
      if !marked {
        return false, false;
      }
      var matched := GetMatched(job, total.value, true);
      return GatePasses(total.value, matched), matched == total.value;
    }

    method ReadSlots(job: JobId, ghost full: bool) returns (slots: seq<Slot>)
      requires Valid() && Now() == Reading(job, full)
      modifies this`procs, this`history
      ensures Valid() && (old(OnTime()) ==> OnTime()) && State() == DoReadPartial(old(State()), id)
      ensures slots == DocOf(State(), job).slots
    {
      slots := store.GetSlots(job);
      Log(ReadPartial(id));
    }

    method AssembleReport(job: JobId, full: bool, slots: seq<Slot>) returns (report: ReportDoc)
      requires Valid() && Now() == Listing(job, full, slots)
      modifies this`procs, this`history
      ensures Valid() && (old(OnTime()) ==> OnTime()) && Now() == Assembled(job, report)
      ensures State() == old(State()).(procs := procs)
      ensures report == Assemble(job, slots, report.components, full)
      ensures Distinct(report.components) && forall c :: c in report.components <==> InFragments(artifacts.fragments, job, c)
    {
      var findings := FindingsFromPartial(slots);
      var order, docs := artifacts.ListFragments(job);
      var components := MergeSbomComponents(docs);
      var total, byTier := SummaryStats(findings);
      report := ReportDoc(job, findings, byTier, components, full, slots);
      ListedComponents(artifacts.fragments, job, order);
      Log(ListFragments(id, order));
    }

    method FinalizeReport(job: JobId, report: ReportDoc) returns (won: bool)
      requires Valid() && Now() == Assembled(job, report)
      modifies Stores()
      ensures Valid() && (old(OnTime()) ==> OnTime()) && State() == DoFinalize(old(State()), id)
      ensures won <==> FinalOf(old(State()), job).None?
    {
      won := store.Finalize(job, report, id);
      Log(Finalize(id));
    }

    method UploadSbom(job: JobId, report: ReportDoc)
      requires Valid() && Now() == Won(job, report)
      modifies Stores()
      ensures Valid() && (old(OnTime()) ==> OnTime()) && State() == DoPutSbom(old(State()), id)
    {
      artifacts.PutSbom(job, report.components);
      Log(PutSbom(id));
    }

    method UploadReport(job: JobId, report: ReportDoc)
      requires Valid() && Now() == SbomPut(job, report)
      modifies Stores()
      ensures Valid() && (old(OnTime()) ==> OnTime()) && State() == DoPutReport(old(State()), id)
    {
      artifacts.PutReport(job, report);
      Log(PutReport(id));
    }

    method UploadArtifacts(job: JobId, report: ReportDoc)
      requires Valid() && Now() == Won(job, report)
      modifies Stores()
      ensures Valid() && (old(OnTime()) ==> OnTime()) && Now() == ReportPut(job, report)
      ensures var s := old(State());
        State() == s.(procs := procs, sboms := s.sboms[job := report.components], reports := s.reports[job := report])
    {
      UploadSbom(job, report);
      UploadReport(job, report);
    }

    method AnnounceCompleted(job: JobId, ghost report: ReportDoc)
      requires Valid() && Now() == ReportPut(job, report)
      modifies Stores()
      ensures Valid() && (old(OnTime()) ==> OnTime()) && Now() == Idle
      ensures var s := old(State()); State() == s.(procs := procs, completions := s.completions + [job])
    {
      broker.EmitCompleted(job);
      Log(EmitCompleted(id));
    }

    /** Assemble and persist the report; true exactly when this call finalized it. */
    method FinalizeJob(job: JobId, full: bool) returns (won: bool)
      requires Valid() && Now() == Reading(job, full)
      modifies Stores()
      ensures Valid() && (old(OnTime()) ==> OnTime()) && (won <==> FinalOf(old(State()), job).None?)
      ensures !won ==> Now() == Idle && State() == old(State()).(procs := procs)
      ensures DocOf(State(), job).slots == DocOf(old(State()), job).slots
      ensures won ==> FinalOf(State(), job).Some?
      ensures won ==>
        var report := FinalOf(State(), job).value;
        && Now() == ReportPut(job, report)
        && report == Assemble(job, DocOf(old(State()), job).slots, report.components, full)
        && (forall c :: c in report.components <==> InFragments(artifacts.fragments, job, c))
      ensures OnlyReportFields(old(State()), State()) && broker.completions == old(broker.completions)
    {
      var slots := ReadSlots(job, full);
      var report := AssembleReport(job, full, slots);
      won := FinalizeReport(job, report);
      if won {
        UploadArtifacts(job, report);
      }
    }

    /** Past the gate: finalize and, if this call did it, announce. */
    method FinishJob(job: JobId, full: bool) returns (completed: bool)
      requires Valid() && Now() == Reading(job, full)
      modifies Stores()
      ensures Valid() && (old(OnTime()) ==> OnTime()) && Now() == Idle
      ensures completed <==> FinalOf(old(State()), job).None?
      ensures broker.completions == old(broker.completions) + (if completed then [job] else [])
      ensures DocOf(State(), job).slots == DocOf(old(State()), job).slots
      ensures FinalOf(State(), job).Some?
      ensures completed ==> FinalOf(State(), job).value.findings == Flatten(DocOf(State(), job).slots)
      ensures !completed ==> FinalOf(State(), job) == FinalOf(old(State()), job)
      ensures OnlyReportFields(old(State()), State())
    {
      completed := FinalizeJob(job, full);
      if completed {
        AnnounceCompleted(job, FinalOf(State(), job).value);
      }
    }

    method CompleteIfReady(job: JobId) returns (completed: bool)
      requires Valid() && Now() == GateStart(job)
      modifies Stores()
      ensures Valid() && (old(OnTime()) ==> OnTime()) && Now() == Idle
      ensures Completed(old(State()), State(), job, completed)
    {
      ghost var before := State();
      var ready, full := CompletionReady(job);
      if !ready {
        NotCompleted(before, State(), job);
        return false;
      }
      ghost var atGate := State();
      completed := FinishJob(job, full);
      FinishedIsCompleted(before, atGate, State(), job, completed);
    }

    /** Handle one `firmware.matched`: record, gate, finalize, announce. */
    method Aggregate(job: JobId, blob: BlobId, matches: seq<CveMatch>) returns (completed: bool)
      requires Valid() && Now() == Recording(job, blob, matches)
      modifies Stores()
      ensures Valid() && (old(OnTime()) ==> OnTime()) && Now() == Idle
      ensures Aggregated(old(State()), State(), job, blob, matches, completed)
    {
      ghost var before := State();
      RecordSubBlob(job, blob, matches);
      ghost var recorded := State();
      completed := CompleteIfReady(job);
      RecordedThenCompleted(before, recorded, State(), job, blob, matches, completed);
    }

    // ---- the consumer loop ------------------------------------------------------------

    /** A clean upload: announce the triaged job. */
    method Submit(job: JobId)
      requires Valid() && Now() == Idle
      modifies Stores()
      ensures Valid() && (old(OnTime()) ==> OnTime()) && Now() == Idle
      ensures State() == old(State()).(sent := old(State()).sent + {TriagedMsg(job)})
    {
      broker.Emit(TriagedMsg(job));
      Log(Triage(job));
    }

    method Claim(m: Message) returns (claimed: bool)
      requires Valid() && Now() == Idle && m in broker.sent
      modifies Stores()
      ensures Valid() && State() == DoDeliver(old(State()), id, m)
      ensures claimed <==> KeyOf(m) !in old(redis.claims)
      ensures OnTime() <==> old(OnTime() && PromptStep(State(), Deliver(id, m)))
    {
      claimed := redis.ClaimMessage(KeyOf(m), id);
      Log(Deliver(id, m));
    }

    /** A claim runs out. */
    method Lapse(key: ClaimKey)
      requires Valid() && Now() == Idle
      modifies Stores()
      ensures Valid() && (old(OnTime()) ==> OnTime()) && Now() == Idle
      ensures State() == old(State()).(claims := old(State()).claims - {key})
    {
      redis.ExpireClaim(key);
      Log(ExpireClaim(key));
    }

    /** Claim one message and run its handler; a message claimed before changes nothing, and
    a fresh claim has the effect of the handler registered for the topic. */
    method ProcessMessage(m: Message, answers: Answers)
      requires Valid() && Now() == Idle && m in broker.sent
      requires Distinct(answers.children) && forall c :: c in answers.children ==> c !in blobs.uploads
      requires m.AnalyzedMsg? ==> forall c :: c in answers.components ==> c.source == m.blob
      modifies Stores()
      ensures Valid() && Now() == Idle
      ensures old(OnTime() && PromptStep(State(), Deliver(id, m))) ==> OnTime()
      ensures KeyOf(m) in old(redis.claims) ==> State() == old(State()).(procs := procs)
      ensures KeyOf(m) !in old(redis.claims) ==> Handled(DoDeliver(old(State()), id, m), State(), id, m, answers)
      ensures redis.claims == old(redis.claims) + {KeyOf(m)} && redis.owners.Keys <= old(redis.owners.Keys) + {KeyOf(m)}
    {
      var claimed := Claim(m);
      if claimed {
        match m
        case TriagedMsg(job) => HandleUnpack(job, answers.children, answers.rejects);
        case ExtractedMsg(job, blob) => HandleAnalysis(job, blob);
        case AnalyzedMsg(job, blob) => HandleCveMatch(job, blob, answers.components, answers.matches);
        case MatchedMsg(job, blob, matches) => var _ := Aggregate(job, blob, matches);
      }
    }

    /** Every claim is still there that was ever taken, unless it ran out in this loop or
    guards a `firmware.matched`. */
    ghost predicate ClaimsStand(polled: seq<Poll>, i: nat)
      requires i <= |polled|
      reads redis
    {
      forall key :: key in redis.owners && key !in redis.claims && key.topic != Matched ==> LapsedBy(polled, i, key)
    }

    /** The consumer loop over whatever happens: uploads, claims running out, and messages
    polled in any order with any repetition. No job is announced twice. If moreover no
    message but a `firmware.matched` comes again after its claim ran out, then every
    finalized job was unpacked to its end, the SBOM lists exactly the components of the
    fragments of all its children, and no job was announced that a defence rejected. */
    method Consume(polled: seq<Poll>)
      requires Valid() && Now() == Idle
      modifies Stores()
      ensures Valid() && Now() == Idle && Distinct(broker.completions)
      ensures old(OnTime() && ClaimsStand(polled, 0)) && NoneLate(polled) ==> OnTime()
      ensures OnTime() ==> forall j :: FinalOf(State(), j).Some? ==>
        && Complete(State(), j)
        && (forall b :: b in BlobsOf(redis.counted, j) ==> Covers(State(), FinalOf(State(), j).value, j, b))
        && (forall c :: c in FinalOf(State(), j).value.components <==> InFragments(artifacts.fragments, j, c))
      ensures OnTime() ==> forall j :: j in broker.rejected ==> j !in broker.completions
    {
      ghost var prompt := OnTime() && ClaimsStand(polled, 0) && NoneLate(polled);
      for i := 0 to |polled|
        invariant Valid() && Now() == Idle
        invariant prompt ==> OnTime() && ClaimsStand(polled, i)
      {
        ConsumeOne(polled, i);
      }
      OnceHolds(history);
      assert Emitted(State());
      if OnTime() {
        EndsComplete();
      }
    }

    lemma EndsComplete()
      requires Valid() && OnTime()
      ensures forall j :: FinalOf(State(), j).Some? ==>
        && Complete(State(), j)
        && (forall b :: b in BlobsOf(redis.counted, j) ==> Covers(State(), FinalOf(State(), j).value, j, b))
        && (forall c :: c in FinalOf(State(), j).value.components <==> InFragments(artifacts.fragments, j, c))
      ensures forall j :: j in broker.rejected ==> j !in broker.completions
    {
      forall j | FinalOf(State(), j).Some? {
        OneRouterCompletes(history, id, j);
      }
      forall j | j in broker.rejected {
        RejectedNeverCompletes(history, j);
      }
    }

    method ConsumeOne(polled: seq<Poll>, i: nat)
      requires Valid() && Now() == Idle && i < |polled|
      modifies Stores()
      ensures Valid() && Now() == Idle
      ensures old(OnTime() && ClaimsStand(polled, i)) && NoneLate(polled) ==> OnTime() && ClaimsStand(polled, i + 1)
    {
      match polled[i]
      case Submitted(job) => Submit(job);
      case Lapses(key) => Lapse(key);
      case Polled(m, answers) =>
        if NoneLate(polled) && ClaimsStand(polled, i) {
          OnTimeMessage(polled, i, m);
        }
        ConsumeMessage(m, answers);
    }

    lemma OnTimeMessage(polled: seq<Poll>, i: nat, m: Message)
      requires i < |polled| && polled[i].Polled? && polled[i].m == m
      requires NoneLate(polled) && ClaimsStand(polled, i)
      ensures PromptStep(State(), Deliver(id, m))
    {
    }

    method ConsumeMessage(m: Message, answers: Answers)
      requires Valid() && Now() == Idle
      modifies Stores()
      ensures Valid() && Now() == Idle
      ensures old(OnTime() && PromptStep(State(), Deliver(id, m))) ==> OnTime()
      ensures old(redis.claims) <= redis.claims && redis.owners.Keys <= old(redis.owners.Keys) + redis.claims
    {
      var freshIds := forall c :: c in answers.children ==> c !in blobs.uploads;
      var sourced := m.AnalyzedMsg? ==> forall c :: c in answers.components ==> c.source == m.blob;
      if m in broker.sent && freshIds && NoRepeats(answers.children) && sourced {
        ProcessMessage(m, answers);
      }
    }
  }
}
