/** The hypothesis of the counter theorems is exact: under it nothing goes wrong, and from
any state a single delivery against it can be continued to something that does. */
module ProtocolLate {
  import opened Collections
  import opened Firmware
  import opened Protocol
  import opened ProtocolSafety
  import opened ProtocolOnce
  import opened ProtocolReads
  import opened ProtocolTheorems

  /** A counter no longer counts distinct sub-blobs. */
  ghost predicate CounterApart(s: World, j: JobId) {
    || Get(s.completed, j, 0) != |BlobsOf(s.analysed, j)|
    || Get(s.matched, j, 0) != |BlobsOf(s.scored, j)|
  }

  /** A job is being unpacked that is done, rejected, or being unpacked by somebody else. */
  ghost predicate UnpackClash(s: World, v: Worker) {
    && InUnpack(ProcOf(s, v))
    && var j := ProcOf(s, v).job;
      j in s.marker || j in s.rejected || exists u :: u != v && InUnpack(ProcOf(s, u)) && ProcOf(s, u).job == j
  }

  /** None of it happens in a run with prompt redelivery, and no fragment is overwritten. */
  lemma PromptIsSafe(r: Run, j: JobId, v: Worker, prefix: Run)
    requires Legal(r) && Prompt(r) && Extends(r, prefix)
    ensures !CounterApart(End(r), j) && !UnpackClash(End(r), v)
    ensures MapGrows(End(prefix).fragments, End(r).fragments)
  {
    CountersCountNestedSets(r, j);
    FragmentsGrow(prefix, r);
    InvHolds(r);
    if InUnpack(ProcOf(End(r), v)) {
      assert ProcOk(End(r), v, End(r).procs[v]);
      forall u | u != v && InUnpack(ProcOf(End(r), u))
        ensures ProcOf(End(r), u).job != ProcOf(End(r), v).job
      {
        UnpackedByOne(r, u, v);
      }
    }
  }

  /** A sub-blob's `firmware.analyzed` comes again after it was counted as matched and its
  claim ran out: from any such state the counter can part from the sub-blobs. */
  lemma LateAnalyzedCountsTwice(r: Run, w: Worker, j: JobId, b: BlobId) returns (t: Run)
    requires Legal(r) && Prompt(r) && ProcOf(End(r), w).Idle? && AnalyzedMsg(j, b) in End(r).sent
    requires ClaimKey(Analyzed, b) !in End(r).claims && b in BlobsOf(End(r).scored, j)
    ensures Legal(t) && Extends(t, r)
    ensures Get(End(t).matched, j, 0) == |BlobsOf(End(t).scored, j)| + 1
  {
    CountersCountNestedSets(r, j);
    t := Then(r, Deliver(w, AnalyzedMsg(j, b)));
    LateMatching(End(r), w, j, b);
    t := Store(t, w, j, b, []);
    t := Then(t, CountMatched(w));
    CountMatchedAgain(End(t.before), w, j, b);
    assert Extends(t.before.before.before, r);
  }

  lemma LateMatching(s: World, w: Worker, j: JobId, b: BlobId)
    requires ClaimKey(Analyzed, b) !in s.claims
    ensures var t := DoDeliver(s, w, AnalyzedMsg(j, b));
      ProcOf(t, w) == Matching(j, b) && t.matched == s.matched && t.scored == s.scored
  {
  }

  lemma Store(r: Run, w: Worker, j: JobId, b: BlobId, cs: seq<Component>) returns (t: Run)
    requires Legal(r) && ProcOf(End(r), w) == Matching(j, b) && forall c :: c in cs ==> c.source == b
    ensures t == Then(r, StoreFragment(w, cs, [])) && Legal(t) && ProcOf(End(t), w) == FragmentStored(j, b, [])
    ensures End(t).matched == End(r).matched && End(t).scored == End(r).scored
    ensures End(t).sent == End(r).sent && End(t).claims == End(r).claims && End(t).procs == End(r).procs[w := FragmentStored(j, b, [])]
    ensures End(t).fragments == End(r).fragments[FragmentKey(j, b) := cs]
  {
    t := Then(r, StoreFragment(w, cs, []));
    assert Enabled(End(r), StoreFragment(w, cs, []));
    assert End(t) == DoStoreFragment(End(r), w, cs, []);
  }

  lemma CountMatchedAgain(s: World, w: Worker, j: JobId, b: BlobId)
    requires ProcOf(s, w) == FragmentStored(j, b, []) && b in BlobsOf(s.scored, j)
    ensures var t := DoCountMatched(s, w);
      Get(t.matched, j, 0) == Get(s.matched, j, 0) + 1 && BlobsOf(t.scored, j) == BlobsOf(s.scored, j)
  {
  }

  /** The same for a `firmware.extracted` that comes again after the sub-blob was counted
  as analysed. */
  lemma LateExtractedCountsTwice(r: Run, w: Worker, j: JobId, b: BlobId) returns (t: Run)
    requires Legal(r) && Prompt(r) && ProcOf(End(r), w).Idle? && ExtractedMsg(j, b) in End(r).sent
    requires ClaimKey(Extracted, b) !in End(r).claims && b in BlobsOf(End(r).analysed, j)
    ensures Legal(t) && Extends(t, r)
    ensures Get(End(t).completed, j, 0) == |BlobsOf(End(t).analysed, j)| + 1
  {
    CountersCountNestedSets(r, j);
    t := Then(r, Deliver(w, ExtractedMsg(j, b)));
    LateAnalysing(End(r), w, j, b);
    t := Then(t, CountAnalyzed(w));
    CountAnalyzedAgain(End(t.before), w, j, b);
    assert Extends(t.before.before, r);
  }

  lemma LateAnalysing(s: World, w: Worker, j: JobId, b: BlobId)
    requires ClaimKey(Extracted, b) !in s.claims
    ensures var t := DoDeliver(s, w, ExtractedMsg(j, b));
      ProcOf(t, w) == Analyzing(j, b) && t.completed == s.completed && t.analysed == s.analysed
  {
  }

  lemma CountAnalyzedAgain(s: World, w: Worker, j: JobId, b: BlobId)
    requires ProcOf(s, w) == Analyzing(j, b) && b in BlobsOf(s.analysed, j)
    ensures var t := DoCountAnalyzed(s, w);
      Get(t.completed, j, 0) == Get(s.completed, j, 0) + 1 && BlobsOf(t.analysed, j) == BlobsOf(s.analysed, j)
  {
  }

  // ---- each kind of late delivery -------------------------------------------------------

  lemma LateTriagedClashes(r: Run, w: Worker, j: JobId) returns (t: Run)
    requires Legal(r) && ProcOf(End(r), w).Idle? && TriagedMsg(j) in End(r).sent
    requires ClaimKey(Triaged, j) !in End(r).claims && !Untaken(End(r), TriagedMsg(j))
    ensures Legal(t) && Extends(t, r) && UnpackClash(End(t), w)
  {
    t := Then(r, Deliver(w, TriagedMsg(j)));
    assert Extends(t.before, r);
    TriagedAgain(End(r), w, j);
  }

  lemma TriagedAgain(s: World, w: Worker, j: JobId)
    requires ProcOf(s, w).Idle? && ClaimKey(Triaged, j) !in s.claims && !Untaken(s, TriagedMsg(j))
    ensures UnpackClash(DoDeliver(s, w, TriagedMsg(j)), w)
  {
    var t := DoDeliver(s, w, TriagedMsg(j));
    assert ProcOf(t, w) == Unpacking(j);
    if j !in s.marker && j !in s.rejected {
      var v :| v in s.procs && InUnpack(s.procs[v]) && s.procs[v].job == j;
      assert v != w && ProcOf(t, v) == s.procs[v];
    }
  }

  lemma AnalyzingIsThisJob(r: Run, v: Worker, j: JobId, b: BlobId)
    requires Legal(r) && Prompt(r) && ExtractedMsg(j, b) in End(r).sent
    requires ProcOf(End(r), v).Analyzing? && ProcOf(End(r), v).blob == b
    ensures ProcOf(End(r), v) == Analyzing(j, b)
  {
    InvHolds(r);
    assert ProcOk(End(r), v, End(r).procs[v]);
    CountedOnce(End(r), j, ProcOf(End(r), v).job, b);
  }

  lemma CountedOnce(s: World, j: JobId, k: JobId, b: BlobId)
    requires ExtractedCounted(s.sent, s.counted) && CountedUploaded(s.counted, s.uploads)
    requires ExtractedMsg(j, b) in s.sent && b in BlobsOf(s.counted, k)
    ensures j == k
  {
    assert b in BlobsOf(s.counted, j);
    assert s.uploads[b] == j && s.uploads[b] == k;
  }

  lemma LateExtractedApart(r: Run, w: Worker, j: JobId, b: BlobId) returns (t: Run)
    requires Legal(r) && Prompt(r) && ProcOf(End(r), w).Idle? && ExtractedMsg(j, b) in End(r).sent
    requires ClaimKey(Extracted, b) !in End(r).claims && !Untaken(End(r), ExtractedMsg(j, b))
    ensures Legal(t) && Extends(t, r) && CounterApart(End(t), j)
  {
    if b in BlobsOf(End(r).analysed, j) {
      t := LateExtractedCountsTwice(r, w, j, b);
    } else {
      var v :| v in End(r).procs && End(r).procs[v].Analyzing? && End(r).procs[v].blob == b;
      AnalyzingIsThisJob(r, v, j, b);
      var more := CountedBy(r, v, w, j, b);
      t := LateExtractedCountsTwice(more, w, j, b);
      ExtendsThrough(t, more, r);
    }
  }

  lemma CountedBy(r: Run, v: Worker, w: Worker, j: JobId, b: BlobId) returns (t: Run)
    requires Legal(r) && Prompt(r) && ProcOf(End(r), v) == Analyzing(j, b) && ProcOf(End(r), w).Idle?
    ensures t == Then(r, CountAnalyzed(v)) && Legal(t) && Prompt(t) && Extends(t, r) && ProcOf(End(t), w).Idle?
    ensures b in BlobsOf(End(t).analysed, j) && End(t).sent == End(r).sent && End(t).claims == End(r).claims
  {
    t := Then(r, CountAnalyzed(v));
    assert End(t) == DoCountAnalyzed(End(r), v);
    assert Extends(t.before, r);
  }

  lemma MatchingIsThisJob(r: Run, v: Worker, j: JobId, b: BlobId)
    requires Legal(r) && Prompt(r) && AnalyzedMsg(j, b) in End(r).sent
    requires ProcOf(End(r), v).Matching? && ProcOf(End(r), v).blob == b
    ensures ProcOf(End(r), v) == Matching(j, b)
  {
    InvHolds(r);
    var s := End(r);
    assert Backed(s, v, s.procs[v]);
    OneJobEach(s, j, ProcOf(s, v).job, b);
  }

  lemma OverwriteAfter(r: Run, w: Worker, j: JobId, b: BlobId) returns (t: Run)
    requires Legal(r) && ProcOf(End(r), w).Idle? && AnalyzedMsg(j, b) in End(r).sent
    requires ClaimKey(Analyzed, b) !in End(r).claims && FragmentKey(j, b) in End(r).fragments
    ensures Legal(t) && Extends(t, r) && !MapGrows(End(r).fragments, End(t).fragments)
  {
    var d := Then(r, Deliver(w, AnalyzedMsg(j, b)));
    LateMatching(End(r), w, j, b);
    assert End(d) == DoDeliver(End(r), w, AnalyzedMsg(j, b));
    assert Extends(d.before, r);
    t := StoreOther(d, w, j, b);
  }

  lemma StoreOther(r: Run, w: Worker, j: JobId, b: BlobId) returns (t: Run)
    requires Legal(r) && ProcOf(End(r), w) == Matching(j, b) && FragmentKey(j, b) in End(r).fragments
    ensures t.Then? && t.before == r && Legal(t) && !MapGrows(End(r).fragments, End(t).fragments)
  {
    var cs := OtherComponents(b, End(r).fragments[FragmentKey(j, b)]);
    t := Store(r, w, j, b, cs);
    Overwritten(End(r).fragments, FragmentKey(j, b), cs);
  }

  lemma OtherComponents(b: BlobId, cs: seq<Component>) returns (ds: seq<Component>)
    ensures ds != cs && forall c :: c in ds ==> c.source == b
  {
    ds := if cs == [] then [Component("", "", "", b)] else [];
  }

  lemma Overwritten<K, V>(m: map<K, V>, k: K, v: V)
    requires k in m && m[k] != v
    ensures !MapGrows(m, m[k := v])
  {
    assert m[k := v][k] == v;
  }

  lemma LateAnalyzedOverwrites(r: Run, w: Worker, j: JobId, b: BlobId) returns (p: Run, t: Run)
    requires Legal(r) && Prompt(r) && ProcOf(End(r), w).Idle? && AnalyzedMsg(j, b) in End(r).sent
    requires ClaimKey(Analyzed, b) !in End(r).claims && !Untaken(End(r), AnalyzedMsg(j, b))
    ensures Legal(t) && Extends(t, p) && Extends(p, r) && !MapGrows(End(p).fragments, End(t).fragments)
  {
    p := r;
    if FragmentKey(j, b) !in End(r).fragments {
      var v :| v in End(r).procs && End(r).procs[v].Matching? && End(r).procs[v].blob == b;
      MatchingIsThisJob(r, v, j, b);
      p := StoredBy(r, v, w, j, b);
    }
    t := OverwriteAfter(p, w, j, b);
  }

  lemma StoredBy(r: Run, v: Worker, w: Worker, j: JobId, b: BlobId) returns (t: Run)
    requires Legal(r) && ProcOf(End(r), v) == Matching(j, b) && ProcOf(End(r), w).Idle?
    ensures Legal(t) && Extends(t, r) && ProcOf(End(t), w).Idle? && FragmentKey(j, b) in End(t).fragments
    ensures End(t).sent == End(r).sent && End(t).claims == End(r).claims
  {
    t := Store(r, v, j, b, []);
    assert Extends(t.before, r);
  }

  /** From any state in which a message that was taken can be delivered after its claim ran
  out, the run can be continued to counters that part from the sub-blobs, to a job unpacked twice or when
  it is done or rejected, or to an overwritten fragment. */
  lemma LateDeliveryHarms(r: Run, w: Worker, m: Message) returns (p: Run, t: Run)
    requires Legal(r) && Prompt(r) && Enabled(End(r), Deliver(w, m))
    requires KeyOf(m) !in End(r).claims && !PromptStep(End(r), Deliver(w, m))
    ensures Legal(t) && Extends(t, p) && Extends(p, r)
    ensures CounterApart(End(t), m.job) || UnpackClash(End(t), w) || !MapGrows(End(p).fragments, End(t).fragments)
  {
    p := r;
    match m
    case TriagedMsg(j) => t := LateTriagedClashes(r, w, j);
    case ExtractedMsg(j, b) => t := LateExtractedApart(r, w, j, b);
    case AnalyzedMsg(j, b) => p, t := LateAnalyzedOverwrites(r, w, j, b);
    case MatchedMsg(_, _, _) => assert false;
  }
}
