/** Matching one sub-blob: exact lookups first, similarity as the fallback, one best
candidate per CVE, and the output contract. */
module Matcher {
  import opened Collections
  import opened Firmware
  import opened Text
  import opened Thresholds
  import opened Normalize

  /** One corpus row as the lookups return it. */
  datatype Record = Record(cveId: string, family: Option<string>, description: string)

  datatype Candidate = Candidate(
    cveId: string, tier: Tier, via: Via, score: Option<real>, description: string, component: string)

  /** One version candidate, already normalized; `rawVersion` is what was reported. */
  datatype VersionCandidate = VersionCandidate(component: NormalizedComponent, rawVersion: string)

  /** The corpus, the thresholds and the rounding in force. The exact lookup goes by name,
  the similarity search by text. */
  datatype Corpus = Corpus(
    lookup: string -> seq<Record>,
    similar: string -> seq<(Record, real)>,
    overrides: map<string, ThresholdConfig>,
    round: real -> real)
  {
    /** Similarities are clamped, and rounding keeps the unit interval. */
    ghost predicate Valid() {
      && (forall text, i :: 0 <= i < |similar(text)| ==> 0.0 <= similar(text)[i].1 <= 1.0)
      && (forall x :: 0.0 <= x <= 1.0 ==> 0.0 <= round(x) <= 1.0)
    }
  }

  // ---- the output contract ---------------------------------------------------------------

  predicate ValidCveMatch(m: CveMatch) {
    && (m.score.Some? ==> 0.0 <= m.score.value <= 1.0)
    && m.tier != NoMatch
    && (if m.via == ExactCpe then m.score.None? && m.tier == Confirmed else m.score.Some? && m.tier != Confirmed)
    && (m.rationale.Some? ==> NeedsLlmRationale(m.tier))
  }

  // ---- candidates --------------------------------------------------------------------------

  function ExactCandidates(records: seq<Record>, text: string): seq<Candidate> {
    seq(|records|, i requires 0 <= i < |records| =>
      Candidate(records[i].cveId, Confirmed, ExactCpe, None, records[i].description, text))
  }

  function OrFamily(a: Option<string>, b: Option<string>): Option<string> {
    if a.Some? && a.value != "" then a else b
  }

  /** The similarity hits that reach a tier; a hit below the lowest one is dropped. */
  function SimilarCandidates(c: Corpus, comp: NormalizedComponent, hits: seq<(Record, real)>): seq<Candidate> {
    if hits == [] then []
    else
      var front := SimilarCandidates(c, comp, hits[..|hits| - 1]);
      var (record, score) := hits[|hits| - 1];
      var tier := TierForScore(ThresholdsFor(c.overrides, OrFamily(record.family, comp.family)), score);
      if tier == NoMatch then front
      else front + [Candidate(record.cveId, tier, EmbeddingSimilarity, Some(c.round(score)), record.description, comp.rawText)]
  }

  /** The rows stored under any of the component's candidate names. */
  function ExactRecords(c: Corpus, comp: NormalizedComponent): seq<Record> {
    FlatMap(c.lookup, CandidateNames(comp))
  }

  method LookUpAll(c: Corpus, comp: NormalizedComponent) returns (records: seq<Record>)
    ensures records == ExactRecords(c, comp)
  {
    records := [];
    var names := CandidateCpes(comp);
    for i := 0 to |names|
      invariant records == FlatMap(c.lookup, names[..i])
    {
      assert names[..i + 1][..i] == names[..i];
      records := records + c.lookup(names[i]);
    }
    assert names[..|names|] == names;
  }

  /** What one version candidate offers: its exact matches or, only without any, its
  similar ones. */
  function Offers(c: Corpus, v: VersionCandidate): seq<Candidate> {
    var records := ExactRecords(c, v.component);
    if records != [] then ExactCandidates(records, v.component.rawText)
    else SimilarCandidates(c, v.component, c.similar(v.component.rawText))
  }

  function AllOffers(c: Corpus, vs: seq<VersionCandidate>): seq<Candidate> {
    FlatMap(v => Offers(c, v), vs)
  }

  /** A candidate that meets the contract once it is emitted. */
  predicate Sound(c: Candidate) {
    c.tier != NoMatch
    && if c.via == ExactCpe then c.score.None? && c.tier == Confirmed
       else c.score.Some? && c.tier != Confirmed && 0.0 <= c.score.value <= 1.0
  }

  lemma {:induction false} SimilarSound(c: Corpus, comp: NormalizedComponent, hits: seq<(Record, real)>)
    requires c.Valid() && forall i :: 0 <= i < |hits| ==> 0.0 <= hits[i].1 <= 1.0
    ensures forall x :: x in SimilarCandidates(c, comp, hits) ==> Sound(x)
  {
    if hits != [] {
      SimilarSound(c, comp, hits[..|hits| - 1]);
      assert 0.0 <= hits[|hits| - 1].1 <= 1.0;
    }
  }

  lemma {:induction false} OffersSound(c: Corpus, vs: seq<VersionCandidate>)
    requires c.Valid()
    ensures forall x :: x in AllOffers(c, vs) ==> Sound(x)
  {
    if vs != [] {
      OffersSound(c, vs[..|vs| - 1]);
      var comp := vs[|vs| - 1].component;
      SimilarSound(c, comp, c.similar(comp.rawText));
    }
  }

  // ---- what is offered, row by row --------------------------------------------------------------

  /** The row is stored under one of the candidate names. */
  ghost predicate ExactFor(c: Corpus, v: VersionCandidate, r: Record) {
    exists name :: name in CandidateNames(v.component) && r in c.lookup(name)
  }

  /** The row came up in the similarity search, and no row is stored under any name. */
  ghost predicate SimilarFor(c: Corpus, v: VersionCandidate, r: Record, score: real) {
    (r, score) in c.similar(v.component.rawText) && forall e :: !ExactFor(c, v, e)
  }

  /** The thresholds of the row's family if it has one, otherwise of the component's. */
  function Cutoffs(c: Corpus, v: VersionCandidate, r: Record): ThresholdConfig {
    if r.family == None || r.family == Some("") then ThresholdsFor(c.overrides, v.component.family)
    else ThresholdsFor(c.overrides, r.family)
  }

  ghost predicate ExactOffer(c: Corpus, v: VersionCandidate, x: Candidate) {
    exists r :: ExactFor(c, v, r) && x == Candidate(r.cveId, Confirmed, ExactCpe, None, r.description, v.component.rawText)
  }

  ghost predicate SimilarOffer(c: Corpus, v: VersionCandidate, x: Candidate) {
    exists r, score :: SimilarFor(c, v, r, score) && SimilarTo(c, v, r, score, x)
  }

  ghost predicate SimilarTo(c: Corpus, v: VersionCandidate, r: Record, score: real, x: Candidate) {
    && x.tier == TierForScore(Cutoffs(c, v, r), score) && x.tier != NoMatch
    && x == Candidate(r.cveId, x.tier, EmbeddingSimilarity, Some(c.round(score)), r.description, v.component.rawText)
  }

  lemma ExactMember(records: seq<Record>, text: string, x: Candidate)
    ensures x in ExactCandidates(records, text) <==>
            exists r :: r in records && x == Candidate(r.cveId, Confirmed, ExactCpe, None, r.description, text)
  {
    var all := ExactCandidates(records, text);
    if r :| r in records && x == Candidate(r.cveId, Confirmed, ExactCpe, None, r.description, text) {
      var i :| 0 <= i < |records| && records[i] == r;
      assert all[i] == x;
    }
  }

  lemma {:induction false} SimilarMember(c: Corpus, v: VersionCandidate, hits: seq<(Record, real)>, x: Candidate)
    ensures x in SimilarCandidates(c, v.component, hits) <==> exists r, score :: (r, score) in hits && SimilarTo(c, v, r, score, x)
  {
    if hits != [] {
      var front, last := hits[..|hits| - 1], hits[|hits| - 1];
      SimilarMember(c, v, front, x);
      assert hits == front + [last];
      if SimilarTo(c, v, last.0, last.1, x) {
        assert (last.0, last.1) in hits;
      }
    }
  }

  /** Exactly what one version candidate offers. */
  lemma OffersIff(c: Corpus, v: VersionCandidate, x: Candidate)
    ensures x in Offers(c, v) <==> ExactOffer(c, v, x) || SimilarOffer(c, v, x)
  {
    var records := ExactRecords(c, v.component);
    forall r
      ensures r in records <==> ExactFor(c, v, r)
    {
      FlatMapMember(c.lookup, CandidateNames(v.component), r);
    }
    if records != [] {
      assert ExactFor(c, v, records[0]);
      ExactMember(records, v.component.rawText, x);
    } else {
      SimilarMember(c, v, c.similar(v.component.rawText), x);
    }
  }

  /** Some version candidate offers it. */
  ghost predicate Offered(c: Corpus, vs: seq<VersionCandidate>, x: Candidate) {
    exists v :: v in vs && (ExactOffer(c, v, x) || SimilarOffer(c, v, x))
  }

  lemma AllOffersIff(c: Corpus, vs: seq<VersionCandidate>, x: Candidate)
    ensures x in AllOffers(c, vs) <==> Offered(c, vs, x)
  {
    FlatMapMember(v => Offers(c, v), vs, x);
    forall v
      ensures x in Offers(c, v) <==> ExactOffer(c, v, x) || SimilarOffer(c, v, x)
    {
      OffersIff(c, v, x);
    }
  }

  // ---- best candidate per CVE -----------------------------------------------------------------

  function ScoreOf(c: Candidate): real {
    if c.score.Some? then c.score.value else 0.0
  }

  /** Strictly better: a higher tier, or the same tier with a higher score. */
  predicate Better(a: Candidate, b: Candidate) {
    TierRank(a.tier) > TierRank(b.tier) || (TierRank(a.tier) == TierRank(b.tier) && ScoreOf(a) > ScoreOf(b))
  }

  function Offer(best: map<string, Candidate>, c: Candidate): map<string, Candidate> {
    if c.cveId !in best || Better(c, best[c.cveId]) then best[c.cveId := c] else best
  }

  function Fold(offers: seq<Candidate>): map<string, Candidate> {
    if offers == [] then map[] else Offer(Fold(offers[..|offers| - 1]), offers[|offers| - 1])
  }

  /** `c` is offered for its CVE and nothing offered for it is better. */
  ghost predicate IsMaximum(offers: seq<Candidate>, c: Candidate) {
    c in offers && forall o :: o in offers && o.cveId == c.cveId ==> !Better(o, c)
  }

  /** The fold keeps, for each CVE that was offered, a maximum of its offers. */
  lemma {:induction false} FoldIsMaximum(offers: seq<Candidate>)
    ensures forall id :: id in Fold(offers) <==> exists o :: o in offers && o.cveId == id
    ensures forall id :: id in Fold(offers) ==> Fold(offers)[id].cveId == id && IsMaximum(offers, Fold(offers)[id])
  {
    if offers != [] {
      var front, last := offers[..|offers| - 1], offers[|offers| - 1];
      FoldIsMaximum(front);
      assert offers == front + [last];
      var before, after := Fold(front), Fold(offers);
      forall id | id in after
        ensures after[id].cveId == id && IsMaximum(offers, after[id])
      {
        forall o | o in offers && o.cveId == id
          ensures !Better(o, after[id])
        {
          if o in front {
            assert id in before && !Better(o, before[id]);
          }
        }
      }
    }
  }

  // ---- emission ---------------------------------------------------------------------------------

  type Narrator = Candidate -> Option<string>

  const NO_NARRATOR: Narrator := _ => None

  function ToMatch(c: Candidate, narrator: Narrator): CveMatch {
    CveMatch(c.cveId, c.tier, c.score, c.via, if NeedsLlmRationale(c.tier) then narrator(c) else None)
  }

  /** Strongest tier first, then the CVE id. */
  predicate Before(a: CveMatch, b: CveMatch) {
    TierRank(a.tier) > TierRank(b.tier) || (TierRank(a.tier) == TierRank(b.tier) && StringLess(a.cveId, b.cveId))
  }

  ghost predicate StrictlySorted(ms: seq<CveMatch>) {
    forall i, j :: 0 <= i < j < |ms| ==> Before(ms[i], ms[j])
  }

  /** The emitted list: sorted, and exactly the best candidates. */
  ghost predicate IsResult(offers: seq<Candidate>, narrator: Narrator, ms: seq<CveMatch>) {
    StrictlySorted(ms)
    && forall m :: m in ms <==> exists id :: id in Fold(offers) && m == ToMatch(Fold(offers)[id], narrator)
  }

  lemma BeforeTransitive(a: CveMatch, b: CveMatch, c: CveMatch)
    requires Before(a, b) && Before(b, c)
    ensures Before(a, c)
  {
    if TierRank(a.tier) == TierRank(b.tier) == TierRank(c.tier) {
      StringLessTransitive(a.cveId, b.cveId, c.cveId);
    }
  }

  lemma BeforeTotal(a: CveMatch, b: CveMatch)
    ensures !(Before(a, b) && Before(b, a))
    ensures a.cveId != b.cveId ==> Before(a, b) || Before(b, a)
    ensures !Before(a, a)
  {
    StringLessTotal(a.cveId, b.cveId);
    StringLessTotal(a.cveId, a.cveId);
  }

  /** Put one match where it belongs in a sorted list. */
  method Insert(ms: seq<CveMatch>, m: CveMatch) returns (out: seq<CveMatch>)
    requires StrictlySorted(ms) && forall x :: x in ms ==> x.cveId != m.cveId
    ensures StrictlySorted(out) && forall x :: x in out <==> x in ms || x == m
  {
    var k := 0;
    while k < |ms| && Before(ms[k], m)
      invariant 0 <= k <= |ms|
      invariant forall i :: 0 <= i < k ==> Before(ms[i], m)
    {
      k := k + 1;
    }
    forall i | k <= i < |ms|
      ensures Before(m, ms[i])
    {
      assert ms[k] in ms;
      BeforeTotal(m, ms[k]);
      if i > k {
        BeforeTransitive(m, ms[k], ms[i]);
      }
    }
    out := ms[..k] + [m] + ms[k..];
  }

  method SortedMatches(best: map<string, Candidate>, narrator: Narrator) returns (ms: seq<CveMatch>)
    requires forall id :: id in best ==> best[id].cveId == id
    ensures StrictlySorted(ms)
    ensures forall m :: m in ms <==> exists id :: id in best && m == ToMatch(best[id], narrator)
  {
    ms := [];
    var left := best.Keys;
    while left != {}
      invariant left <= best.Keys && StrictlySorted(ms)
      invariant forall m :: m in ms <==> exists id :: id in best && id !in left && m == ToMatch(best[id], narrator)
      decreases left
    {
      var id :| id in left;
      ms := Insert(ms, ToMatch(best[id], narrator));
      left := left - {id};
    }
  }

  lemma FoldOneMore(offers: seq<Candidate>, c: Candidate)
    ensures Fold(offers + [c]) == Offer(Fold(offers), c)
  {
    assert (offers + [c])[..|offers|] == offers;
  }

  /** Offer every exact match. */
  method OfferExact(best: map<string, Candidate>, records: seq<Record>, text: string, ghost before: seq<Candidate>)
    returns (out: map<string, Candidate>)
    requires best == Fold(before)
    ensures out == Fold(before + ExactCandidates(records, text))
  {
    out := best;
    ghost var all := ExactCandidates(records, text);
    assert before + all[..0] == before;
    for k := 0 to |records|
      invariant out == Fold(before + all[..k])
    {
      var c := Candidate(records[k].cveId, Confirmed, ExactCpe, None, records[k].description, text);
      FoldOneMore(before + all[..k], c);
      assert before + all[..k] + [c] == before + all[..k + 1];
      out := Offer(out, c);
    }
    assert all[..|records|] == all;
  }

  lemma FoldMore(before: seq<Candidate>, soFar: seq<Candidate>, c: Candidate)
    ensures Fold(before + (soFar + [c])) == Offer(Fold(before + soFar), c)
  {
    FoldOneMore(before + soFar, c);
    assert before + soFar + [c] == before + (soFar + [c]);
  }

  lemma SimilarMore(corpus: Corpus, comp: NormalizedComponent, hits: seq<(Record, real)>, k: nat)
    requires k < |hits|
    ensures var (record, score) := hits[k];
      var tier := TierForScore(ThresholdsFor(corpus.overrides, OrFamily(record.family, comp.family)), score);
      var soFar := SimilarCandidates(corpus, comp, hits[..k]);
      SimilarCandidates(corpus, comp, hits[..k + 1]) ==
      if tier == NoMatch then soFar
      else soFar + [Candidate(record.cveId, tier, EmbeddingSimilarity, Some(corpus.round(score)), record.description, comp.rawText)]
  {
    assert hits[..k + 1][..k] == hits[..k];
  }

  /** Offer every similarity hit that reaches a tier. */
  method OfferSimilar(best: map<string, Candidate>, corpus: Corpus, comp: NormalizedComponent, ghost before: seq<Candidate>)
    returns (out: map<string, Candidate>)
    requires best == Fold(before)
    ensures out == Fold(before + SimilarCandidates(corpus, comp, corpus.similar(comp.rawText)))
  {
    out := best;
    var hits := corpus.similar(comp.rawText);
    assert before + SimilarCandidates(corpus, comp, hits[..0]) == before;
    for k := 0 to |hits|
      invariant out == Fold(before + SimilarCandidates(corpus, comp, hits[..k]))
    {
      SimilarMore(corpus, comp, hits, k);
      ghost var soFar := SimilarCandidates(corpus, comp, hits[..k]);
      var (record, score) := hits[k];
      var tier := TierForScore(ThresholdsFor(corpus.overrides, OrFamily(record.family, comp.family)), score);
      if tier != NoMatch {
        var c := Candidate(record.cveId, tier, EmbeddingSimilarity, Some(corpus.round(score)), record.description, comp.rawText);
        FoldMore(before, soFar, c);
        out := Offer(out, c);
      }
    }
    assert hits[..|hits|] == hits;
  }

  /** The SBOM entry of one candidate, if it has a product and a version; the reported version
  stands in where none was recognized. */
  function ResolvedOne(v: VersionCandidate, blob: BlobId): seq<Component> {
    var version := if v.component.version != "" then v.component.version else Strip(v.rawVersion);
    if v.component.product == "" || version == "" then []
    else [Component(v.component.vendor, v.component.product, version, blob)]
  }

  /** The resolved components worth an SBOM entry, in order. */
  function Resolved(vs: seq<VersionCandidate>, blob: BlobId): seq<Component> {
    FlatMap(v => ResolvedOne(v, blob), vs)
  }

  lemma ResolvedMore(vs: seq<VersionCandidate>, blob: BlobId, i: nat)
    requires i < |vs|
    ensures Resolved(vs[..i + 1], blob) == Resolved(vs[..i], blob) + ResolvedOne(vs[i], blob)
  {
    assert vs[..i + 1][..i] == vs[..i];
  }

  ghost predicate ResolvesTo(v: VersionCandidate, blob: BlobId, c: Component) {
    && c.vendor == v.component.vendor && c.product == v.component.product && c.product != ""
    && c.source == blob && c.version != ""
    && (c.version == v.component.version || (v.component.version == "" && c.version == Strip(v.rawVersion)))
  }

  lemma ResolvedIff(vs: seq<VersionCandidate>, blob: BlobId, c: Component)
    ensures c in Resolved(vs, blob) <==> exists v :: v in vs && ResolvesTo(v, blob, c)
  {
    FlatMapMember(v => ResolvedOne(v, blob), vs, c);
    assert forall v :: c in ResolvedOne(v, blob) <==> ResolvesTo(v, blob, c);
  }

  method SbomComponents(vs: seq<VersionCandidate>, blob: BlobId) returns (components: seq<Component>)
    ensures components == Dedup(Resolved(vs, blob))
  {
    components := [];
    for i := 0 to |vs|
      invariant components == Dedup(Resolved(vs[..i], blob))
    {
      ResolvedMore(vs, blob, i);
      var comp := vs[i].component;
      var version := if comp.version != "" then comp.version else Strip(vs[i].rawVersion);
      if comp.product != "" && version != "" {
        var entry := Component(comp.vendor, comp.product, version, blob);
        assert Resolved(vs[..i + 1], blob) == Resolved(vs[..i], blob) + [entry];
        DedupMore(Resolved(vs[..i], blob), entry);
        if entry !in components {
          components := components + [entry];
        }
      } else {
        assert Resolved(vs[..i], blob) + [] == Resolved(vs[..i], blob);
      }
    }
    assert vs[..|vs|] == vs;
  }

  /** The SBOM lists exactly what the candidates resolve to, each entry once and in the order
  of the candidates, and each names the sub-blob it was found in. */
  lemma ResolvedMembers(vs: seq<VersionCandidate>, blob: BlobId)
    ensures var components := Dedup(Resolved(vs, blob));
      && Distinct(components) && InOrderOf(components, Resolved(vs, blob))
      && (forall c :: c in components <==> exists v :: v in vs && ResolvesTo(v, blob, c))
      && forall c :: c in components ==> c.source == blob && c.product != "" && c.version != ""
  {
    var components := Dedup(Resolved(vs, blob));
    DedupKeepsElements(Resolved(vs, blob));
    DedupInOrder(Resolved(vs, blob));
    forall c
      ensures c in components <==> exists v :: v in vs && ResolvesTo(v, blob, c)
    {
      ResolvedIff(vs, blob, c);
    }
  }

  /** Match one sub-blob: the emitted list is strictly sorted, names each CVE once with
  its best candidate, and every entry meets the contract, whatever the narrator says. */
  method MatchSubBlob(corpus: Corpus, vs: seq<VersionCandidate>, blob: BlobId, narrator: Narrator)
    returns (matches: seq<CveMatch>, components: seq<Component>)
    requires corpus.Valid()
    ensures IsResult(AllOffers(corpus, vs), narrator, matches)
    ensures forall m :: m in matches ==> ValidCveMatch(m)
    ensures forall i, j :: 0 <= i < j < |matches| ==> matches[i].cveId != matches[j].cveId
    ensures components == Dedup(Resolved(vs, blob)) && forall c :: c in components ==> c.source == blob
  {
    ResolvedMembers(vs, blob);
    components := SbomComponents(vs, blob);
    var best: map<string, Candidate> := map[];
    for i := 0 to |vs|
      invariant best == Fold(AllOffers(corpus, vs[..i]))
    {
      assert vs[..i + 1][..i] == vs[..i];
      ghost var before := AllOffers(corpus, vs[..i]);
      var records := LookUpAll(corpus, vs[i].component);
      if records != [] {
        best := OfferExact(best, records, vs[i].component.rawText, before);
      } else {
        best := OfferSimilar(best, corpus, vs[i].component, before);
      }
    }
    assert vs[..|vs|] == vs;
    FoldIsMaximum(AllOffers(corpus, vs));
    matches := SortedMatches(best, narrator);
    ResultMeetsContract(corpus, vs, narrator, matches);
  }

  lemma ResultMeetsContract(corpus: Corpus, vs: seq<VersionCandidate>, narrator: Narrator, ms: seq<CveMatch>)
    requires corpus.Valid() && IsResult(AllOffers(corpus, vs), narrator, ms)
    ensures forall m :: m in ms ==> ValidCveMatch(m)
    ensures forall i, j :: 0 <= i < j < |ms| ==> ms[i].cveId != ms[j].cveId
  {
    var offers := AllOffers(corpus, vs);
    FoldIsMaximum(offers);
    OffersSound(corpus, vs);
    forall m | m in ms
      ensures ValidCveMatch(m)
    {
      var id :| id in Fold(offers) && m == ToMatch(Fold(offers)[id], narrator);
      assert Sound(Fold(offers)[id]);
    }
    forall i, j | 0 <= i < j < |ms|
      ensures ms[i].cveId != ms[j].cveId
    {
      assert ms[i] in ms && ms[j] in ms;
      assert Before(ms[i], ms[j]);
      BeforeTotal(ms[i], ms[i]);
    }
  }

  // ---- what is reported, exactly -------------------------------------------------------------------

  /** The order of the tiers, pair by pair. */
  predicate Outranks(a: Tier, b: Tier) {
    match a
    case Confirmed => b != Confirmed
    case HighConfidence => b == Possible || b == LowConfidence || b == NoMatch
    case Possible => b == LowConfidence || b == NoMatch
    case LowConfidence => b == NoMatch
    case NoMatch => false
  }

  /** The emitted entry of a candidate: only weak tiers carry the narrator's answer. */
  ghost predicate EntryOf(m: CveMatch, x: Candidate, narrator: Narrator) {
    && m.cveId == x.cveId && m.tier == x.tier && m.score == x.score && m.via == x.via
    && m.rationale == if m.tier == Possible || m.tier == LowConfidence then narrator(x) else None
  }

  /** Offered, and no offer for the same CVE has a higher tier, or the same tier and a higher
  score. */
  ghost predicate BestOffer(c: Corpus, vs: seq<VersionCandidate>, x: Candidate) {
    && Offered(c, vs, x)
    && forall y :: Offered(c, vs, y) && y.cveId == x.cveId ==>
         && !Outranks(y.tier, x.tier)
         && (y.tier == x.tier && y.score.Some? && x.score.Some? ==> y.score.value <= x.score.value)
  }

  lemma NotBetter(y: Candidate, x: Candidate)
    requires !Better(y, x)
    ensures !Outranks(y.tier, x.tier)
    ensures y.tier == x.tier && y.score.Some? && x.score.Some? ==> y.score.value <= x.score.value
  {
  }

  lemma OfferIsNotBetter(c: Corpus, vs: seq<VersionCandidate>, x: Candidate, y: Candidate)
    requires IsMaximum(AllOffers(c, vs), x) && y in AllOffers(c, vs) && y.cveId == x.cveId
    ensures !Better(y, x)
  {
  }

  lemma MaximumIsBest(c: Corpus, vs: seq<VersionCandidate>, x: Candidate)
    requires IsMaximum(AllOffers(c, vs), x)
    ensures BestOffer(c, vs, x)
  {
    AllOffersIff(c, vs, x);
    forall y | Offered(c, vs, y) && y.cveId == x.cveId
      ensures !Outranks(y.tier, x.tier)
      ensures y.tier == x.tier && y.score.Some? && x.score.Some? ==> y.score.value <= x.score.value
    {
      AllOffersIff(c, vs, y);
      OfferIsNotBetter(c, vs, x, y);
      NotBetter(y, x);
    }
  }

  /** Every entry is that of a best offer. */
  ghost predicate EntriesAreBest(c: Corpus, vs: seq<VersionCandidate>, narrator: Narrator, ms: seq<CveMatch>) {
    forall m :: m in ms ==> exists x :: BestOffer(c, vs, x) && EntryOf(m, x, narrator)
  }

  /** Every CVE that is offered has its entry. */
  ghost predicate OffersHaveEntries(c: Corpus, vs: seq<VersionCandidate>, ms: seq<CveMatch>) {
    forall x :: Offered(c, vs, x) ==> exists m :: m in ms && m.cveId == x.cveId
  }

  lemma FoldEntriesAreBest(c: Corpus, vs: seq<VersionCandidate>, narrator: Narrator, ms: seq<CveMatch>)
    requires IsResult(AllOffers(c, vs), narrator, ms)
    ensures EntriesAreBest(c, vs, narrator, ms)
  {
    var offers := AllOffers(c, vs);
    FoldIsMaximum(offers);
    forall m | m in ms
      ensures exists x :: BestOffer(c, vs, x) && EntryOf(m, x, narrator)
    {
      var id :| id in Fold(offers) && m == ToMatch(Fold(offers)[id], narrator);
      MaximumIsBest(c, vs, Fold(offers)[id]);
      assert EntryOf(m, Fold(offers)[id], narrator);
    }
  }

  /** The report of a sub-blob names exactly the offered CVEs, each with a best offer. */
  lemma ReportsBestOffers(c: Corpus, vs: seq<VersionCandidate>, narrator: Narrator, ms: seq<CveMatch>)
    requires IsResult(AllOffers(c, vs), narrator, ms)
    ensures EntriesAreBest(c, vs, narrator, ms) && OffersHaveEntries(c, vs, ms)
  {
    FoldEntriesAreBest(c, vs, narrator, ms);
    forall x | Offered(c, vs, x)
      ensures exists m :: m in ms && m.cveId == x.cveId
    {
      var m := EntryOfOffer(c, vs, narrator, ms, x);
    }
  }

  ghost predicate HasConfirmed(ms: seq<CveMatch>, id: string) {
    exists m :: m in ms && m.cveId == id && m.tier == Confirmed
  }

  ghost predicate HasExactRow(c: Corpus, vs: seq<VersionCandidate>, id: string) {
    exists v, r :: v in vs && ExactFor(c, v, r) && r.cveId == id
  }

  /** A CVE is reported as confirmed exactly when one of its rows is stored under a candidate
  name of some component. */
  lemma ConfirmedIffExact(c: Corpus, vs: seq<VersionCandidate>, narrator: Narrator, ms: seq<CveMatch>, id: string)
    requires IsResult(AllOffers(c, vs), narrator, ms)
    ensures HasConfirmed(ms, id) <==> HasExactRow(c, vs, id)
  {
    if HasConfirmed(ms, id) {
      var m :| m in ms && m.cveId == id && m.tier == Confirmed;
      var x := BestOfEntry(c, vs, narrator, ms, m);
      OfferedConfirmed(c, vs, x);
    }
    if HasExactRow(c, vs, id) {
      var x := ExactOfRow(c, vs, id);
      var m := EntryOfOffer(c, vs, narrator, ms, x);
      var y := BestOfEntry(c, vs, narrator, ms, m);
      BestIsConfirmed(c, vs, x, y);
    }
  }

  lemma BestOfEntry(c: Corpus, vs: seq<VersionCandidate>, narrator: Narrator, ms: seq<CveMatch>, m: CveMatch) returns (x: Candidate)
    requires IsResult(AllOffers(c, vs), narrator, ms) && m in ms
    ensures BestOffer(c, vs, x) && EntryOf(m, x, narrator)
  {
    FoldEntriesAreBest(c, vs, narrator, ms);
    x :| BestOffer(c, vs, x) && EntryOf(m, x, narrator);
  }

  lemma EntryOfOffer(c: Corpus, vs: seq<VersionCandidate>, narrator: Narrator, ms: seq<CveMatch>, x: Candidate) returns (m: CveMatch)
    requires IsResult(AllOffers(c, vs), narrator, ms) && Offered(c, vs, x)
    ensures m in ms && m.cveId == x.cveId
  {
    AllOffersIff(c, vs, x);
    FoldIsMaximum(AllOffers(c, vs));
    m := ToMatch(Fold(AllOffers(c, vs))[x.cveId], narrator);
    assert m in ms;
  }

  lemma ExactOfRow(c: Corpus, vs: seq<VersionCandidate>, id: string) returns (x: Candidate)
    requires HasExactRow(c, vs, id)
    ensures Offered(c, vs, x) && x.cveId == id && x.tier == Confirmed
  {
    var v, r :| v in vs && ExactFor(c, v, r) && r.cveId == id;
    x := Candidate(r.cveId, Confirmed, ExactCpe, None, r.description, v.component.rawText);
    assert ExactOffer(c, v, x);
  }

  lemma BestIsConfirmed(c: Corpus, vs: seq<VersionCandidate>, x: Candidate, y: Candidate)
    requires Offered(c, vs, x) && x.tier == Confirmed && BestOffer(c, vs, y) && y.cveId == x.cveId
    ensures y.tier == Confirmed
  {
    assert !Outranks(x.tier, y.tier);
  }

  lemma OfferedConfirmed(c: Corpus, vs: seq<VersionCandidate>, x: Candidate)
    requires Offered(c, vs, x) && x.tier == Confirmed
    ensures HasExactRow(c, vs, x.cveId)
  {
    var v :| v in vs && (ExactOffer(c, v, x) || SimilarOffer(c, v, x));
    ConfirmedIsExact(c, v, x);
  }

  lemma ConfirmedIsExact(c: Corpus, v: VersionCandidate, x: Candidate)
    requires x.tier == Confirmed && (ExactOffer(c, v, x) || SimilarOffer(c, v, x))
    ensures exists r :: ExactFor(c, v, r) && r.cveId == x.cveId
  {
  }

  /** Stronger tiers come first, and within a tier the ids stand in dictionary order. */
  lemma SortedByTierAndId(ms: seq<CveMatch>, i: nat, j: nat)
    requires StrictlySorted(ms) && i < j < |ms|
    ensures Outranks(ms[i].tier, ms[j].tier) || (ms[i].tier == ms[j].tier && exists k: nat :: LessAt(ms[i].cveId, ms[j].cveId, k))
  {
    assert Before(ms[i], ms[j]);
    StringLessIff(ms[i].cveId, ms[j].cveId);
  }

  // ---- the order of the version candidates does not matter -----------------------------------------

  /** Two maxima for one CVE emit the same entry when nothing is narrated. */
  lemma MaximaAgree(offers: seq<Candidate>, a: Candidate, b: Candidate)
    requires Sound(a) && Sound(b) && a.cveId == b.cveId && IsMaximum(offers, a) && IsMaximum(offers, b)
    ensures ToMatch(a, NO_NARRATOR) == ToMatch(b, NO_NARRATOR)
  {
  }

  lemma {:induction false} SortedUnique(ms: seq<CveMatch>, ns: seq<CveMatch>)
    requires StrictlySorted(ms) && StrictlySorted(ns) && forall m :: m in ms <==> m in ns
    ensures ms == ns
  {
    assert ms == [] || ms[0] in ns;
    assert ns == [] || ns[0] in ms;
    if ms != [] {
      HeadsAgree(ms, ns);
      forall m
        ensures m in ms[1..] <==> m in ns[1..]
      {
        TailMember(ms, m);
        TailMember(ns, m);
      }
      SortedUnique(ms[1..], ns[1..]);
    }
  }

  lemma TailMember(ms: seq<CveMatch>, m: CveMatch)
    requires StrictlySorted(ms) && ms != []
    ensures m in ms[1..] <==> m in ms && m != ms[0]
  {
    if m in ms[1..] {
      var k :| 0 <= k < |ms[1..]| && ms[1..][k] == m;
      assert Before(ms[0], ms[k + 1]);
      BeforeTotal(m, m);
    }
    assert ms == [ms[0]] + ms[1..];
  }

  lemma HeadsAgree(ms: seq<CveMatch>, ns: seq<CveMatch>)
    requires StrictlySorted(ms) && StrictlySorted(ns) && ms != [] && ns != [] && ms[0] in ns && ns[0] in ms
    ensures ms[0] == ns[0]
  {
    BeforeTotal(ms[0], ns[0]);
  }

  lemma SameEntries(c: Corpus, vs: seq<VersionCandidate>, ws: seq<VersionCandidate>)
    requires c.Valid()
    requires forall x :: x in AllOffers(c, vs) <==> x in AllOffers(c, ws)
    ensures var f, g := Fold(AllOffers(c, vs)), Fold(AllOffers(c, ws));
      forall id :: (id in f <==> id in g) && (id in f ==> ToMatch(f[id], NO_NARRATOR) == ToMatch(g[id], NO_NARRATOR))
  {
    var a, b := AllOffers(c, vs), AllOffers(c, ws);
    FoldIsMaximum(a);
    FoldIsMaximum(b);
    OffersSound(c, vs);
    OffersSound(c, ws);
    forall id | id in Fold(a)
      ensures id in Fold(b) && ToMatch(Fold(a)[id], NO_NARRATOR) == ToMatch(Fold(b)[id], NO_NARRATOR)
    {
      assert Fold(a)[id] in b;
      MaximaAgree(a, Fold(a)[id], Fold(b)[id]);
    }
    forall id | id in Fold(b)
      ensures id in Fold(a)
    {
      assert Fold(b)[id] in a;
    }
  }

  lemma SameResult(c: Corpus, vs: seq<VersionCandidate>, ws: seq<VersionCandidate>, m: CveMatch)
    requires c.Valid() && forall x :: x in AllOffers(c, vs) <==> x in AllOffers(c, ws)
    requires exists id :: id in Fold(AllOffers(c, vs)) && m == ToMatch(Fold(AllOffers(c, vs))[id], NO_NARRATOR)
    ensures exists id :: id in Fold(AllOffers(c, ws)) && m == ToMatch(Fold(AllOffers(c, ws))[id], NO_NARRATOR)
  {
    SameEntries(c, vs, ws);
    var id :| id in Fold(AllOffers(c, vs)) && m == ToMatch(Fold(AllOffers(c, vs))[id], NO_NARRATOR);
    assert id in Fold(AllOffers(c, ws));
  }

  /** Without a narrator the emitted list depends only on which version candidates there
  are, not on their order or repetition. */
  lemma OrderIrrelevant(c: Corpus, vs: seq<VersionCandidate>, ws: seq<VersionCandidate>, ms: seq<CveMatch>, ns: seq<CveMatch>)
    requires c.Valid() && forall v :: v in vs <==> v in ws
    requires IsResult(AllOffers(c, vs), NO_NARRATOR, ms) && IsResult(AllOffers(c, ws), NO_NARRATOR, ns)
    ensures ms == ns
  {
    FlatMapMembers(v => Offers(c, v), vs, ws);
    forall m
      ensures m in ms <==> m in ns
    {
      if m in ms {
        SameResult(c, vs, ws, m);
      }
      if m in ns {
        SameResult(c, ws, vs, m);
      }
    }
    SortedUnique(ms, ns);
  }
}
