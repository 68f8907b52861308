/** Pulling the vulnerability feed page by page and upserting it, batch by batch, into
the corpus. */
module Etl {
  import opened Collections
  import opened Normalize

  datatype Cve = Cve(id: string, description: string, cpes: seq<string>)

  datatype CveRecord = CveRecord(cveId: string, cpe: string, description: string, family: Option<string>, embedding: seq<real>)

  type Key = (string, string)

  function KeyOf(r: CveRecord): Key {
    (r.cveId, r.cpe)
  }

  // ---- one CVE ----------------------------------------------------------------------------

  /** The embedding model: the vector of a record's identity and description. */
  type Embedder = (string, string, string) -> seq<real>

  /** One record per scoped CPE; a CVE without an id gives none. */
  function RecordsOf(cve: Cve, embed: Embedder): seq<CveRecord> {
    if cve.id == "" then []
    else
      var scoped := Scoped(cve.cpes);
      seq(|scoped|, i requires 0 <= i < |scoped| =>
        CveRecord(cve.id, scoped[i], cve.description, FamilyForCpe(scoped[i]), embed(cve.id, scoped[i], cve.description)))
  }

  /** Every record is in scope, carries its CVE's id and description, the family of its name
  and the embedding of these, no key repeats, and every in-scope CPE of the CVE has its
  record. */
  lemma RecordsCover(cve: Cve, embed: Embedder)
    ensures forall r :: r in RecordsOf(cve, embed) ==>
              && r.family.Some? && r.family == FamilyForCpe(r.cpe) && r.cveId == cve.id
              && r.description == cve.description && r.embedding == embed(r.cveId, r.cpe, r.description)
    ensures var rs := RecordsOf(cve, embed); forall i, j :: 0 <= i < j < |rs| ==> rs[i].cpe != rs[j].cpe && KeyOf(rs[i]) != KeyOf(rs[j])
    ensures cve.id != "" ==> forall s :: ScopedFrom(cve.cpes, s) <==> exists r :: r in RecordsOf(cve, embed) && r.cpe == s
    ensures cve.id == "" ==> RecordsOf(cve, embed) == []
  {
    ScopedMembers(cve.cpes);
    if cve.id != "" {
      var scoped, rs := Scoped(cve.cpes), RecordsOf(cve, embed);
      forall s
        ensures s in scoped <==> exists r :: r in rs && r.cpe == s
      {
        if s in scoped {
          var k :| 0 <= k < |scoped| && scoped[k] == s;
          assert rs[k] in rs && rs[k].cpe == s;
        }
      }
    }
  }

  method RecordsFromCve(cve: Cve, embed: Embedder) returns (records: seq<CveRecord>)
    ensures records == RecordsOf(cve, embed)
  {
    records := [];
    if cve.id == "" {
      return;
    }
    var scoped := InScopeCpes(cve.cpes);
    for i := 0 to |scoped|
      invariant records == RecordsOf(cve, embed)[..i]
    {
      records := records + [CveRecord(cve.id, scoped[i], cve.description, FamilyForCpe(scoped[i]),
                                      embed(cve.id, scoped[i], cve.description))];
    }
  }

  function AllRecords(cves: seq<Cve>, embed: Embedder): seq<CveRecord> {
    if cves == [] then [] else AllRecords(cves[..|cves| - 1], embed) + RecordsOf(cves[|cves| - 1], embed)
  }

  // ---- upserting -----------------------------------------------------------------------------

  function UpsertAll(rows: map<Key, CveRecord>, rs: seq<CveRecord>): map<Key, CveRecord> {
    if rs == [] then rows
    else UpsertAll(rows, rs[..|rs| - 1])[KeyOf(rs[|rs| - 1]) := rs[|rs| - 1]]
  }

  lemma {:induction false} UpsertAppend(rows: map<Key, CveRecord>, a: seq<CveRecord>, b: seq<CveRecord>)
    ensures UpsertAll(rows, a + b) == UpsertAll(UpsertAll(rows, a), b)
  {
    if b == [] {
      assert a + b == a;
    } else {
      UpsertAppend(rows, a, b[..|b| - 1]);
      assert (a + b)[..|a + b| - 1] == a + b[..|b| - 1];
    }
  }

  /** Upserting touches only the keys of the records, and those no longer depend on what
  was there. */
  lemma {:induction false} UpsertDecides(rows: map<Key, CveRecord>, other: map<Key, CveRecord>, rs: seq<CveRecord>, k: Key)
    ensures k in UpsertAll(rows, rs) <==> k in rows || exists r :: r in rs && KeyOf(r) == k
    ensures (exists r :: r in rs && KeyOf(r) == k) ==>
              k in UpsertAll(rows, rs) && k in UpsertAll(other, rs) && UpsertAll(rows, rs)[k] == UpsertAll(other, rs)[k]
    ensures !(exists r :: r in rs && KeyOf(r) == k) && k in rows ==> UpsertAll(rows, rs)[k] == rows[k]
  {
    if rs != [] {
      var front, last := rs[..|rs| - 1], rs[|rs| - 1];
      UpsertDecides(rows, other, front, k);
      assert rs == front + [last];
      if KeyOf(last) == k {
        assert last in rs;
      } else {
        assert (exists r :: r in rs && KeyOf(r) == k) ==> exists r :: r in front && KeyOf(r) == k;
        assert (exists r :: r in front && KeyOf(r) == k) ==> exists r :: r in rs && KeyOf(r) == k by {
          if r :| r in front && KeyOf(r) == k {
            assert r in rs;
          }
        }
      }
    }
  }

  /** For each CVE and name the row is the last record that was upserted for them. */
  lemma {:induction false} LastWins(rows: map<Key, CveRecord>, rs: seq<CveRecord>, i: nat)
    requires i < |rs| && forall j :: i < j < |rs| ==> rs[j].cveId != rs[i].cveId || rs[j].cpe != rs[i].cpe
    ensures (rs[i].cveId, rs[i].cpe) in UpsertAll(rows, rs) && UpsertAll(rows, rs)[(rs[i].cveId, rs[i].cpe)] == rs[i]
  {
    if i < |rs| - 1 {
      LastWins(rows, rs[..|rs| - 1], i);
    }
  }

  /** Ingesting the same records again changes nothing. */
  lemma UpsertTwice(rows: map<Key, CveRecord>, rs: seq<CveRecord>)
    ensures UpsertAll(UpsertAll(rows, rs), rs) == UpsertAll(rows, rs)
  {
    var once := UpsertAll(rows, rs);
    var twice := UpsertAll(once, rs);
    forall k
      ensures (k in twice <==> k in once) && (k in once ==> twice[k] == once[k])
    {
      UpsertDecides(rows, once, rs, k);
      UpsertDecides(once, rows, rs, k);
    }
  }

  class InMemoryCorpus {
    var rows: map<Key, CveRecord>

    constructor ()
      ensures rows == map[]
    {
      rows := map[];
    }

    method Upsert(rs: seq<CveRecord>) returns (count: nat)
      modifies this
      ensures rows == UpsertAll(old(rows), rs) && count == |rs|
    {
      for i := 0 to |rs|
        invariant rows == UpsertAll(old(rows), rs[..i])
      {
        assert rs[..i + 1][..i] == rs[..i];
        rows := rows[KeyOf(rs[i]) := rs[i]];
      }
      assert rs[..|rs|] == rs;
      count := |rs|;
    }
  }

  // ---- counting per family ----------------------------------------------------------------------

  ghost function Sum(m: map<string, nat>): nat
    decreases |m|
  {
    if m == map[] then 0
    else
      var k :| k in m;
      m[k] + Sum(m - {k})
  }

  lemma {:induction false} SumSplit(m: map<string, nat>, k: string)
    requires k in m
    ensures Sum(m) == m[k] + Sum(m - {k})
    decreases |m|
  {
    var j :| j in m && Sum(m) == m[j] + Sum(m - {j});
    if j != k {
      SumSplit(m - {j}, k);
      SumSplit(m - {k}, j);
      assert m - {j} - {k} == m - {k} - {j};
    }
  }

  function CountOne(families: map<string, nat>, f: string): map<string, nat> {
    families[f := Get(families, f, 0) + 1]
  }

  lemma SumCountOne(families: map<string, nat>, f: string)
    ensures Sum(CountOne(families, f)) == Sum(families) + 1
  {
    var after := CountOne(families, f);
    SumSplit(after, f);
    assert after - {f} == families - {f};
    if f in families {
      SumSplit(families, f);
    } else {
      assert families - {f} == families;
    }
  }

  function CountFamily(rs: seq<CveRecord>, f: string): nat {
    if rs == [] then 0
    else CountFamily(rs[..|rs| - 1], f) + (if rs[|rs| - 1].family == Some(f) then 1 else 0)
  }

  lemma {:induction false} CountFamilyAppend(a: seq<CveRecord>, b: seq<CveRecord>, f: string)
    ensures CountFamily(a + b, f) == CountFamily(a, f) + CountFamily(b, f)
  {
    if b == [] {
      assert a + b == a;
    } else {
      CountFamilyAppend(a, b[..|b| - 1], f);
      assert (a + b)[..|a + b| - 1] == a + b[..|b| - 1];
    }
  }

  ghost function FamilyPlaces(rs: seq<CveRecord>, f: string): set<nat> {
    set i: nat | i < |rs| && rs[i].family == Some(f)
  }

  lemma FamilyPlacesStep(rs: seq<CveRecord>, f: string, n: nat)
    requires |rs| == n + 1
    ensures n !in FamilyPlaces(rs[..n], f)
    ensures FamilyPlaces(rs, f) == FamilyPlaces(rs[..n], f) + (if rs[n].family == Some(f) then {n} else {})
  {
  }

  /** The count is the number of places where a record of the family stands. */
  lemma {:induction false} CountFamilyIs(rs: seq<CveRecord>, f: string)
    ensures CountFamily(rs, f) == |FamilyPlaces(rs, f)|
  {
    if rs != [] {
      var n: nat := |rs| - 1;
      CountFamilyIs(rs[..n], f);
      FamilyPlacesStep(rs, f, n);
    }
  }

  /** `families` counts the records `rs` by family. */
  ghost predicate Counts(families: map<string, nat>, rs: seq<CveRecord>) {
    && (forall f :: Get(families, f, 0) == CountFamily(rs, f))
    && Sum(families) == |rs|
  }

  method CountFamilies(families: map<string, nat>, rs: seq<CveRecord>) returns (out: map<string, nat>)
    requires forall r :: r in rs ==> r.family.Some?
    ensures forall f :: Get(out, f, 0) == Get(families, f, 0) + CountFamily(rs, f)
    ensures Sum(out) == Sum(families) + |rs|
  {
    out := families;
    for i := 0 to |rs|
      invariant forall f :: Get(out, f, 0) == Get(families, f, 0) + CountFamily(rs[..i], f)
      invariant Sum(out) == Sum(families) + i
    {
      assert rs[..i + 1][..i] == rs[..i];
      assert rs[i] in rs;
      SumCountOne(out, rs[i].family.value);
      out := CountOne(out, rs[i].family.value);
    }
    assert rs[..|rs|] == rs;
  }

  method CountMore(families: map<string, nat>, ghost done: seq<CveRecord>, rs: seq<CveRecord>) returns (out: map<string, nat>)
    requires Counts(families, done)
    requires forall r :: r in rs ==> r.family.Some?
    ensures Counts(out, done + rs)
  {
    out := CountFamilies(families, rs);
    forall f
      ensures Get(out, f, 0) == CountFamily(done + rs, f)
    {
      CountFamilyAppend(done, rs, f);
    }
  }

  // ---- ingest -----------------------------------------------------------------------------------

  method Flush(corpus: InMemoryCorpus, batch: seq<CveRecord>, ghost start: map<Key, CveRecord>, ghost flushed: seq<CveRecord>, upserted: nat)
    returns (batch': seq<CveRecord>, ghost flushed': seq<CveRecord>, upserted': nat)
    requires corpus.rows == UpsertAll(start, flushed) && upserted == |flushed|
    modifies corpus
    ensures batch' == [] && flushed' == flushed + batch
    ensures corpus.rows == UpsertAll(start, flushed') && upserted' == |flushed'|
  {
    upserted' := upserted;
    UpsertAppend(start, flushed, batch);
    if batch != [] {
      var n := corpus.Upsert(batch);
      upserted' := upserted' + n;
    }
    batch', flushed' := [], flushed + batch;
  }

  /** One round of the ingest loop: count the records of a CVE, queue them, and flush a
  full batch. */
  method IngestOne(corpus: InMemoryCorpus, cve: Cve, embed: Embedder, batchSize: int, batch: seq<CveRecord>,
                   families: map<string, nat>, upserted: nat, ghost start: map<Key, CveRecord>, ghost flushed: seq<CveRecord>)
    returns (batch': seq<CveRecord>, families': map<string, nat>, upserted': nat, ghost flushed': seq<CveRecord>)
    requires corpus.rows == UpsertAll(start, flushed) && upserted == |flushed|
    requires Counts(families, flushed + batch)
    modifies corpus
    ensures corpus.rows == UpsertAll(start, flushed') && upserted' == |flushed'|
    ensures flushed' + batch' == flushed + batch + RecordsOf(cve, embed)
    ensures Counts(families', flushed' + batch')
  {
    var recs := RecordsFromCve(cve, embed);
    RecordsCover(cve, embed);
    families' := CountMore(families, flushed + batch, recs);
    assert flushed + (batch + recs) == flushed + batch + recs;
    batch', flushed', upserted' := batch + recs, flushed, upserted;
    if |batch'| >= batchSize {
      batch', flushed', upserted' := Flush(corpus, batch', start, flushed, upserted);
      assert flushed' + [] == flushed';
    }
  }

  /** Whatever the batch size, ingesting leaves the corpus of record-by-record upserts;
  the family counts count exactly the upserted records and add up to their number. */
  method IngestCves(corpus: InMemoryCorpus, cves: seq<Cve>, embed: Embedder, batchSize: int)
    returns (seen: nat, upserted: nat, families: map<string, nat>)
    modifies corpus
    ensures corpus.rows == UpsertAll(old(corpus.rows), AllRecords(cves, embed))
    ensures seen == |cves| && upserted == |AllRecords(cves, embed)|
    ensures Counts(families, AllRecords(cves, embed))
  {
    seen, upserted, families := 0, 0, map[];
    var batch: seq<CveRecord> := [];
    ghost var flushed: seq<CveRecord> := [];
    for i := 0 to |cves|
      invariant seen == i
      invariant flushed + batch == AllRecords(cves[..i], embed)
      invariant corpus.rows == UpsertAll(old(corpus.rows), flushed) && upserted == |flushed|
      invariant Counts(families, flushed + batch)
    {
      AllRecordsStep(cves, i, embed);
      seen := seen + 1;
      batch, families, upserted, flushed :=
        IngestOne(corpus, cves[i], embed, batchSize, batch, families, upserted, old(corpus.rows), flushed);
    }
    assert cves[..|cves|] == cves;
    batch, flushed, upserted := Flush(corpus, batch, old(corpus.rows), flushed, upserted);
  }

  lemma AllRecordsStep(cves: seq<Cve>, i: nat, embed: Embedder)
    requires i < |cves|
    ensures AllRecords(cves[..i + 1], embed) == AllRecords(cves[..i], embed) + RecordsOf(cves[i], embed)
  {
    assert cves[..i + 1][..i] == cves[..i];
  }

  // ---- what the corpus holds afterwards ------------------------------------------------------------

  /** The CVE has this id and this name in scope. */
  ghost predicate Names(cve: Cve, id: string, s: string) {
    cve.id == id && id != "" && ScopedFrom(cve.cpes, s)
  }

  lemma RecordOfName(cve: Cve, embed: Embedder, id: string, s: string)
    ensures (exists r :: r in RecordsOf(cve, embed) && KeyOf(r) == (id, s)) <==> Names(cve, id, s)
  {
    RecordsCover(cve, embed);
    if Names(cve, id, s) {
      var r :| r in RecordsOf(cve, embed) && r.cpe == s;
      assert KeyOf(r) == (id, s);
    }
  }

  lemma UpsertOne(rows: map<Key, CveRecord>, cve: Cve, embed: Embedder, id: string, s: string)
    ensures var after := UpsertAll(rows, RecordsOf(cve, embed));
      && ((id, s) in after <==> (id, s) in rows || Names(cve, id, s))
      && (Names(cve, id, s) ==> after[(id, s)] == CveRecord(id, s, cve.description, FamilyForCpe(s), embed(id, s, cve.description)))
      && (!Names(cve, id, s) && (id, s) in rows ==> after[(id, s)] == rows[(id, s)])
  {
    var rs := RecordsOf(cve, embed);
    RecordOfName(cve, embed, id, s);
    UpsertDecides(rows, rows, rs, (id, s));
    if Names(cve, id, s) {
      RecordsCover(cve, embed);
      var r :| r in rs && KeyOf(r) == (id, s);
      var k :| 0 <= k < |rs| && rs[k] == r;
      LastWins(rows, rs, k);
    }
  }

  /** The last object that names this. */
  ghost function LatestOf(cves: seq<Cve>, id: string, s: string): Option<Cve> {
    if cves == [] then None
    else if Names(cves[|cves| - 1], id, s) then Some(cves[|cves| - 1])
    else LatestOf(cves[..|cves| - 1], id, s)
  }

  ghost predicate IsLatest(cves: seq<Cve>, i: nat, id: string, s: string) {
    i < |cves| && Names(cves[i], id, s) && forall j :: i < j < |cves| ==> !Names(cves[j], id, s)
  }

  lemma {:induction false} LatestOfIs(cves: seq<Cve>, i: nat, id: string, s: string)
    requires IsLatest(cves, i, id, s)
    ensures LatestOf(cves, id, s) == Some(cves[i])
  {
    var front := cves[..|cves| - 1];
    if i < |front| {
      assert !Names(cves[|front|], id, s);
      assert forall j :: 0 <= j < |front| ==> cves[j] == front[j];
      LatestOfIs(front, i, id, s);
    }
  }

  lemma {:induction false} NoLatest(cves: seq<Cve>, id: string, s: string)
    requires forall c :: c in cves ==> !Names(c, id, s)
    ensures LatestOf(cves, id, s) == None
  {
    if cves != [] {
      assert cves[|cves| - 1] in cves;
      NoLatest(cves[..|cves| - 1], id, s);
    }
  }

  lemma {:induction false} SomeLatest(cves: seq<Cve>, c: Cve, id: string, s: string) returns (i: nat)
    requires c in cves && Names(c, id, s)
    ensures IsLatest(cves, i, id, s)
  {
    i := |cves| - 1;
    if !Names(cves[i], id, s) {
      var front := cves[..i];
      assert cves == front + [cves[i]];
      i := SomeLatest(front, c, id, s);
    }
  }

  ghost predicate RowIs(before: map<Key, CveRecord>, after: map<Key, CveRecord>, latest: Option<Cve>, embed: Embedder, id: string, s: string) {
    match latest
    case None => ((id, s) in after <==> (id, s) in before) && ((id, s) in before ==> after[(id, s)] == before[(id, s)])
    case Some(cve) =>
      && (id, s) in after
      && after[(id, s)] == CveRecord(id, s, cve.description, FamilyForCpe(s), embed(id, s, cve.description))
  }

  lemma {:induction false} RowAfter(rows: map<Key, CveRecord>, cves: seq<Cve>, embed: Embedder, id: string, s: string)
    ensures RowIs(rows, UpsertAll(rows, AllRecords(cves, embed)), LatestOf(cves, id, s), embed, id, s)
  {
    if cves != [] {
      var front, last := cves[..|cves| - 1], cves[|cves| - 1];
      RowAfter(rows, front, embed, id, s);
      UpsertAppend(rows, AllRecords(front, embed), RecordsOf(last, embed));
      UpsertOne(UpsertAll(rows, AllRecords(front, embed)), last, embed, id, s);
    }
  }

  /** After ingesting, the row of a CVE and a name is made from the last object with this id
  that has the name in scope; without one it is the row that was there, if any. */
  lemma CorpusHolds(rows: map<Key, CveRecord>, cves: seq<Cve>, embed: Embedder, id: string, s: string)
    ensures var after := UpsertAll(rows, AllRecords(cves, embed));
      && ((forall c :: c in cves ==> !Names(c, id, s)) ==> RowIs(rows, after, None, embed, id, s))
      && (forall i: nat :: IsLatest(cves, i, id, s) ==> RowIs(rows, after, Some(cves[i]), embed, id, s))
      && ((exists c :: c in cves && Names(c, id, s)) ==> exists i: nat :: IsLatest(cves, i, id, s))
  {
    RowAfter(rows, cves, embed, id, s);
    if c :| c in cves && Names(c, id, s) {
      var i := SomeLatest(cves, c, id, s);
    } else {
      NoLatest(cves, id, s);
    }
    forall i: nat | IsLatest(cves, i, id, s)
      ensures LatestOf(cves, id, s) == Some(cves[i])
    {
      LatestOfIs(cves, i, id, s);
    }
  }

  // ---- paging ------------------------------------------------------------------------------------

  datatype Page = Page(items: seq<Cve>, total: Option<nat>)

  /** A server that answers with some non-empty slice at `startIndex` while there is one,
  with nothing past the end, and never misreports the total. */
  ghost predicate Serves(fetch: nat -> Page, db: seq<Cve>) {
    forall start: nat ::
      var page := fetch(start);
      && (page.total.Some? ==> page.total.value == |db|)
      && (start < |db| ==> page.items != [] && start + |page.items| <= |db| && page.items == db[start..start + |page.items|])
      && (start >= |db| ==> page.items == [])
  }

  /** How many objects a limit lets through: at least one is yielded before it is tested. */
  function Limit(maxRecords: Option<int>, total: nat): nat {
    if maxRecords.None? || maxRecords.value >= total then total
    else if maxRecords.value < 1 then (if total > 0 then 1 else 0)
    else maxRecords.value
  }

  /** A limit is kept if and only if it is at least one or there is nothing to yield. */
  lemma LimitKeptIff(k: int, total: nat)
    ensures Limit(Some(k), total) <= (if k > 0 then k else 0) <==> k >= 1 || total == 0
  {
  }

  /** Paging terminates and yields exactly the first objects, once each and in order. */
  method FetchNvd(fetch: nat -> Page, maxRecords: Option<int>, ghost db: seq<Cve>) returns (out: seq<Cve>)
    requires Serves(fetch, db)
    ensures out == db[..Limit(maxRecords, |db|)]
    ensures maxRecords.None? ==> out == db
    ensures maxRecords.Some? && maxRecords.value >= 1 ==> |out| == if maxRecords.value <= |db| then maxRecords.value else |db|
    ensures maxRecords.Some? && maxRecords.value < 1 ==> |out| == if |db| > 0 then 1 else 0
  {
    out := [];
    var startIndex: nat := 0;
    var total: Option<nat> := None;
    while true
      invariant startIndex <= Limit(maxRecords, |db|)
      invariant startIndex > 0 && maxRecords.Some? ==> startIndex < maxRecords.value
      invariant out == db[..startIndex]
      invariant total.Some? ==> total.value == |db| && startIndex < |db|
      decreases |db| - startIndex
    {
      var page := fetch(startIndex);
      if total.None? {
        total := page.total;
      }
      ghost var pageStart := startIndex;
      var count := 0;
      for i := 0 to |page.items|
        invariant startIndex == pageStart + i && count == i
        invariant startIndex <= Limit(maxRecords, |db|)
        invariant startIndex > 0 && maxRecords.Some? ==> startIndex < maxRecords.value
        invariant out == db[..startIndex]
      {
        assert page.items[i] == db[startIndex];
        out := out + [page.items[i]];
        count, startIndex := count + 1, startIndex + 1;
        if maxRecords.Some? && startIndex >= maxRecords.value {
          return;
        }
      }
      if count == 0 {
        return;
      }
      if total.Some? && startIndex >= total.value {
        return;
      }
    }
  }

  /** A full ingest: fetch, then ingest in batches of 200. */
  method RunFullEtl(corpus: InMemoryCorpus, fetch: nat -> Page, maxRecords: Option<int>, embed: Embedder, ghost db: seq<Cve>)
    returns (upserted: nat)
    requires Serves(fetch, db)
    modifies corpus
    ensures corpus.rows == UpsertAll(old(corpus.rows), AllRecords(db[..Limit(maxRecords, |db|)], embed))
    ensures upserted == |AllRecords(db[..Limit(maxRecords, |db|)], embed)|
  {
    var cves := FetchNvd(fetch, maxRecords, db);
    var seen, n, families := IngestCves(corpus, cves, embed, 200);
    upserted := n;
  }
}
