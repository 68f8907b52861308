/** The shared stores the handlers talk to. Every method is one atomic access. */
module Stores {
  import opened Collections
  import opened Firmware
  import opened Report
  import opened Protocol

  /** Counters, markers and the claims that have not run out. The ghost fields remember who
  claimed a key last, which sub-blobs each counter was incremented for, and what had been
  computed for them. */
  class Redis {
    var claims: set<ClaimKey>
    var total: map<JobId, nat>
    var completed: map<JobId, nat>
    var matched: map<JobId, nat>
    var marker: set<JobId>
    ghost var owners: map<ClaimKey, Worker>
    ghost var results: map<FragmentKey, seq<CveMatch>>
    ghost var counted: map<JobId, set<BlobId>>
    ghost var analysed: map<JobId, set<BlobId>>
    ghost var scored: map<JobId, set<BlobId>>

    constructor ()
      ensures claims == {} && total == completed == matched == map[] && marker == {}
      ensures owners == map[] && results == map[] && counted == analysed == scored == map[]
    {
      claims, total, completed, matched, marker := {}, map[], map[], map[], {};
      owners, results, counted, analysed, scored := map[], map[], map[], map[], map[];
    }

    /** `SET key NX EX`: true exactly when this call set the key. */
    method ClaimMessage(key: ClaimKey, ghost w: Worker) returns (claimed: bool)
      modifies this`claims, this`owners
      ensures claimed <==> key !in old(claims)
      ensures claims == old(claims) + {key}
      ensures owners == if claimed then old(owners)[key := w] else old(owners)
    {
      claimed := key !in claims;
      if claimed {
        claims, owners := claims + {key}, owners[key := w];
      }
    }

    /** A claim reaches the end of its lifetime. */
    method ExpireClaim(key: ClaimKey)
      modifies this`claims
      ensures claims == old(claims) - {key}
    {
      claims := claims - {key};
    }

    method IncrTotal(j: JobId, ghost b: BlobId)
      modifies this`total, this`counted
      ensures total == Incr(old(total), j) && counted == Insert(old(counted), j, b)
    {
      total := total[j := Get(total, j, 0) + 1];
      counted := Insert(counted, j, b);
    }

    method IncrCompleted(j: JobId, ghost b: BlobId)
      modifies this`completed, this`analysed
      ensures completed == Incr(old(completed), j) && analysed == Insert(old(analysed), j, b)
    {
      completed := completed[j := Get(completed, j, 0) + 1];
      analysed := Insert(analysed, j, b);
    }

    method IncrMatched(j: JobId, ghost b: BlobId, ghost matches: seq<CveMatch>)
      modifies this`matched, this`scored, this`results
      ensures matched == Incr(old(matched), j) && scored == Insert(old(scored), j, b)
      ensures results == old(results)[FragmentKey(j, b) := matches]
    {
      matched := matched[j := Get(matched, j, 0) + 1];
      scored, results := Insert(scored, j, b), results[FragmentKey(j, b) := matches];
    }

    method SetMarker(j: JobId)
      modifies this`marker
      ensures marker == old(marker) + {j}
    {
      marker := marker + {j};
    }
  }

  /** The `reports` collection, one document per job. */
  class ReportStore {
    var docs: map<JobId, Doc>
    ghost var winner: map<JobId, Worker>

    constructor ()
      ensures docs == map[] && winner == map[]
    {
      docs, winner := map[], map[];
    }

    /** Upsert one sub-blob's slot; the status and the report stay as they are. */
    method RecordSubBlob(j: JobId, blob: BlobId, matches: seq<CveMatch>)
      modifies this`docs
      ensures docs.Keys == old(docs).Keys + {j}
      ensures forall i :: i in old(docs) && i != j ==> docs[i] == old(docs)[i]
      ensures var before := Get(old(docs), j, Doc([], None));
        docs[j].final == before.final && docs[j].slots == Record(before.slots, blob, matches)
    {
      var doc := Get(docs, j, Doc([], None));
      docs := docs[j := doc.(slots := Record(doc.slots, blob, matches))];
    }

    method GetSlots(j: JobId) returns (slots: seq<Slot>)
      ensures slots == Get(docs, j, Doc([], None)).slots
    {
      slots := if j in docs then docs[j].slots else [];
    }

    /** The transition to COMPLETE: it happens at most once, and only the caller that
    performed it is told so. */
    method Finalize(j: JobId, report: ReportDoc, ghost w: Worker) returns (won: bool)
      modifies this
      ensures won <==> Get(old(docs), j, Doc([], None)).final.None?
      ensures won ==> docs == old(docs)[j := Get(old(docs), j, Doc([], None)).(final := Some(report))]
      ensures won ==> winner == old(winner)[j := w]
      ensures !won ==> docs == old(docs) && winner == old(winner)
    {
      var doc := Get(docs, j, Doc([], None));
      won := doc.final.None?;
      if won {
        docs := docs[j := doc.(final := Some(report))];
        winner := winner[j := w];
      }
    }
  }

  /** The artifact bucket: SBOM fragments, final SBOMs and reports. */
  class ArtifactStore {
    var fragments: map<FragmentKey, seq<Component>>
    var sboms: map<JobId, seq<Component>>
    var reports: map<JobId, ReportDoc>

    constructor ()
      ensures fragments == map[] && sboms == map[] && reports == map[]
    {
      fragments, sboms, reports := map[], map[], map[];
    }

    method PutFragment(j: JobId, blob: BlobId, components: seq<Component>)
      modifies this`fragments
      ensures fragments == old(fragments)[FragmentKey(j, blob) := components]
    {
      fragments := fragments[FragmentKey(j, blob) := components];
    }

    /** List the fragments of one job, each once, in some order. */
    method ListFragments(j: JobId) returns (order: seq<BlobId>, docs: seq<seq<Component>>)
      ensures IsListing(fragments, j, order)
      ensures docs == Listed(fragments, j, order)
    {
      order, docs := [], [];
      var left := fragments.Keys;
      while left != {}
        invariant left <= fragments.Keys
        invariant Distinct(order)
        invariant forall b :: b in order <==> FragmentKey(j, b) in fragments && FragmentKey(j, b) !in left
        invariant docs == Listed(fragments, j, order)
        decreases left
      {
        var f :| f in left;
        left := left - {f};
        if f.job == j {
          assert f == FragmentKey(j, f.blob);
          order, docs := order + [f.blob], docs + [fragments[f]];
        }
      }
    }

    method PutSbom(j: JobId, components: seq<Component>)
      modifies this`sboms
      ensures sboms == old(sboms)[j := components]
    {
      sboms := sboms[j := components];
    }

    method PutReport(j: JobId, report: ReportDoc)
      modifies this`reports
      ensures reports == old(reports)[j := report]
    {
      reports := reports[j := report];
    }
  }

  /** Extracted children, by their (fresh) ids. */
  class BlobStore {
    var uploads: map<BlobId, JobId>

    constructor ()
      ensures uploads == map[]
    {
      uploads := map[];
    }

    method PutBytes(j: JobId, blob: BlobId)
      modifies this`uploads
      ensures uploads == old(uploads)[blob := j]
    {
      uploads := uploads[blob := j];
    }
  }

  /** Everything produced so far. */
  class Broker {
    var sent: set<Message>
    var completions: seq<JobId>
    var rejected: set<JobId>

    constructor ()
      ensures sent == {} && completions == [] && rejected == {}
    {
      sent, completions, rejected := {}, [], {};
    }

    method Emit(m: Message)
      modifies this`sent
      ensures sent == old(sent) + {m}
    {
      sent := sent + {m};
    }

    method EmitCompleted(j: JobId)
      modifies this`completions
      ensures completions == old(completions) + [j]
    {
      completions := completions + [j];
    }

    method EmitRejected(j: JobId)
      modifies this`rejected
      ensures rejected == old(rejected) + {j}
    {
      rejected := rejected + {j};
    }
  }
}
