/** Assembling a report out of what the aggregator has recorded: the per-sub-blob
slots of a partial document, their flattening into findings, the tier statistics
and the merged SBOM component list. */
module Report {
  import opened Collections
  import opened Firmware

  /** One entry of a document's insertion-ordered `sub_blobs` mapping. */
  datatype Slot = Slot(blob: BlobId, matches: seq<CveMatch>)

  datatype Finding = Finding(blob: BlobId, match_: CveMatch)

  ghost predicate DistinctBlobs(slots: seq<Slot>) {
    forall i, j :: 0 <= i < j < |slots| ==> slots[i].blob != slots[j].blob
  }

  ghost predicate Recorded(slots: seq<Slot>, blob: BlobId) {
    exists i :: 0 <= i < |slots| && slots[i].blob == blob
  }

  /** Where a sub-blob's slot is, or the length when it has none. */
  function Find(slots: seq<Slot>, blob: BlobId): (k: nat)
    ensures k <= |slots|
    ensures k < |slots| ==> slots[k].blob == blob
    ensures forall i :: 0 <= i < k ==> slots[i].blob != blob
  {
    if slots == [] || slots[0].blob == blob then 0 else 1 + Find(slots[1..], blob)
  }

  /** `doc["sub_blobs"][blob] = matches`: overwrite in place, or append. */
  function Record(slots: seq<Slot>, blob: BlobId, matches: seq<CveMatch>): seq<Slot> {
    var k := Find(slots, blob);
    if k < |slots| then slots[k := Slot(blob, matches)] else slots + [Slot(blob, matches)]
  }

  /** Recording sets one slot, leaves the position and contents of every other slot
  alone, and never makes a second entry for a sub-blob. */
  lemma RecordSetsOneSlot(slots: seq<Slot>, blob: BlobId, matches: seq<CveMatch>)
    requires DistinctBlobs(slots)
    ensures var r := Record(slots, blob, matches);
      && DistinctBlobs(r)
      && Slot(blob, matches) in r
      && |r| == |slots| + (if Recorded(slots, blob) then 0 else 1)
      && (forall i :: 0 <= i < |slots| ==> r[i] == if slots[i].blob == blob then Slot(blob, matches) else slots[i])
      && (forall i :: |slots| <= i < |r| ==> r[i] == Slot(blob, matches))
  {
    var k := Find(slots, blob);
    var r := Record(slots, blob, matches);
    assert r[k] == Slot(blob, matches);
  }

  /** Redelivering the same `firmware.matched` leaves the document as it was. */
  lemma RecordTwice(slots: seq<Slot>, blob: BlobId, matches: seq<CveMatch>)
    ensures var r := Record(slots, blob, matches); Record(r, blob, matches) == r
  {
    var k := Find(slots, blob);
    var r := Record(slots, blob, matches);
    assert r[k] == Slot(blob, matches);
    assert forall i :: 0 <= i < k ==> r[i] == slots[i];
    assert Find(r, blob) == k;
  }

  // ---- findings -------------------------------------------------------------

  function Tag(blob: BlobId, matches: seq<CveMatch>): (r: seq<Finding>) {
    seq(|matches|, i requires 0 <= i < |matches| => Finding(blob, matches[i]))
  }

  function Flatten(slots: seq<Slot>): seq<Finding> {
    if slots == [] then []
    else Flatten(slots[..|slots| - 1]) + Tag(slots[|slots| - 1].blob, slots[|slots| - 1].matches)
  }

  /** The findings of one sub-blob, in report order. */
  function OfBlob(findings: seq<Finding>, blob: BlobId): seq<Finding> {
    if findings == [] then []
    else
      var rest := OfBlob(findings[..|findings| - 1], blob);
      var last := findings[|findings| - 1];
      if last.blob == blob then rest + [last] else rest
  }

  function MatchesOf(slots: seq<Slot>, blob: BlobId): seq<CveMatch> {
    if slots == [] then []
    else if slots[|slots| - 1].blob == blob then slots[|slots| - 1].matches
    else MatchesOf(slots[..|slots| - 1], blob)
  }

  method FindingsFromPartial(slots: seq<Slot>) returns (findings: seq<Finding>)
    ensures findings == Flatten(slots)
  {
    findings := [];
    for i := 0 to |slots|
      invariant findings == Flatten(slots[..i])
    {
      assert slots[..i + 1][..i] == slots[..i];
      var blob, matches := slots[i].blob, slots[i].matches;
      for k := 0 to |matches|
        invariant findings == Flatten(slots[..i]) + Tag(blob, matches)[..k]
      {
        findings := findings + [Finding(blob, matches[k])];
      }
      assert Tag(blob, matches)[..|matches|] == Tag(blob, matches);
    }
    assert slots[..|slots|] == slots;
  }

  // ---- what a report holds, entry by entry --------------------------------------------

  /** How many findings come before those of slot `i`. */
  function Earlier(slots: seq<Slot>, i: nat): nat
    requires i <= |slots|
  {
    if i == 0 then 0 else Earlier(slots, i - 1) + |slots[i - 1].matches|
  }

  lemma {:induction false} EarlierOfFront(slots: seq<Slot>, i: nat)
    requires i < |slots|
    ensures Earlier(slots[..|slots| - 1], i) == Earlier(slots, i)
  {
    if i > 0 {
      EarlierOfFront(slots, i - 1);
    }
  }

  lemma {:induction false} FlattenLength(slots: seq<Slot>)
    ensures |Flatten(slots)| == Earlier(slots, |slots|)
  {
    if slots != [] {
      FlattenLength(slots[..|slots| - 1]);
      EarlierOfFront(slots, |slots| - 1);
    }
  }

  /** Every match of every slot is one finding, in slot order and then in match order, and
  there are no other findings. */
  lemma {:induction false} FlattenAt(slots: seq<Slot>, i: nat, k: nat)
    requires i < |slots| && k < |slots[i].matches|
    ensures Earlier(slots, i) + k < |Flatten(slots)| == Earlier(slots, |slots|)
    ensures Flatten(slots)[Earlier(slots, i) + k] == Finding(slots[i].blob, slots[i].matches[k])
  {
    FlattenLength(slots);
    var front, n := slots[..|slots| - 1], |slots| - 1;
    FlattenLength(front);
    EarlierOfFront(slots, i);
    if i < n {
      FlattenAt(front, i, k);
    }
  }

  /** These findings are exactly these matches of the sub-blob, in order. */
  predicate ShownAs(found: seq<Finding>, blob: BlobId, matches: seq<CveMatch>) {
    |found| == |matches| && forall k :: 0 <= k < |found| ==> found[k].blob == blob && found[k].match_ == matches[k]
  }

  lemma {:induction false} OfBlobAppend(a: seq<Finding>, b: seq<Finding>, blob: BlobId)
    ensures OfBlob(a + b, blob) == OfBlob(a, blob) + OfBlob(b, blob)
  {
    if b == [] {
      assert a + b == a;
    } else {
      OfBlobAppend(a, b[..|b| - 1], blob);
      assert (a + b)[..|a + b| - 1] == a + b[..|b| - 1];
    }
  }

  lemma {:induction false} OfBlobTag(matches: seq<CveMatch>, b: BlobId, blob: BlobId)
    ensures OfBlob(Tag(b, matches), blob) == if b == blob then Tag(b, matches) else []
  {
    if matches != [] {
      OfBlobTag(matches[..|matches| - 1], b, blob);
      assert Tag(b, matches)[..|matches| - 1] == Tag(b, matches[..|matches| - 1]);
    }
  }

  lemma TagShows(blob: BlobId, matches: seq<CveMatch>)
    ensures ShownAs(Tag(blob, matches), blob, matches)
  {
  }

  lemma {:induction false} NotRecordedHasNone(slots: seq<Slot>, blob: BlobId)
    requires !Recorded(slots, blob)
    ensures OfBlob(Flatten(slots), blob) == [] && MatchesOf(slots, blob) == []
  {
    if slots != [] {
      var front, last := slots[..|slots| - 1], slots[|slots| - 1];
      assert forall i :: 0 <= i < |front| ==> front[i] == slots[i];
      NotRecordedHasNone(front, blob);
      OfBlobAppend(Flatten(front), Tag(last.blob, last.matches), blob);
      OfBlobTag(last.matches, last.blob, blob);
    }
  }

  lemma {:induction false} FlattenOfBlob(slots: seq<Slot>, blob: BlobId)
    requires DistinctBlobs(slots)
    ensures OfBlob(Flatten(slots), blob) == Tag(blob, MatchesOf(slots, blob))
  {
    if slots != [] {
      var front, last := slots[..|slots| - 1], slots[|slots| - 1];
      OfBlobAppend(Flatten(front), Tag(last.blob, last.matches), blob);
      OfBlobTag(last.matches, last.blob, blob);
      if last.blob == blob {
        NotRecordedHasNone(front, blob);
      } else {
        FlattenOfBlob(front, blob);
      }
    }
  }

  lemma {:induction false} MatchesAreTheSlots(slots: seq<Slot>, blob: BlobId)
    requires DistinctBlobs(slots)
    ensures forall s :: s in slots && s.blob == blob ==> s.matches == MatchesOf(slots, blob)
  {
    if slots != [] {
      var front, last := slots[..|slots| - 1], slots[|slots| - 1];
      assert slots == front + [last];
      MatchesAreTheSlots(front, blob);
    }
  }

  /** Every recorded sub-blob contributes its own matches exactly once and in order,
  and a sub-blob that was not recorded contributes nothing. */
  lemma FlattenCountsEachBlobOnce(slots: seq<Slot>, blob: BlobId)
    requires DistinctBlobs(slots)
    ensures ShownAs(OfBlob(Flatten(slots), blob), blob, MatchesOf(slots, blob))
    ensures forall s :: s in slots && s.blob == blob ==> s.matches == MatchesOf(slots, blob)
    ensures !Recorded(slots, blob) ==> MatchesOf(slots, blob) == []
  {
    FlattenOfBlob(slots, blob);
    TagShows(blob, MatchesOf(slots, blob));
    MatchesAreTheSlots(slots, blob);
    if !Recorded(slots, blob) {
      NotRecordedHasNone(slots, blob);
    }
  }

  // ---- statistics -----------------------------------------------------------

  function CountTier(findings: seq<Finding>, tier: Tier): nat {
    if findings == [] then 0
    else CountTier(findings[..|findings| - 1], tier) + (if findings[|findings| - 1].match_.tier == tier then 1 else 0)
  }

  /** Where the tier stands. */
  ghost function TierPlaces(findings: seq<Finding>, tier: Tier): set<nat> {
    set i: nat | i < |findings| && findings[i].match_.tier == tier
  }

  /** The count is the number of places where the tier stands. */
  lemma {:induction false} CountTierIs(findings: seq<Finding>, tier: Tier)
    ensures CountTier(findings, tier) == |TierPlaces(findings, tier)|
  {
    if findings != [] {
      var n: nat := |findings| - 1;
      CountTierIs(findings[..n], tier);
      TierPlacesStep(findings, tier, n);
    }
  }

  lemma TierPlacesStep(findings: seq<Finding>, tier: Tier, n: nat)
    requires |findings| == n + 1
    ensures n !in TierPlaces(findings[..n], tier)
    ensures TierPlaces(findings, tier) == TierPlaces(findings[..n], tier) + (if findings[n].match_.tier == tier then {n} else {})
  {
  }

  /** The `by_tier` mapping lists a tier exactly when it occurs. */
  ghost predicate IsTierCount(findings: seq<Finding>, byTier: map<Tier, nat>) {
    forall t: Tier :: Get(byTier, t, 0) == CountTier(findings, t) && (t in byTier <==> CountTier(findings, t) > 0)
  }

  function TierCount(findings: seq<Finding>): (byTier: map<Tier, nat>)
    ensures IsTierCount(findings, byTier)
  {
    map t: Tier | t in {Confirmed, HighConfidence, Possible, LowConfidence, NoMatch} && CountTier(findings, t) > 0
      :: CountTier(findings, t)
  }

  function SumTiers(byTier: map<Tier, nat>): nat {
    Get(byTier, Confirmed, 0) + Get(byTier, HighConfidence, 0) + Get(byTier, Possible, 0)
    + Get(byTier, LowConfidence, 0) + Get(byTier, NoMatch, 0)
  }

  lemma {:induction false} TierCountsSum(findings: seq<Finding>)
    ensures CountTier(findings, Confirmed) + CountTier(findings, HighConfidence) + CountTier(findings, Possible)
            + CountTier(findings, LowConfidence) + CountTier(findings, NoMatch) == |findings|
  {
    if findings != [] {
      TierCountsSum(findings[..|findings| - 1]);
    }
  }

  method SummaryStats(findings: seq<Finding>) returns (total: nat, byTier: map<Tier, nat>)
    ensures total == |findings| == SumTiers(byTier)
    ensures byTier == TierCount(findings)
  {
    byTier := map[];
    for i := 0 to |findings|
      invariant IsTierCount(findings[..i], byTier)
    {
      assert findings[..i + 1][..i] == findings[..i];
      var t := findings[i].match_.tier;
      byTier := byTier[t := Get(byTier, t, 0) + 1];
    }
    assert findings[..|findings|] == findings;
    total := |findings|;
    TierCountsSum(findings);
    assert byTier == TierCount(findings) by {
      var want := TierCount(findings);
      assert forall t :: t in byTier <==> t in want;
      assert forall t :: t in byTier ==> byTier[t] == Get(byTier, t, 0) == Get(want, t, 0) == want[t];
    }
  }

  // ---- SBOM components ------------------------------------------------------

  function Concat(fragments: seq<seq<Component>>): seq<Component> {
    if fragments == [] then []
    else Concat(fragments[..|fragments| - 1]) + fragments[|fragments| - 1]
  }

  lemma {:induction false} ConcatMembers(fragments: seq<seq<Component>>, c: Component)
    ensures c in Concat(fragments) <==> exists i :: 0 <= i < |fragments| && c in fragments[i]
  {
    if fragments != [] {
      var front := fragments[..|fragments| - 1];
      ConcatMembers(front, c);
      if i :| 0 <= i < |front| && c in front[i] {
        assert c in fragments[i];
      }
      if i :| 0 <= i < |fragments| && c in fragments[i] {
        assert i == |fragments| - 1 || c in front[i];
      }
    }
  }

  /** Joining keeps the order of the fragments and the order inside each. */
  lemma {:induction false} ConcatAppend(a: seq<seq<Component>>, b: seq<seq<Component>>)
    ensures Concat(a + b) == Concat(a) + Concat(b)
    ensures forall c :: Concat([c]) == c
  {
    forall c
      ensures Concat([c]) == c
    {
      assert [c][..0] == [];
    }
    if b == [] {
      assert a + b == a;
    } else {
      ConcatAppend(a, b[..|b| - 1]);
      assert (a + b)[..|a + b| - 1] == a + b[..|b| - 1];
    }
  }

  method MergeSbomComponents(fragments: seq<seq<Component>>) returns (out: seq<Component>)
    ensures out == Dedup(Concat(fragments))
    ensures Distinct(out) && InOrderOf(out, Concat(fragments))
    ensures forall c :: c in out <==> exists i :: 0 <= i < |fragments| && c in fragments[i]
  {
    out := [];
    var seen: set<Component> := {};
    for i := 0 to |fragments|
      invariant out == Dedup(Concat(fragments[..i]))
      invariant seen == Elements(out)
    {
      assert fragments[..i + 1][..i] == fragments[..i];
      var doc := fragments[i];
      var before := Concat(fragments[..i]);
      assert before + doc[..0] == before;
      for k := 0 to |doc|
        invariant out == Dedup(before + doc[..k])
        invariant seen == Elements(out)
      {
        assert (before + doc[..k + 1])[..|before| + k] == before + doc[..k];
        if doc[k] !in seen {
          seen := seen + {doc[k]};
          out := out + [doc[k]];
        }
      }
      assert doc[..|doc|] == doc;
    }
    assert fragments[..|fragments|] == fragments;
    DedupKeepsElements(Concat(fragments));
    DedupInOrder(Concat(fragments));
    forall c
      ensures c in out <==> exists i :: 0 <= i < |fragments| && c in fragments[i]
    {
      ConcatMembers(fragments, c);
    }
  }
}
