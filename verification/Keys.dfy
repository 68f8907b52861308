/** The names under which everything is filed in one string-keyed Redis and one object
store: no two of them coincide, so each family of keys can be read as a map of its own. */
module Keys {
  // ---- Redis -----------------------------------------------------------------------------

  datatype RedisKey =
    | BloomFilter
    | TotalChildren(jobId: string)
    | CompletedChildren(jobId: string)
    | MatchedChildren(jobId: string)
    | ExtractionComplete(jobId: string)
    | DlqLock(jobId: string)
    | Idempotency(topic: string, messageKey: string)

  predicate JobKey(k: RedisKey) {
    k.TotalChildren? || k.CompletedChildren? || k.MatchedChildren? || k.ExtractionComplete?
  }

  function Suffix(k: RedisKey): string
    requires JobKey(k)
  {
    match k
    case TotalChildren(_) => ":total_children"
    case CompletedChildren(_) => ":completed_children"
    case MatchedChildren(_) => ":matched_children"
    case ExtractionComplete(_) => ":extraction_complete"
  }

  function Render(k: RedisKey): string {
    match k
    case BloomFilter => "bloom:firmware_hashes"
    case DlqLock(j) => "lock:dlq_retry:" + j
    case Idempotency(t, m) => "processed:" + (t + ":" + m)
    case _ => "job:" + (k.jobId + Suffix(k))
  }

  /** Topic names have no colon; job ids and message keys may hold anything. */
  predicate KnownTopic(k: RedisKey) {
    k.Idempotency? ==> ':' !in k.topic
  }

  lemma AppendCancels(p: string, a: string, b: string)
    requires p + a == p + b
    ensures a == b
  {
    assert a == (p + a)[|p|..] && b == (p + b)[|p|..];
  }

  lemma PrependCancels(a: string, b: string, s: string)
    requires a + s == b + s
    ensures a == b
  {
    assert |a + s| == |b + s|;
    assert a == (a + s)[..|a|] && b == (b + s)[..|b|];
  }

  /** Texts that end in different characters, counted from the back, differ. */
  lemma EndsApart(a: string, s: string, b: string, t: string, i: nat)
    requires 0 < i <= |s| && i <= |t| && s[|s| - i] != t[|t| - i]
    ensures a + s != b + t
  {
    assert (a + s)[|a + s| - i] == s[|s| - i];
    assert (b + t)[|b + t| - i] == t[|t| - i];
  }

  lemma SuffixesApart(a: RedisKey, b: RedisKey)
    requires JobKey(a) && JobKey(b) && Suffix(a) != Suffix(b)
    ensures a.jobId + Suffix(a) != b.jobId + Suffix(b)
  {
    var i := if a.ExtractionComplete? || b.ExtractionComplete? then 1
             else if a.TotalChildren? || b.TotalChildren? then 10
             else 12;
    EndsApart(a.jobId, Suffix(a), b.jobId, Suffix(b), i);
  }

  lemma JobKeysApart(a: RedisKey, b: RedisKey)
    requires JobKey(a) && JobKey(b) && Render(a) == Render(b)
    ensures a == b
  {
    AppendCancels("job:", a.jobId + Suffix(a), b.jobId + Suffix(b));
    if Suffix(a) == Suffix(b) {
      PrependCancels(a.jobId, b.jobId, Suffix(a));
    } else {
      SuffixesApart(a, b);
    }
  }

  /** The part before the first separator is the part before the first separator. */
  lemma FirstFieldUnique(a: string, x: string, b: string, y: string, sep: char)
    requires sep !in a && sep !in b && a + [sep] + x == b + [sep] + y
    ensures a == b && x == y
  {
    var s := a + [sep] + x;
    assert s[|a|] == sep && s[|b|] == sep;
    assert forall i :: 0 <= i < |a| ==> s[i] == a[i];
    assert forall i :: 0 <= i < |b| ==> s[i] == b[i];
    assert |a| == |b|;
    assert a == s[..|a|] && b == s[..|b|];
    assert x == s[|a| + 1..] && y == s[|b| + 1..];
  }

  /** And the part after the last one, the part after the last one. */
  lemma LastFieldUnique(a: string, x: string, b: string, y: string, sep: char)
    requires sep !in x && sep !in y && a + [sep] + x == b + [sep] + y
    ensures a == b && x == y
  {
    var s := a + [sep] + x;
    assert s[|a|] == sep && s[|b|] == sep;
    assert forall i :: |a| < i < |s| ==> s[i] == x[i - |a| - 1];
    assert forall i :: |b| < i < |s| ==> s[i] == y[i - |b| - 1];
    assert |a| == |b|;
    assert a == s[..|a|] && b == s[..|b|];
    assert x == s[|a| + 1..] && y == s[|b| + 1..];
  }

  /** No two keys share a name. */
  lemma RenderInjective(a: RedisKey, b: RedisKey)
    requires KnownTopic(a) && KnownTopic(b) && Render(a) == Render(b)
    ensures a == b
  {
    assert Render(a)[0] == Render(b)[0];
    match a
    case BloomFilter =>
    case DlqLock(j) => AppendCancels("lock:dlq_retry:", j, b.jobId);
    case Idempotency(t, m) =>
      AppendCancels("processed:", t + ":" + m, b.topic + ":" + b.messageKey);
      FirstFieldUnique(t, m, b.topic, b.messageKey, ':');
    case _ => JobKeysApart(a, b);
  }

  // ---- objects ----------------------------------------------------------------------------

  function FragmentPrefix(j: string): string {
    "sbom-fragments/" + (j + "/")
  }

  function FragmentKey(j: string, b: string): string {
    "sbom-fragments/" + (j + "/" + (b + ".json"))
  }

  function SbomKey(j: string): string {
    "reports/" + (j + "/sbom.json")
  }

  function ReportKey(j: string): string {
    "reports/" + (j + "/report.json")
  }

  lemma ListedIffPrefix(j: string, b: string, listed: string)
    ensures FragmentPrefix(listed) <= FragmentKey(j, b) <==> listed + "/" <= j + "/" + (b + ".json")
  {
    var p := "sbom-fragments/";
    var a, c := listed + "/", j + "/" + (b + ".json");
    assert FragmentPrefix(listed) == p + a && FragmentKey(j, b) == p + c;
    PrefixUnder(p, a, c);
  }

  lemma PrefixUnder(p: string, a: string, c: string)
    ensures p + a <= p + c <==> a <= c
  {
    if p + a <= p + c {
      var n := |p + a|;
      assert a == (p + a)[|p|..n] == (p + c)[|p|..n] == c[..|a|];
    }
  }

  /** Which fragments a listing finds, for arbitrary ids: those of the job itself, those of
  jobs whose id goes on after the listed one with a slash, and those whose sub-blob id
  makes up for the rest of the listed one. */
  lemma ListsIff(j: string, b: string, listed: string)
    ensures FragmentPrefix(listed) <= FragmentKey(j, b) <==>
            || j == listed
            || listed + "/" <= j
            || (j + "/" <= listed && listed[|j| + 1..] + "/" <= b + ".json")
  {
    ListedIffPrefix(j, b, listed);
    var s := j + "/" + (b + ".json");
    if |listed| < |j| {
      ShorterListed(j, b, listed);
    } else if |listed| == |j| {
      assert listed + "/" <= s ==> listed == s[..|j|] == j;
    } else {
      LongerListed(j, b, listed);
    }
  }

  lemma ShorterListed(j: string, b: string, listed: string)
    requires |listed| < |j|
    ensures listed + "/" <= j + "/" + (b + ".json") <==> listed + "/" <= j
  {
    var n, s := |listed| + 1, j + "/" + (b + ".json");
    assert s[..n] == j[..n];
  }

  lemma LongerListed(j: string, b: string, listed: string)
    requires |listed| > |j|
    ensures listed + "/" <= j + "/" + (b + ".json") <==> j + "/" <= listed && listed[|j| + 1..] + "/" <= b + ".json"
  {
    var front, back, s := j + "/", b + ".json", j + "/" + (b + ".json");
    var n := |front|;
    if listed + "/" <= s {
      assert s[..n] == front && (listed + "/")[..n] == listed[..n];
      assert listed == front + listed[n..];
      PrefixUnder(front, listed[n..] + "/", back);
      assert front + (listed[n..] + "/") == listed + "/";
    }
    if front <= listed {
      assert listed == front + listed[n..];
      PrefixUnder(front, listed[n..] + "/", back);
      assert front + (listed[n..] + "/") == listed + "/" && front + back == s;
    }
  }

  /** For sub-blob ids without a slash: the fragments of the job, and of every job whose id
  goes on after it with a slash. */
  lemma ListsOwnFragments(j: string, b: string, listed: string)
    requires '/' !in b
    ensures FragmentPrefix(listed) <= FragmentKey(j, b) <==> j == listed || listed + "/" <= j
  {
    ListsIff(j, b, listed);
    if j + "/" <= listed {
      var rest := listed[|j| + 1..] + "/";
      assert rest[|rest| - 1] == '/';
      assert forall i :: 0 <= i < |b + ".json"| ==> (b + ".json")[i] != '/';
      assert !(rest <= b + ".json");
    }
  }

  /** So a job whose id extends another one's by a slash is listed under it. */
  lemma SlashListsForeignFragments(x: string, y: string, b: string)
    ensures FragmentPrefix(x) <= FragmentKey(x + "/" + y, b) && x + "/" + y != x
  {
    ListsIff(x + "/" + y, b, x);
    assert x + "/" + y == (x + "/") + y;
  }

  /** Fragments of different sub-blobs, and the two final artifacts, never overwrite each
  other. */
  lemma ObjectsApart(j: string, b: string, j': string, b': string)
    ensures '/' !in b && '/' !in b' && FragmentKey(j, b) == FragmentKey(j', b') ==> j == j' && b == b'
    ensures '/' !in j && '/' !in j' && FragmentKey(j, b) == FragmentKey(j', b') ==> j == j' && b == b'
    ensures SbomKey(j) != ReportKey(j')
    ensures SbomKey(j) == SbomKey(j') || ReportKey(j) == ReportKey(j') ==> j == j'
    ensures FragmentKey(j, b) != SbomKey(j') && FragmentKey(j, b) != ReportKey(j')
  {
    assert FragmentKey(j, b)[0] == 's' && SbomKey(j')[0] == 'r' && ReportKey(j')[0] == 'r';
    EndsApart("reports/" + j, "/sbom.json", "reports/" + j', "/report.json", 6);
    assert SbomKey(j) == "reports/" + j + "/sbom.json" && ReportKey(j') == "reports/" + j' + "/report.json";
    if SbomKey(j) == SbomKey(j') {
      AppendCancels("reports/", j + "/sbom.json", j' + "/sbom.json");
      PrependCancels(j, j', "/sbom.json");
    }
    if ReportKey(j) == ReportKey(j') {
      AppendCancels("reports/", j + "/report.json", j' + "/report.json");
      PrependCancels(j, j', "/report.json");
    }
    if FragmentKey(j, b) == FragmentKey(j', b') {
      AppendCancels("sbom-fragments/", j + "/" + (b + ".json"), j' + "/" + (b' + ".json"));
      if '/' !in j && '/' !in j' {
        FirstFieldUnique(j, b + ".json", j', b' + ".json", '/');
        PrependCancels(b, b', ".json");
      }
      if '/' !in b && '/' !in b' {
        LastFieldUnique(j, b + ".json", j', b' + ".json", '/');
        PrependCancels(b, b', ".json");
      }
    }
  }
}
