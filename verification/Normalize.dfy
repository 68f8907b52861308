/** Scoping CPE names to the component families, and the candidate names a normalized
component is looked up under. */
module Normalize {
  import opened Collections
  import opened Text
  import opened Cpe
  import opened Families

  function FamilyForCpe(cpe: string): Option<string> {
    match ParseCpe(cpe)
    case None => None
    case Some(parts) => FamilyFor(parts.product)
  }

  /** Scoping looks at the trimmed name, so it can be done before or after trimming. */
  lemma ScopeIgnoresTrimming(cpe: string)
    ensures FamilyForCpe(Strip(cpe)) == FamilyForCpe(cpe)
  {
    StripTrims(cpe);
  }

  /** The trimmed in-scope names, each at its first occurrence. */
  function Scoped(cpes: seq<string>): seq<string> {
    if cpes == [] then []
    else
      var front, last := Scoped(cpes[..|cpes| - 1]), cpes[|cpes| - 1];
      if FamilyForCpe(last).Some? && Strip(last) !in front then front + [Strip(last)] else front
  }

  method InScopeCpes(cpes: seq<string>) returns (out: seq<string>)
    ensures out == Scoped(cpes)
  {
    out := [];
    for i := 0 to |cpes|
      invariant out == Scoped(cpes[..i])
    {
      assert cpes[..i + 1][..i] == cpes[..i];
      if FamilyForCpe(cpes[i]).Some? {
        if Strip(cpes[i]) !in out {
          out := out + [Strip(cpes[i])];
        }
      }
    }
    assert cpes[..|cpes|] == cpes;
  }

  ghost predicate ScopedFrom(cpes: seq<string>, s: string) {
    exists c :: c in cpes && FamilyForCpe(c).Some? && s == Strip(c)
  }

  /** Scoping keeps exactly the trimmed in-scope names, each once, and leaves them in scope. */
  lemma {:induction false} ScopedMembers(cpes: seq<string>)
    ensures Distinct(Scoped(cpes))
    ensures forall s :: s in Scoped(cpes) <==> ScopedFrom(cpes, s)
    ensures forall s :: s in Scoped(cpes) ==> FamilyForCpe(s).Some?
  {
    if cpes != [] {
      var front, last := cpes[..|cpes| - 1], cpes[|cpes| - 1];
      ScopedMembers(front);
      ScopeIgnoresTrimming(last);
      forall s
        ensures ScopedFrom(cpes, s) <==> ScopedFrom(front, s) || (FamilyForCpe(last).Some? && s == Strip(last))
      {
        ScopedFromLast(cpes, s);
      }
    }
  }

  lemma ScopedFromLast(cpes: seq<string>, s: string)
    requires cpes != []
    ensures var front, last := cpes[..|cpes| - 1], cpes[|cpes| - 1];
      ScopedFrom(cpes, s) <==> ScopedFrom(front, s) || (FamilyForCpe(last).Some? && s == Strip(last))
  {
    var front, last := cpes[..|cpes| - 1], cpes[|cpes| - 1];
    assert cpes == front + [last];
    if ScopedFrom(front, s) {
      var c :| c in front && FamilyForCpe(c).Some? && s == Strip(c);
      assert c in cpes;
    } else if FamilyForCpe(last).Some? && s == Strip(last) {
      assert last in cpes;
    }
  }

  /** The scoped names stand in the order in which they first come up. */
  ghost predicate ScopedOrder(out: seq<string>, cpes: seq<string>) {
    forall i, j, b :: 0 <= i < j < |out| && 0 <= b < |cpes| && FamilyForCpe(cpes[b]).Some? && Strip(cpes[b]) == out[j]
      ==> ScopedFrom(cpes[..b], out[i])
  }

  lemma {:induction false} ScopedInOrder(cpes: seq<string>)
    ensures ScopedOrder(Scoped(cpes), cpes)
  {
    if cpes != [] {
      var front, n := cpes[..|cpes| - 1], |cpes| - 1;
      ScopedInOrder(front);
      ScopedMembers(front);
      forall i, j, b | 0 <= i < j < |Scoped(cpes)| && 0 <= b < |cpes| && FamilyForCpe(cpes[b]).Some? && Strip(cpes[b]) == Scoped(cpes)[j]
        ensures ScopedFrom(cpes[..b], Scoped(cpes)[i])
      {
        assert Scoped(cpes)[i] == Scoped(front)[i] && Scoped(front)[i] in Scoped(front);
        if b < n {
          assert cpes[..b] == front[..b] && front[b] == cpes[b];
          assert ScopedFrom(front, Strip(cpes[b]));
        }
      }
    }
  }

  datatype NormalizedComponent = NormalizedComponent(
    vendor: string, product: string, version: string, family: Option<string>, rawText: string)

  /** What `normalize_candidate` guarantees of its result. */
  ghost predicate Normalized(c: NormalizedComponent) {
    && Lower(Strip(c.vendor)) == c.vendor && Lower(Strip(c.product)) == c.product
    && c.family == FamilyFor(c.product)
  }

  function OrNone(a: Option<string>, b: Option<string>): Option<string> {
    if a.Some? then a else b
  }

  function Spaced(a: string, b: string): string {
    if a == "" then b else if b == "" then a else a + " " + b
  }

  /** What a reported candidate becomes; the version patterns are an arbitrary function. */
  function NormalizeCandidate(vendor: string, product: string, version: string,
                              extract: (string, Option<string>) -> Option<string>): NormalizedComponent {
    var v, p, raw := Lower(Strip(vendor)), Lower(Strip(product)), Strip(version);
    var family := FamilyFor(p);
    var clean := OrNone(extract(raw, family), extract(p + " " + raw, family));
    NormalizedComponent(v, p, if clean.Some? then clean.value else "", family, Strip(Spaced(Spaced(v, p), raw)))
  }

  lemma LowerKeepsTrimmed(s: string)
    requires Trimmed(s)
    ensures Trimmed(Lower(s)) && Lower(Strip(Lower(s))) == Lower(s)
  {
    StripTrims(Lower(s));
    LowerTwice(s);
  }

  /** Normalizing gives a normalized component, and blanks around the reported texts or
  their case make no difference to its vendor, product and family. */
  lemma NormalizeCandidateIs(vendor: string, product: string, version: string, vendor': string, product': string,
                             extract: (string, Option<string>) -> Option<string>)
    ensures var c := NormalizeCandidate(vendor, product, version, extract);
      && Normalized(c)
      && (extract(Strip(version), c.family).Some? ==> Some(c.version) == extract(Strip(version), c.family))
      && (c.vendor != "" && c.product != "" && Strip(version) != "" ==>
            c.rawText == c.vendor + " " + c.product + " " + Strip(version))
    ensures SameButCase(Strip(vendor), Strip(vendor')) && SameButCase(Strip(product), Strip(product')) ==>
              NormalizeCandidate(vendor, product, version, extract) == NormalizeCandidate(vendor', product', version, extract)
  {
    StripTrims(vendor);
    StripTrims(product);
    LowerKeepsTrimmed(Strip(vendor));
    LowerKeepsTrimmed(Strip(product));
    LowerSameIff(Strip(vendor), Strip(vendor'));
    LowerSameIff(Strip(product), Strip(product'));
    StripTrims(version);
    StripTrims(Lower(Strip(vendor)) + " " + Lower(Strip(product)) + " " + Strip(version));
  }

  /** The vendor spellings crossed with the product spellings of a family. */
  function Spellings(vendors: seq<string>, products: seq<string>): seq<(string, string)> {
    if vendors == [] then []
    else Spellings(vendors[..|vendors| - 1], products)
         + seq(|products|, k requires 0 <= k < |products| => (vendors[|vendors| - 1], products[k]))
  }

  /** Every spelling to look up: the family's, then the one that was reported. */
  function Combos(c: NormalizedComponent): seq<(string, string)> {
    var own :=
      if c.family.None? || c.family.value == "" then []
      else
        match FindName(|COMPONENT_FAMILIES|, c.family.value)
        case None => []
        case Some(i) => Spellings(COMPONENT_FAMILIES[i].vendors, COMPONENT_FAMILIES[i].products);
    own + (if c.vendor != "" || c.product != "" then [(c.vendor, c.product)] else [])
  }

  /** The names of the spellings that have a product, in order. */
  function SpelledNames(combos: seq<(string, string)>, version: string): seq<string> {
    if combos == [] then []
    else
      var front, last := SpelledNames(combos[..|combos| - 1], version), combos[|combos| - 1];
      if last.1 == "" then front else front + [BuildCpe(last.0, last.1, version)]
  }

  function CandidateNames(c: NormalizedComponent): seq<string> {
    if c.version == "" then [] else Dedup(SpelledNames(Combos(c), c.version))
  }

  /** The names to look up, each at its first occurrence. */
  method CandidateCpes(c: NormalizedComponent) returns (out: seq<string>)
    ensures out == CandidateNames(c)
  {
    out := [];
    if c.version == "" {
      return;
    }
    var combos := Combos(c);
    for i := 0 to |combos|
      invariant out == Dedup(SpelledNames(combos[..i], c.version))
    {
      assert combos[..i + 1][..i] == combos[..i];
      var (vendor, product) := combos[i];
      if product != "" {
        var name := BuildCpe(vendor, product, c.version);
        DedupMore(SpelledNames(combos[..i], c.version), name);
        if name !in out {
          out := out + [name];
        }
      }
    }
    assert combos[..|combos|] == combos;
  }

  lemma {:induction false} SpelledMembers(combos: seq<(string, string)>, version: string, s: string)
    ensures s in SpelledNames(combos, version) <==> exists v, p :: (v, p) in combos && p != "" && s == BuildCpe(v, p, version)
  {
    if combos != [] {
      var front, last := combos[..|combos| - 1], combos[|combos| - 1];
      SpelledMembers(front, version, s);
      assert combos == front + [last];
      if last.1 != "" && s == BuildCpe(last.0, last.1, version) {
        assert (last.0, last.1) in combos;
      }
    }
  }

  /** No name twice, and exactly the built names of the spellings with a product. */
  lemma CandidateMembers(c: NormalizedComponent, s: string)
    ensures Distinct(CandidateNames(c))
    ensures s in CandidateNames(c) <==>
            c.version != "" && exists v, p :: (v, p) in Combos(c) && p != "" && s == BuildCpe(v, p, c.version)
  {
    DedupKeepsElements(SpelledNames(Combos(c), c.version));
    SpelledMembers(Combos(c), c.version, s);
  }

  /** The spellings are every vendor with every product, vendor by vendor. */
  lemma {:induction false} SpellingsAt(vendors: seq<string>, products: seq<string>, i: nat, k: nat)
    requires i < |vendors| && k < |products|
    ensures |Spellings(vendors, products)| == |vendors| * |products|
    ensures i * |products| + k < |vendors| * |products|
    ensures Spellings(vendors, products)[i * |products| + k] == (vendors[i], products[k])
  {
    var n, m := |vendors| - 1, |products|;
    SpellingsLength(vendors, products);
    SpellingsLength(vendors[..n], products);
    OneRowMore(n, m);
    if i < n {
      SpellingsAt(vendors[..n], products, i, k);
    }
  }

  lemma {:induction false} SpellingsLength(vendors: seq<string>, products: seq<string>)
    ensures |Spellings(vendors, products)| == |vendors| * |products|
  {
    if vendors != [] {
      var front := vendors[..|vendors| - 1];
      SpellingsLength(front, products);
      OneRowMore(|front|, |products|);
    }
  }

  lemma OneRowMore(n: nat, m: nat)
    ensures (n + 1) * m == n * m + m
  {
  }

  lemma {:induction false} SpellingsMembers(vendors: seq<string>, products: seq<string>, v: string, p: string)
    ensures (v, p) in Spellings(vendors, products) <==> v in vendors && p in products
  {
    if vendors != [] {
      var front, last := vendors[..|vendors| - 1], vendors[|vendors| - 1];
      SpellingsMembers(front, products, v, p);
      assert vendors == front + [last];
      RowMembers(last, products, v, p);
    }
  }

  lemma RowMembers(vendor: string, products: seq<string>, v: string, p: string)
    ensures (v, p) in seq(|products|, k requires 0 <= k < |products| => (vendor, products[k])) <==> v == vendor && p in products
  {
    var row := seq(|products|, k requires 0 <= k < |products| => (vendor, products[k]));
    if p in products {
      var k :| 0 <= k < |products| && products[k] == p;
      assert row[k] == (vendor, p);
    }
  }

  /** The pair is a vendor and a product that the family lists. */
  predicate ListedSpelling(family: Option<string>, v: string, p: string) {
    exists i :: 0 <= i < |COMPONENT_FAMILIES| && family == Some(COMPONENT_FAMILIES[i].name)
                && v in COMPONENT_FAMILIES[i].vendors && p in COMPONENT_FAMILIES[i].products
  }

  lemma FamilyNamesDiffer(i: nat, j: nat)
    requires i < |COMPONENT_FAMILIES| && j < |COMPONENT_FAMILIES| && COMPONENT_FAMILIES[i].name == COMPONENT_FAMILIES[j].name
    ensures i == j && COMPONENT_FAMILIES[i].name != ""
  {
    NameIsOwned(i);
    NameIsOwned(j);
    assert Owner("") == -1;
  }

  lemma CombosIff(c: NormalizedComponent, v: string, p: string)
    ensures (v, p) in Combos(c) <==>
            ListedSpelling(c.family, v, p) || (v == c.vendor && p == c.product && !(v == "" && p == ""))
  {
    if c.family.Some? {
      match FindName(|COMPONENT_FAMILIES|, c.family.value)
      case Some(i) =>
        SpellingsMembers(COMPONENT_FAMILIES[i].vendors, COMPONENT_FAMILIES[i].products, v, p);
        FamilyNamesDiffer(i, i);
        forall j | 0 <= j < |COMPONENT_FAMILIES| && COMPONENT_FAMILIES[j].name == c.family.value
          ensures j == i
        {
          FamilyNamesDiffer(i, j);
        }
      case None =>
        forall j | 0 <= j < |COMPONENT_FAMILIES| && COMPONENT_FAMILIES[j].name == c.family.value
          ensures false
        {
          FindNameIs(|COMPONENT_FAMILIES|, j);
        }
    }
  }

  /** The candidate names are those of every vendor with every product of the family, and of
  the spelling that was reported, if there is a version. */
  lemma CandidateNamesIff(c: NormalizedComponent, s: string)
    ensures s in CandidateNames(c) <==>
            && c.version != ""
            && exists v, p ::
                 && p != "" && s == BuildCpe(v, p, c.version)
                 && (ListedSpelling(c.family, v, p) || (v == c.vendor && p == c.product))
  {
    CandidateMembers(c, s);
    forall v, p
      ensures (v, p) in Combos(c) <==>
              ListedSpelling(c.family, v, p) || (v == c.vendor && p == c.product && !(v == "" && p == ""))
    {
      CombosIff(c, v, p);
    }
  }

  /** So with a version every spelling of the component's family is looked up. */
  lemma EverySpellingIsTried(c: NormalizedComponent, i: nat, v: string, p: string)
    requires c.version != "" && i < |COMPONENT_FAMILIES| && c.family == Some(COMPONENT_FAMILIES[i].name)
    requires v in COMPONENT_FAMILIES[i].vendors && p in COMPONENT_FAMILIES[i].products
    ensures BuildCpe(v, p, c.version) in CandidateNames(c)
  {
    TableOk(i);
    assert ListedSpelling(c.family, v, p);
    CandidateNamesIff(c, BuildCpe(v, p, c.version));
  }

  lemma {:induction false} NoBackslashNoPair(s: string)
    requires '\\' !in s
    ensures NoPair(s, '/')
  {
    if |s| >= 2 {
      NoBackslashNoPair(s[1..]);
    }
  }

  lemma TamePlain(s: string)
    requires Tame(s)
    ensures Field(s) == s && Plain(s)
  {
    TameIsNormal(s);
    NoBackslashNoPair(s);
  }

  lemma {:induction false} StripKeeps(s: string, c: char)
    requires c in s && !IsSpace(c)
    ensures c in StripLeft(s) && c in StripRight(s)
  {
    if IsSpace(s[0]) {
      assert s == [s[0]] + s[1..];
      StripKeeps(s[1..], c);
    }
    if IsSpace(s[|s| - 1]) {
      assert s == s[..|s| - 1] + [s[|s| - 1]];
      StripKeeps(s[..|s| - 1], c);
    }
  }

  /** A product with a character no listed product has belongs to no family. */
  lemma OddCharHasNoFamily(product: string, c: char)
    requires !TameChar(LowerChar(c)) && !IsSpace(c) && c in product
    ensures FamilyFor(product) == None
  {
    StripKeeps(product, c);
    StripKeeps(StripLeft(product), c);
    var key := Lower(Strip(product));
    var k :| 0 <= k < |Strip(product)| && Strip(product)[k] == c;
    assert key[k] == LowerChar(c);
    FindProductIsOwner(|COMPONENT_FAMILIES|, key);
    InTableIsTame(|COMPONENT_FAMILIES|, key);
    assert !TameChar(key[k]);
  }

  /** A product with a slash or backslash in it belongs to no family. */
  lemma SlashesHaveNoFamily(product: string, c: char)
    requires (c == '/' || c == '\\') && c in product
    ensures FamilyFor(product) == None
  {
    OddCharHasNoFamily(product, c);
  }

  lemma {:induction false} InTableIsTame(n: nat, key: string)
    requires n <= |COMPONENT_FAMILIES|
    ensures FindProduct(n, key).Some? ==> Tame(key)
  {
    if n > 0 {
      InTableIsTame(n - 1, key);
      TableOk(n - 1);
    }
  }

  lemma {:induction false} PairLeavesTraces(s: string)
    requires !NoPair(s, '/')
    ensures '\\' in s && '/' in Unquote(s, '/')
  {
    if !(s[0] == '\\' && s[1] == '/') {
      PairLeavesTraces(s[1..]);
    }
  }

  /** Printing and parsing may unescape a product, but never into another family. */
  lemma UnescapeKeepsFamily(product: string)
    requires ':' !in product && Lower(product) == product
    ensures FamilyFor(Lower(Unescape(product))) == FamilyFor(product)
  {
    UnescapeIff(product);
    if !Plain(product) {
      NoCharNoPair(product, ':');
      UnquoteShrinks(product, ':');
      PairLeavesTraces(product);
      SlashesHaveNoFamily(product, '\\');
      var u := Unescape(product);
      var k :| 0 <= k < |u| && u[k] == '/';
      assert Lower(u)[k] == '/';
      SlashesHaveNoFamily(Lower(u), '/');
    }
  }

  /** The family of a built name is that of the piece parsed as its product. */
  lemma BuiltFamilyIs(vendor: string, product: string, version: string)
    ensures FamilyForCpe(BuildCpe(vendor, product, version)) == FamilyFor(Lower(Unescape(ProductPiece(vendor, product))))
  {
    ParseBuilt(vendor, product, version);
  }

  lemma PieceWithoutColons(vendor: string, product: string)
    requires ':' !in Field(vendor) && ':' !in product && Field(product) == product
    ensures ProductPiece(vendor, product) == product
  {
    SplitNone(Field(vendor), ':');
    SplitNone(product, ':');
  }

  /** A spelling from the family table keeps the component's family. */
  lemma TableSpellingKeepsFamily(c: NormalizedComponent, vendor: string, product: string)
    requires Normalized(c) && (vendor, product) in Combos(c) && !(vendor == c.vendor && product == c.product)
    ensures FamilyForCpe(BuildCpe(vendor, product, c.version)) == c.family
  {
    var i := FindName(|COMPONENT_FAMILIES|, c.family.value).value;
    var f := COMPONENT_FAMILIES[i];
    SpellingsMembers(f.vendors, f.products, vendor, product);
    TableOk(i);
    TamePlain(vendor);
    TamePlain(product);
    PieceWithoutColons(vendor, product);
    FieldIsTrimmed(product);
    UnescapeKeepsFamily(product);
    BuiltFamilyIs(vendor, product, c.version);
    ProductsAreOwn(i, product);
  }

  ghost predicate SpellingsKeepFamily(c: NormalizedComponent) {
    forall v, p :: (v, p) in Combos(c) && p != "" ==> FamilyForCpe(BuildCpe(v, p, c.version)) == c.family
  }

  lemma SpellingsKeepFamilyIff(c: NormalizedComponent)
    requires Normalized(c)
    ensures SpellingsKeepFamily(c) <==>
            c.product == "" || FamilyFor(Lower(Unescape(ProductPiece(c.vendor, c.product)))) == c.family
  {
    BuiltFamilyIs(c.vendor, c.product, c.version);
    forall v, p | (v, p) in Combos(c) && !(v == c.vendor && p == c.product)
      ensures FamilyForCpe(BuildCpe(v, p, c.version)) == c.family
    {
      TableSpellingKeepsFamily(c, v, p);
    }
    if c.product != "" {
      assert Combos(c)[|Combos(c)| - 1] == (c.vendor, c.product);
    }
  }

  /** Every candidate name parses into the component's own family. */
  ghost predicate NamesKeepFamily(c: NormalizedComponent) {
    forall s :: s in CandidateNames(c) ==> FamilyForCpe(s) == c.family
  }

  lemma SpellingIsCandidate(c: NormalizedComponent, v: string, p: string)
    requires c.version != "" && (v, p) in Combos(c) && p != ""
    ensures BuildCpe(v, p, c.version) in CandidateNames(c)
  {
    CandidateMembers(c, BuildCpe(v, p, c.version));
  }

  /** The reported spelling is always tried. */
  lemma ReportedIsCandidate(c: NormalizedComponent)
    requires c.version != "" && c.product != ""
    ensures BuildCpe(c.vendor, c.product, c.version) in CandidateNames(c)
  {
    assert Combos(c)[|Combos(c)| - 1] == (c.vendor, c.product);
    SpellingIsCandidate(c, c.vendor, c.product);
  }

  lemma NamesAreSpellings(c: NormalizedComponent)
    requires c.version != ""
    ensures NamesKeepFamily(c) <==> SpellingsKeepFamily(c)
  {
    if NamesKeepFamily(c) {
      forall v, p | (v, p) in Combos(c) && p != ""
        ensures FamilyForCpe(BuildCpe(v, p, c.version)) == c.family
      {
        SpellingIsCandidate(c, v, p);
      }
    }
    if SpellingsKeepFamily(c) {
      forall s | s in CandidateNames(c)
        ensures FamilyForCpe(s) == c.family
      {
        CandidateMembers(c, s);
      }
    }
  }

  /** Every candidate name keeps the family if and only if there are none, for want of a
  version or a product, or the piece of the reported spelling that is parsed as the product
  belongs to that family. */
  lemma CandidatesKeepFamilyIff(c: NormalizedComponent)
    requires Normalized(c)
    ensures NamesKeepFamily(c) <==>
            || c.version == "" || c.product == ""
            || FamilyFor(Lower(Unescape(ProductPiece(c.vendor, c.product)))) == c.family
  {
    if c.version != "" {
      NamesAreSpellings(c);
      SpellingsKeepFamilyIff(c);
    }
  }

  /** So every candidate name does when the reported vendor and product hold no colon. */
  lemma CandidateKeepsFamily(c: NormalizedComponent, s: string)
    requires Normalized(c) && ':' !in c.vendor && ':' !in c.product && s in CandidateNames(c)
    ensures FamilyForCpe(s) == c.family
  {
    if c.product != "" {
      PlainPieceKeepsFamily(c);
    }
    CandidatesKeepFamilyIff(c);
    assert NamesKeepFamily(c);
  }

  lemma PlainPieceKeepsFamily(c: NormalizedComponent)
    requires Normalized(c) && ':' !in c.vendor && ':' !in c.product && c.product != ""
    ensures FamilyFor(Lower(Unescape(ProductPiece(c.vendor, c.product)))) == c.family
  {
    PieceWithoutColons(c.vendor, c.product);
    UnescapeKeepsFamily(c.product);
  }

  /** A product with a colon in it belongs to no family. */
  lemma ColonHasNoFamily(product: string)
    requires ':' in product
    ensures FamilyFor(product) == None
  {
    OddCharHasNoFamily(product, ':');
  }

  lemma ColonFieldKept(x: string, y: string)
    requires Tame(x) && Tame(y)
    ensures Field(x + ":" + y) == x + ":" + y
  {
    var f := x + ":" + y;
    assert TameChar(x[0]) && TameChar(y[|y| - 1]);
    assert f[0] == x[0] && f[|f| - 1] == y[|y| - 1];
    StripTrims(f);
    forall i | 0 <= i < |f|
      ensures Lower(f)[i] == f[i]
    {
      if i < |x| {
        assert TameChar(x[i]);
      } else if i > |x| {
        assert TameChar(y[i - |x| - 1]);
      }
    }
  }

  /** Whenever a colon in the reported vendor is followed by a product of family `j`, a
  component of family `i` gets a candidate name that parses into family `j`. */
  lemma ColonInVendorChangesFamily(x: string, i: nat, p: string, j: nat, y: string, version: string)
    requires Tame(x) && i < |COMPONENT_FAMILIES| && j < |COMPONENT_FAMILIES|
    requires p in COMPONENT_FAMILIES[i].products && y in COMPONENT_FAMILIES[j].products && version != ""
    ensures var c := NormalizedComponent(x + ":" + y, p, version, FamilyFor(p), "");
      && Normalized(c) && c.family == Some(COMPONENT_FAMILIES[i].name)
      && BuildCpe(c.vendor, c.product, version) in CandidateNames(c)
      && FamilyForCpe(BuildCpe(c.vendor, c.product, version)) == Some(COMPONENT_FAMILIES[j].name)
  {
    TableOk(i);
    TableOk(j);
    ColonFieldKept(x, y);
    TamePlain(p);
    TameIsNormal(p);
    TamePieces(x, y);
    BuiltFamilyIs(x + ":" + y, p, version);
    PieceOfFamily(j, y);
    ProductsAreOwn(i, p);
    var c := NormalizedComponent(x + ":" + y, p, version, FamilyFor(p), "");
    ReportedIsCandidate(c);
    VendorKept(x + ":" + y);
  }

  /** Whenever the reported product begins with a product of family `j` and a colon, a
  component without a family gets a candidate name of family `j`. */
  lemma ColonInProductGivesFamily(vendor: string, j: nat, y: string, x: string, version: string)
    requires Tame(vendor) && Tame(x) && j < |COMPONENT_FAMILIES| && y in COMPONENT_FAMILIES[j].products && version != ""
    ensures var c := NormalizedComponent(vendor, y + ":" + x, version, FamilyFor(y + ":" + x), "");
      && Normalized(c) && c.family == None && BuildCpe(c.vendor, c.product, version) in CandidateNames(c)
      && FamilyForCpe(BuildCpe(c.vendor, c.product, version)) == Some(COMPONENT_FAMILIES[j].name)
  {
    TableOk(j);
    ColonFieldKept(y, x);
    TamePlain(vendor);
    TameIsNormal(vendor);
    TamePieces(y, x);
    SplitNone(vendor, ':');
    BuiltFamilyIs(vendor, y + ":" + x, version);
    PieceOfFamily(j, y);
    ColonHasNoFamily(y + ":" + x);
    var c := NormalizedComponent(vendor, y + ":" + x, version, FamilyFor(y + ":" + x), "");
    ReportedIsCandidate(c);
    VendorKept(y + ":" + x);
  }

  lemma TamePieces(x: string, y: string)
    requires Tame(x) && Tame(y)
    ensures Split(x + ":" + y, ':') == [x, y]
  {
    TameHasNoColon(x);
    TameHasNoColon(y);
    OneField(x, y);
    SplitNone(y, ':');
  }

  lemma TameHasNoColon(x: string)
    requires Tame(x)
    ensures ':' !in x
  {
  }

  lemma PieceOfFamily(j: nat, y: string)
    requires j < |COMPONENT_FAMILIES| && y in COMPONENT_FAMILIES[j].products
    ensures FamilyFor(Lower(Unescape(y))) == Some(COMPONENT_FAMILIES[j].name)
  {
    TableOk(j);
    TamePlain(y);
    TameIsNormal(y);
    UnescapeIff(y);
    ProductsAreOwn(j, y);
  }

  lemma VendorKept(v: string)
    requires Field(v) == v && v != "*" && v != ""
    ensures Lower(Strip(v)) == v
  {
  }
}
