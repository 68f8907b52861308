/** CPE names: printing, parsing, and what survives both. */
module Cpe {
  import opened Collections
  import opened Text

  datatype CpeParts = CpeParts(part: string, vendor: string, product: string, version: string)

  /** Replace every `\\b` by `b`, scanning from the left. */
  function Unquote(s: string, b: char): string {
    if |s| >= 2 && s[0] == '\\' && s[1] == b then [b] + Unquote(s[2..], b)
    else if s == "" then ""
    else [s[0]] + Unquote(s[1..], b)
  }

  function Unescape(field: string): string {
    Unquote(Unquote(field, ':'), '/')
  }

  predicate StartsWith(s: string, prefix: string) {
    |prefix| <= |s| && s[..|prefix|] == prefix
  }

  function OrElse(s: string, default: string): string {
    if s == "" then default else s
  }

  function ParseCpe(cpe: string): Option<CpeParts> {
    if cpe == "" then None
    else
      var s := Strip(cpe);
      if StartsWith(Lower(s), "cpe:2.3:") then
        var fields := Split(s, ':');
        if |fields| < 6 then None
        else Some(CpeParts(Lower(fields[2]), Lower(Unescape(fields[3])), Lower(Unescape(fields[4])), Unescape(fields[5])))
      else if StartsWith(Lower(s), "cpe:/") then
        var fields := Split(s[5..], ':');
        var vendor := if |fields| > 1 then Lower(fields[1]) else "";
        var product := if |fields| > 2 then Lower(fields[2]) else "";
        var version := if |fields| > 3 then fields[3] else "*";
        if product == "" then None
        else Some(CpeParts(OrElse(Lower(fields[0]), "a"), vendor, product, OrElse(version, "*")))
      else None
  }

  function Field(v: string): string {
    OrElse(Lower(Strip(v)), "*")
  }

  const WILDCARDS := "*:*:*:*:*:*:*"

  function Rest(v: string, p: string, r: string): string {
    v + [':'] + (p + [':'] + (r + [':'] + WILDCARDS))
  }

  function BuildCpe(vendor: string, product: string, version: string): string {
    "cpe:2.3:a:" + Rest(Field(vendor), Field(product), Field(version))
  }

  // ---- print and parse ------------------------------------------------------------------

  predicate NoPair(s: string, b: char) {
    |s| < 2 || (!(s[0] == '\\' && s[1] == b) && NoPair(s[1..], b))
  }

  /** A field that survives printing and parsing: no colon, no `\\/`. */
  predicate Plain(f: string) {
    ':' !in f && NoPair(f, '/')
  }

  lemma {:induction false} UnquoteShrinks(s: string, b: char)
    ensures |Unquote(s, b)| <= |s|
    ensures NoPair(s, b) ==> Unquote(s, b) == s
    ensures !NoPair(s, b) ==> |Unquote(s, b)| < |s|
  {
    if |s| >= 2 && s[0] == '\\' && s[1] == b {
      UnquoteShrinks(s[2..], b);
    } else if s != "" {
      UnquoteShrinks(s[1..], b);
      assert s == [s[0]] + s[1..];
    }
  }

  lemma {:induction false} NoCharNoPair(s: string, b: char)
    requires b !in s
    ensures NoPair(s, b)
  {
    if |s| >= 2 {
      NoCharNoPair(s[1..], b);
    }
  }

  lemma {:induction false} UnquoteAddsNothing(s: string, b: char, c: char)
    requires c !in s && c != b
    ensures c !in Unquote(s, b)
  {
    if |s| >= 2 && s[0] == '\\' && s[1] == b {
      UnquoteAddsNothing(s[2..], b, c);
    } else if s != "" {
      UnquoteAddsNothing(s[1..], b, c);
    }
  }

  /** One quoted character is replaced by itself and the text around it is read on its own;
  with `UnquoteShrinks` for text without such a pair this says what unquoting computes. */
  lemma {:induction false} UnquotePair(s: string, b: char, rest: string)
    requires b != '\\'
    ensures Unquote(s + ['\\', b] + rest, b) == Unquote(s, b) + [b] + Unquote(rest, b)
  {
    var all := s + ['\\', b] + rest;
    if s == "" {
      assert all[2..] == rest;
    } else if |s| >= 2 && s[0] == '\\' && s[1] == b {
      UnquotePair(s[2..], b, rest);
      assert all[2..] == s[2..] + ['\\', b] + rest;
    } else {
      UnquotePair(s[1..], b, rest);
      assert all[1..] == s[1..] + ['\\', b] + rest;
    }
  }

  /** For a field without a colon: unescaping is harmless exactly when it is plain. */
  lemma UnescapeIff(f: string)
    requires ':' !in f
    ensures Unescape(f) == f <==> Plain(f)
    ensures ':' !in Unescape(f)
    ensures Unescape(f) != f ==> |Unescape(f)| < |f|
  {
    NoCharNoPair(f, ':');
    UnquoteShrinks(f, ':');
    UnquoteShrinks(f, '/');
    UnquoteAddsNothing(f, '/', ':');
  }

  lemma FieldIsTrimmed(v: string)
    ensures Lower(Field(v)) == Field(v) && Field(v) != ""
  {
    LowerTwice(Strip(v));
  }

  /** Fields are the same exactly for texts that agree up to blanks around them and case; a
  blank text is the wildcard. */
  lemma FieldSameIff(a: string, b: string)
    ensures Field(a) == Field(b) <==> SameButCase(OrElse(Strip(a), "*"), OrElse(Strip(b), "*"))
  {
    assert Lower("*") == "*";
    assert Field(a) == Lower(OrElse(Strip(a), "*")) && Field(b) == Lower(OrElse(Strip(b), "*"));
    LowerSameIff(OrElse(Strip(a), "*"), OrElse(Strip(b), "*"));
  }

  lemma OneField(f: string, rest: string)
    requires ':' !in f
    ensures Split(f + ":" + rest, ':') == [f] + Split(rest, ':')
  {
    SplitAppend(f, rest, ':');
    SplitNone(f, ':');
  }

  lemma PrefixFields(rest: string)
    ensures Split("cpe:2.3:a:" + rest, ':') == ["cpe"] + (["2.3"] + (["a"] + Split(rest, ':')))
  {
    OneField("a", rest);
    OneField("2.3", "a" + ":" + rest);
    OneField("cpe", "2.3" + ":" + ("a" + ":" + rest));
    assert "cpe" + ":" + ("2.3" + ":" + ("a" + ":" + rest)) == "cpe:2.3:a:" + rest;
  }

  lemma BuiltShape(rest: string)
    requires rest != "" && !IsSpace(rest[|rest| - 1])
    ensures var s := "cpe:2.3:a:" + rest; Strip(s) == s && StartsWith(Lower(s), "cpe:2.3:")
  {
    var s := "cpe:2.3:a:" + rest;
    assert s[0] == 'c' && s[|s| - 1] == rest[|rest| - 1];
    StripTrims(s);
    assert Lower(s)[..8] == "cpe:2.3:";
  }

  lemma RestFields(v: string, p: string, r: string)
    ensures Split(Rest(v, p, r), ':') == Split(v, ':') + (Split(p, ':') + (Split(r, ':') + Split(WILDCARDS, ':')))
  {
    SplitAppend(r, WILDCARDS, ':');
    SplitAppend(p, r + [':'] + WILDCARDS, ':');
    SplitAppend(v, p + [':'] + (r + [':'] + WILDCARDS), ':');
  }

  lemma NoColonInLower(f: string)
    requires ':' !in f
    ensures ':' !in Lower(f)
  {
  }

  ghost function FieldsOf(v: string, p: string, r: string): seq<string> {
    Split(v, ':') + (Split(p, ':') + (Split(r, ':') + Split(WILDCARDS, ':')))
  }

  lemma FourthField(a: seq<string>, b: seq<string>, c: seq<string>)
    requires a != [] && b != []
    ensures |a + b| >= 2 && (["cpe"] + (["2.3"] + (["a"] + (a + (b + c)))))[4] == (a + b)[1]
  {
    assert a + (b + c) == a + b + c;
    assert (["cpe"] + (["2.3"] + (["a"] + (a + (b + c)))))[4] == (a + b + c)[1];
  }

  lemma AfterPrefix(rest: seq<string>)
    requires |rest| >= 3
    ensures var fields := ["cpe"] + (["2.3"] + (["a"] + rest));
      |fields| >= 6 && fields[2] == "a" && fields[3] == rest[0] && fields[4] == rest[1] && fields[5] == rest[2]
  {
  }

  lemma FirstOfThree(a: seq<string>, b: seq<string>, c: seq<string>)
    requires a != [] && b != [] && |c| >= 2
    ensures var all := a + (b + c);
      && |all| >= 4 && all[0] == a[0]
      && (|a| == 1 ==> all[1] == b[0])
      && (|a| == 1 && |b| == 1 ==> all[2] == c[0])
  {
  }

  lemma FieldIndices(v: string, p: string, r: string)
    ensures var fields := ["cpe"] + (["2.3"] + (["a"] + FieldsOf(v, p, r)));
      && |fields| >= 6 && fields[2] == "a" && fields[3] == Split(v, ':')[0]
      && (':' !in v ==> fields[4] == Split(p, ':')[0])
      && (':' !in v && ':' !in p ==> fields[5] == Split(r, ':')[0])
  {
    var c := Split(r, ':') + Split(WILDCARDS, ':');
    FirstOfThree(Split(v, ':'), Split(p, ':'), c);
    AfterPrefix(FieldsOf(v, p, r));
    if ':' !in v {
      SplitNone(v, ':');
    }
    if ':' !in p {
      SplitNone(p, ':');
    }
  }

  /** The piece of a built name that is parsed as its product: the second field of
  `vendor:product`, wherever the colons are. */
  function ProductPiece(vendor: string, product: string): string {
    var pieces := Split(Field(vendor), ':') + Split(Field(product), ':');
    if |pieces| >= 2 then pieces[1] else ""
  }

  lemma ParseBuilt(vendor: string, product: string, version: string)
    ensures var v, p, r := Field(vendor), Field(product), Field(version);
      var parsed := ParseCpe(BuildCpe(vendor, product, version));
      && parsed.Some?
      && parsed.value.part == "a"
      && parsed.value.vendor == Lower(Unescape(Split(v, ':')[0]))
      && parsed.value.product == Lower(Unescape(ProductPiece(vendor, product)))
      && (':' !in v ==> parsed.value.product == Lower(Unescape(Split(p, ':')[0])))
      && (':' !in v && ':' !in p ==> parsed.value.version == Unescape(Split(r, ':')[0]))
  {
    var v, p, r := Field(vendor), Field(product), Field(version);
    var rest := Rest(v, p, r);
    assert rest[|rest| - 1] == WILDCARDS[|WILDCARDS| - 1];
    BuiltShape(rest);
    PrefixFields(rest);
    RestFields(v, p, r);
    FieldIndices(v, p, r);
    FourthField(Split(v, ':'), Split(p, ':'), Split(r, ':') + Split(WILDCARDS, ':'));
    assert Lower("a") == "a";
  }

  lemma PieceRoundTrip(f: string)
    requires Lower(f) == f
    ensures Lower(Unescape(Split(f, ':')[0])) == f <==> Plain(f)
  {
    var x := Split(f, ':')[0];
    UnescapeIff(x);
    NoColonInLower(Unescape(x));
    if ':' !in f {
      SplitNone(f, ':');
    }
  }

  lemma VersionRoundTrip(f: string)
    ensures Unescape(Split(f, ':')[0]) == f <==> Plain(f)
  {
    var x := Split(f, ':')[0];
    UnescapeIff(x);
    if ':' !in f {
      SplitNone(f, ':');
    }
  }

  /** Parsing a built name gives back the normalized fields if and only if none of them
  contains a colon or the sequence backslash-slash. */
  lemma RoundTripIff(vendor: string, product: string, version: string)
    ensures var v, p, r := Field(vendor), Field(product), Field(version);
      ParseCpe(BuildCpe(vendor, product, version)) == Some(CpeParts("a", v, p, r))
      <==> Plain(v) && Plain(p) && Plain(r)
  {
    var v, p, r := Field(vendor), Field(product), Field(version);
    ParseBuilt(vendor, product, version);
    FieldIsTrimmed(vendor);
    FieldIsTrimmed(product);
    PieceRoundTrip(v);
    PieceRoundTrip(p);
    VersionRoundTrip(r);
  }

  /** Building is injective up to normalization on fields that survive. */
  lemma BuildInjective(v1: string, p1: string, r1: string, v2: string, p2: string, r2: string)
    requires Plain(Field(v1)) && Plain(Field(p1)) && Plain(Field(r1))
    requires Plain(Field(v2)) && Plain(Field(p2)) && Plain(Field(r2))
    requires BuildCpe(v1, p1, r1) == BuildCpe(v2, p2, r2)
    ensures Field(v1) == Field(v2) && Field(p1) == Field(p2) && Field(r1) == Field(r2)
  {
    RoundTripIff(v1, p1, r1);
    RoundTripIff(v2, p2, r2);
  }

  /** A built name has thirteen fields: the prefix, the three that were given, and seven
  wildcards. */
  lemma BuiltFields(vendor: string, product: string, version: string)
    requires ':' !in Field(vendor) && ':' !in Field(product) && ':' !in Field(version)
    ensures Split(BuildCpe(vendor, product, version), ':') ==
            ["cpe", "2.3", "a", Field(vendor), Field(product), Field(version), "*", "*", "*", "*", "*", "*", "*"]
  {
    var v, p, r := Field(vendor), Field(product), Field(version);
    PrefixFields(Rest(v, p, r));
    RestFields(v, p, r);
    SplitNone(v, ':');
    SplitNone(p, ':');
    SplitNone(r, ':');
    WildcardFields();
    ThirteenFields(v, p, r, Split(WILDCARDS, ':'));
  }

  lemma ThirteenFields(v: string, p: string, r: string, stars: seq<string>)
    requires stars == ["*", "*", "*", "*", "*", "*", "*"]
    ensures ["cpe"] + (["2.3"] + (["a"] + ([v] + ([p] + ([r] + stars))))) ==
            ["cpe", "2.3", "a", v, p, r, "*", "*", "*", "*", "*", "*", "*"]
  {
  }

  lemma WildcardFields()
    ensures Split(WILDCARDS, ':') == ["*", "*", "*", "*", "*", "*", "*"]
  {
    SplitNone("*", ':');
    StarField("*");
    StarField("*:*");
    StarField("*:*:*");
    StarField("*:*:*:*");
    StarField("*:*:*:*:*");
    StarField("*:*:*:*:*:*");
  }

  lemma StarField(rest: string)
    ensures Split("*:" + rest, ':') == ["*"] + Split(rest, ':')
  {
    OneField("*", rest);
    assert "*" + ":" + rest == "*:" + rest;
  }

  // ---- names from elsewhere ---------------------------------------------------------------

  predicate EndsField(tail: string) {
    tail == "" || tail[0] == ':'
  }

  lemma FieldThenTail(f: string, tail: string)
    requires ':' !in f && EndsField(tail)
    ensures Split(f + tail, ':')[0] == f
    ensures tail == "" ==> Split(f + tail, ':') == [f]
    ensures tail != "" ==> Split(f + tail, ':') == [f] + Split(tail[1..], ':')
  {
    if tail == "" {
      assert f + tail == f;
      SplitNone(f, ':');
    } else {
      assert f + tail == f + ":" + tail[1..];
      OneField(f, tail[1..]);
    }
  }

  /** A formatted name as others write it: the prefix in any case, blanks around it, and
  anything after the version. The four fields are read, unescaped, and lower-cased but for
  the version. */
  lemma ParsesFormatted(cpe: string, head: string, part: string, vendor: string, product: string, version: string, tail: string)
    requires SameButCase(head, "cpe:2.3:") && EndsField(tail)
    requires ':' !in part && ':' !in vendor && ':' !in product && ':' !in version
    requires Strip(cpe) == head + (part + ":" + (vendor + ":" + (product + ":" + (version + tail))))
    ensures ParseCpe(cpe) == Some(CpeParts(Lower(part), Lower(Unescape(vendor)), Lower(Unescape(product)), Unescape(version)))
  {
    var rest := part + ":" + (vendor + ":" + (product + ":" + (version + tail)));
    HeadFields(head, rest);
    OneField(part, vendor + ":" + (product + ":" + (version + tail)));
    OneField(vendor, product + ":" + (version + tail));
    OneField(product, version + tail);
    FieldThenTail(version, tail);
    PrefixInAnyCase(Strip(cpe), head, rest, "cpe:2.3:");
    FieldsAfterHead(Split(head[..3], ':')[0], head[4..7], part, vendor, product, Split(version + tail, ':'));
  }

  lemma FieldsAfterHead(a: string, b: string, part: string, vendor: string, product: string, last: seq<string>)
    requires last != []
    ensures var fields := [a] + ([b] + ([part] + ([vendor] + ([product] + last))));
      |fields| >= 6 && fields[2] == part && fields[3] == vendor && fields[4] == product && fields[5] == last[0]
  {
  }

  lemma PrefixInAnyCase(s: string, head: string, rest: string, prefix: string)
    requires s == head + rest && SameButCase(head, prefix) && Lower(prefix) == prefix
    ensures StartsWith(Lower(s), prefix) && Lower(s)[..|prefix|] == prefix
  {
    LowerSameIff(head, prefix);
    assert Lower(s)[..|prefix|] == Lower(head);
  }

  lemma HeadFields(head: string, rest: string)
    requires SameButCase(head, "cpe:2.3:")
    ensures Split(head + rest, ':') == [head[..3]] + ([head[4..7]] + Split(rest, ':'))
  {
    var a, b := head[..3], head[4..7];
    assert head[3] == ':' && head[7] == ':';
    assert head == a + ":" + (b + ":" + "");
    assert head + rest == a + ":" + (b + ":" + rest);
    OneField(a, b + ":" + rest);
    OneField(b, rest);
  }

  /** A name in the older binding: part, vendor and product, and possibly a version and
  more. It is refused exactly without a product; nothing is unescaped. */
  lemma ParsesUri(cpe: string, head: string, part: string, vendor: string, product: string, tail: string)
    requires SameButCase(head, "cpe:/") && EndsField(tail)
    requires ':' !in part && ':' !in vendor && ':' !in product
    requires Strip(cpe) == head + (part + ":" + (vendor + ":" + (product + tail)))
    ensures ParseCpe(cpe).None? <==> product == ""
    ensures product != "" ==>
      var version := if tail == "" then "*" else OrElse(Split(tail[1..], ':')[0], "*");
      ParseCpe(cpe) == Some(CpeParts(OrElse(Lower(part), "a"), Lower(vendor), Lower(product), version))
  {
    var s, rest := Strip(cpe), part + ":" + (vendor + ":" + (product + tail));
    UriFields(part, vendor, product, tail);
    PrefixInAnyCase(s, head, rest, "cpe:/");
    assert Lower(s)[4] == '/' && s[5..] == rest;
  }

  lemma UriFields(part: string, vendor: string, product: string, tail: string)
    requires EndsField(tail) && ':' !in part && ':' !in vendor && ':' !in product
    ensures var fields := Split(part + ":" + (vendor + ":" + (product + tail)), ':');
      && |fields| >= 3 && fields[0] == part && fields[1] == vendor && fields[2] == product
      && (tail == "" ==> |fields| == 3)
      && (tail != "" ==> |fields| > 3 && fields[3] == Split(tail[1..], ':')[0])
  {
    OneField(part, vendor + ":" + (product + tail));
    OneField(vendor, product + tail);
    FieldThenTail(product, tail);
  }
}
