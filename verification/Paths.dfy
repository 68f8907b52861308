/** Path containment on POSIX: the string test that guards extraction, against
containment of normalized components. */
module Paths {
  import opened Collections
  import opened Text

  predicate IsAbs(path: string) {
    path != "" && path[0] == '/'
  }

  /** A directory as the front of a longer path. */
  function Front(a: string): string {
    if a == "" || a[|a| - 1] == '/' then a else a + "/"
  }

  /** `os.path.join`. */
  function PathJoin(a: string, b: string): string {
    if IsAbs(b) then b else Front(a) + b
  }

  // ---- normalized places --------------------------------------------------------------------

  /** Where an absolute path leads: one or two leading slashes, then components. */
  datatype Place = Place(slashes: nat, comps: seq<string>)

  predicate Component(c: string) {
    c != "" && c != "." && c != ".." && '/' !in c
  }

  predicate Components(cs: seq<string>) {
    forall c :: c in cs ==> Component(c)
  }

  /** Follow one piece of a path. */
  function Step(at: seq<string>, piece: string): seq<string> {
    if piece == "" || piece == "." then at
    else if piece != ".." then at + [piece]
    else if at != [] then at[..|at| - 1]
    else at
  }

  function Walk(at: seq<string>, pieces: seq<string>): seq<string> {
    if pieces == [] then at else Step(Walk(at, pieces[..|pieces| - 1]), pieces[|pieces| - 1])
  }

  /** POSIX keeps exactly two leading slashes apart; three or more count as one. */
  function Slashes(path: string): nat
    requires IsAbs(path)
  {
    if |path| > 1 && path[1] == '/' && !(|path| > 2 && path[2] == '/') then 2 else 1
  }

  function PlaceOf(path: string): Place
    requires IsAbs(path)
  {
    Place(Slashes(path), Walk([], Split(path, '/')))
  }

  function Join(cs: seq<string>): string {
    if cs == [] then "" else if |cs| == 1 then cs[0] else cs[0] + ['/'] + Join(cs[1..])
  }

  function Render(p: Place): string {
    (if p.slashes == 2 then "//" else "/") + Join(p.comps)
  }

  /** `os.path.normpath` of an absolute path. */
  function NormPath(path: string): (r: string)
    requires IsAbs(path)
    ensures IsAbs(r)
  {
    Render(PlaceOf(path))
  }

  predicate ValidPlace(p: Place) {
    (p.slashes == 1 || p.slashes == 2) && Components(p.comps)
  }

  lemma {:induction false} WalkAppend(at: seq<string>, p: seq<string>, q: seq<string>)
    ensures Walk(at, p + q) == Walk(Walk(at, p), q)
  {
    if q == [] {
      assert p + q == p;
    } else {
      WalkAppend(at, p, q[..|q| - 1]);
      assert (p + q)[..|p + q| - 1] == p + q[..|q| - 1];
    }
  }

  lemma {:induction false} WalkComponents(at: seq<string>, cs: seq<string>)
    requires Components(cs)
    ensures Walk(at, cs) == at + cs
  {
    if cs != [] {
      var front, last := cs[..|cs| - 1], cs[|cs| - 1];
      assert forall c :: c in front ==> c in cs;
      WalkComponents(at, front);
      assert last in cs && at + cs == at + front + [last];
    }
  }

  lemma {:induction false} WalkValid(at: seq<string>, pieces: seq<string>)
    requires Components(at) && forall p :: p in pieces ==> '/' !in p
    ensures Components(Walk(at, pieces))
  {
    if pieces != [] {
      assert forall p :: p in pieces[..|pieces| - 1] ==> p in pieces;
      WalkValid(at, pieces[..|pieces| - 1]);
      assert pieces[|pieces| - 1] in pieces;
    }
  }

  lemma {:induction false} SplitPieces(s: string, sep: char)
    ensures forall p :: p in Split(s, sep) ==> sep !in p
  {
    if s != "" {
      SplitPieces(s[1..], sep);
    }
  }

  lemma PlaceIsValid(path: string)
    requires IsAbs(path)
    ensures ValidPlace(PlaceOf(path))
  {
    SplitPieces(path, '/');
    WalkValid([], Split(path, '/'));
  }

  lemma {:induction false} SplitJoin(cs: seq<string>)
    requires cs != [] && Components(cs)
    ensures Split(Join(cs), '/') == cs
  {
    assert cs[0] in cs;
    SplitNone(cs[0], '/');
    if |cs| > 1 {
      assert forall c :: c in cs[1..] ==> c in cs;
      SplitJoin(cs[1..]);
      SplitAppend(cs[0], Join(cs[1..]), '/');
      assert cs == [cs[0]] + cs[1..];
    }
  }

  lemma {:induction false} JoinAppend(a: seq<string>, b: seq<string>)
    requires a != [] && b != []
    ensures Join(a + b) == Join(a) + ['/'] + Join(b)
  {
    assert (a + b)[1..] == a[1..] + b;
    if |a| > 1 {
      JoinAppend(a[1..], b);
      assert a[0] + ['/'] + (Join(a[1..]) + ['/'] + Join(b)) == a[0] + ['/'] + Join(a[1..]) + ['/'] + Join(b);
    }
  }

  lemma JoinStart(cs: seq<string>)
    requires Components(cs)
    ensures cs != [] ==> Join(cs) != "" && Join(cs)[0] != '/'
  {
    if cs != [] {
      assert cs[0] in cs && cs[0][0] in cs[0];
    }
  }

  function Blanks(p: Place): seq<string> {
    if p.slashes == 2 then ["", ""] else [""]
  }

  lemma SplitSlash(s: string)
    ensures Split(['/'] + s, '/') == [""] + Split(s, '/')
  {
    SplitCons('/', s, '/');
  }

  lemma SplitRender(p: Place)
    requires ValidPlace(p)
    ensures Split(Render(p), '/') == Blanks(p) + (if p.comps == [] then [""] else p.comps)
  {
    var s := Join(p.comps);
    if p.comps != [] {
      SplitJoin(p.comps);
    }
    SplitSlash(s);
    if p.slashes == 2 {
      SplitSlash(['/'] + s);
      assert Render(p) == ['/'] + (['/'] + s);
      assert [""] + ([""] + Split(s, '/')) == ["", ""] + Split(s, '/');
    }
  }

  /** Normalizing is idempotent: a rendered place is read back as itself. */
  lemma RenderIsRead(p: Place)
    requires ValidPlace(p)
    ensures PlaceOf(Render(p)) == p
  {
    SplitRender(p);
    JoinStart(p.comps);
    var pieces := if p.comps == [] then [""] else p.comps;
    WalkAppend([], Blanks(p), pieces);
    assert Walk([], Blanks(p)) == [] by {
      assert Walk([], [""]) == [];
      assert ["", ""][..1] == [""];
    }
    if p.comps != [] {
      WalkComponents([], p.comps);
    }
  }

  // ---- containment ------------------------------------------------------------------------------

  /** `os.path.abspath` normalizes, and `_norm` normalizes once more. */
  function Norm(cwd: string, path: string): string
    requires IsAbs(cwd)
  {
    NormPath(NormPath(PathJoin(cwd, path)))
  }

  predicate IsWithin(cwd: string, root: string, candidate: string)
    requires IsAbs(cwd)
  {
    var r, c := Norm(cwd, root), Norm(cwd, candidate);
    c == r || r + "/" <= c
  }

  function Resolve(cwd: string, path: string): Place
    requires IsAbs(cwd)
  {
    PlaceOf(PathJoin(cwd, path))
  }

  /** Containment as it is meant: the root's components begin the candidate's. */
  predicate Contains(root: Place, candidate: Place) {
    root.slashes == candidate.slashes && root.comps <= candidate.comps
  }

  predicate AllBlank(p: seq<string>) {
    forall i :: 0 <= i < |p| ==> p[i] == ""
  }

  lemma BlanksAlign(p: seq<string>, a: seq<string>, t: seq<string>, q: seq<string>, b: seq<string>)
    requires AllBlank(p) && AllBlank(q) && a != [] && b != [] && a[0] != "" && b[0] != ""
    requires p + a + t == q + b
    ensures |p| == |q| && b == a + t
  {
    var left, right := p + a + t, q + b;
    assert left[|p|] == a[0] && right[|q|] == b[0];
    assert AllBlank(left[..|p|]) && AllBlank(right[..|q|]);
    assert forall i :: 0 <= i < |p| ==> left[i] == left[..|p|][i];
    assert forall i :: 0 <= i < |q| ==> right[i] == right[..|q|][i];
    assert b == right[|q|..] && a + t == left[|p|..];
  }

  lemma PrefixIsContained(r: Place, c: Place)
    requires ValidPlace(r) && ValidPlace(c) && r.comps != []
    requires Render(r) + "/" <= Render(c)
    ensures Contains(r, c)
  {
    var t := Render(c)[|Render(r)| + 1..];
    assert Render(c) == Render(r) + ['/'] + t;
    SplitAppend(Render(r), t, '/');
    SplitRender(r);
    SplitRender(c);
    assert r.comps[0] in r.comps;
    var pieces := Split(Render(c), '/');
    assert c.comps == [] ==> AllBlank(pieces);
    assert pieces[|Blanks(r)|] == r.comps[0];
    assert c.comps[0] in c.comps;
    BlanksAlign(Blanks(r), r.comps, Split(t, '/'), Blanks(c), c.comps);
  }

  lemma ContainedIsPrefix(r: Place, c: Place)
    requires r.comps != [] && Contains(r, c) && r != c
    ensures Render(r) + "/" <= Render(c)
  {
    var more := c.comps[|r.comps|..];
    assert c.comps == r.comps + more;
    JoinAppend(r.comps, more);
  }

  lemma BareRoot(r: Place, c: Place)
    requires ValidPlace(r) && ValidPlace(c) && r.comps == []
    ensures Render(r) + "/" <= Render(c) <==> r.slashes == 1 && c.slashes == 2
  {
    JoinStart(c.comps);
    var s := Render(c);
    assert |s| > 1 ==> (s[1] == '/' <==> c.slashes == 2);
    assert |s| > 2 && c.slashes == 2 ==> s[2] != '/';
    if r.slashes == 1 {
      assert Render(r) + "/" == "//";
      assert c.slashes == 2 ==> s[..2] == "//";
    } else {
      assert Render(r) + "/" == "///";
    }
  }

  lemma RenderInjective(r: Place, c: Place)
    requires ValidPlace(r) && ValidPlace(c) && Render(r) == Render(c)
    ensures r == c
  {
    RenderIsRead(r);
    RenderIsRead(c);
  }

  lemma NormIsRender(cwd: string, path: string)
    requires IsAbs(cwd)
    ensures ValidPlace(Resolve(cwd, path)) && Norm(cwd, path) == Render(Resolve(cwd, path))
  {
    PlaceIsValid(PathJoin(cwd, path));
    RenderIsRead(Resolve(cwd, path));
  }

  /** The string test is containment of components, except below a root without
  components, where only the root itself (and, for `/`, every `//` path) passes. */
  lemma IsWithinIff(cwd: string, root: string, candidate: string)
    requires IsAbs(cwd)
    ensures var r, c := Resolve(cwd, root), Resolve(cwd, candidate);
      IsWithin(cwd, root, candidate) <==>
      if r.comps != [] then Contains(r, c) else c == r || (r.slashes == 1 && c.slashes == 2)
  {
    var r, c := Resolve(cwd, root), Resolve(cwd, candidate);
    NormIsRender(cwd, root);
    NormIsRender(cwd, candidate);
    if Render(r) == Render(c) {
      RenderInjective(r, c);
    }
    if r.comps == [] {
      BareRoot(r, c);
    } else if Render(r) + "/" <= Render(c) {
      PrefixIsContained(r, c);
    } else if Contains(r, c) && r != c {
      ContainedIsPrefix(r, c);
    }
  }

  lemma ChildOfBareRoot(r: Place)
    requires ValidPlace(r) && r.comps == []
    ensures IsAbs(Render(Place(r.slashes, ["x"]))) && PlaceOf(Render(Place(r.slashes, ["x"]))) == Place(r.slashes, ["x"])
  {
    RenderIsRead(Place(r.slashes, ["x"]));
  }

  /** The test agrees with containment for every candidate exactly when the root is not a
  bare `/` or `//`: those two do not even contain their own children. */
  lemma AgreesUnlessBareRoot(cwd: string, root: string)
    requires IsAbs(cwd)
    ensures (forall c :: IsWithin(cwd, root, c) <==> Contains(Resolve(cwd, root), Resolve(cwd, c)))
            <==> Resolve(cwd, root).comps != []
  {
    var r := Resolve(cwd, root);
    forall c
      ensures r.comps != [] ==> (IsWithin(cwd, root, c) <==> Contains(r, Resolve(cwd, c)))
    {
      IsWithinIff(cwd, root, c);
    }
    if r.comps == [] {
      NormIsRender(cwd, root);
      ChildOfBareRoot(r);
      var child := Render(Place(r.slashes, ["x"]));
      IsWithinIff(cwd, root, child);
      assert Contains(r, Resolve(cwd, child)) && !IsWithin(cwd, root, child);
    }
  }

  // ---- joining a member name -----------------------------------------------------------------------

  const LAYER_ZIP_SLIP := "zip_slip"

  predicate LooksAbsolute(member: string) {
    member != "" && (member[0] == '/' || member[0] == '\\')
  }

  function SafeJoin(cwd: string, root: string, member: string): Result<string, string>
    requires IsAbs(cwd)
  {
    if IsAbs(member) || LooksAbsolute(member) then Failure(LAYER_ZIP_SLIP)
    else
      var target := PathJoin(root, member);
      if !IsWithin(cwd, root, target) then Failure(LAYER_ZIP_SLIP) else Success(target)
  }

  lemma FrontAppend(base: string, a: string)
    requires a != ""
    ensures Front(base + a) == base + Front(a)
  {
    assert (base + a)[|base + a| - 1] == a[|a| - 1];
    assert base + a + "/" == base + (a + "/");
  }

  lemma JoinAssociates(cwd: string, root: string, member: string)
    requires IsAbs(cwd) && !IsAbs(member)
    ensures PathJoin(cwd, PathJoin(root, member)) == PathJoin(PathJoin(cwd, root), member)
  {
    if root == "" {
      assert Front(root) + member == member;
      assert Front(cwd) + root == Front(cwd);
    } else {
      assert (Front(root) + member)[0] == root[0];
      if !IsAbs(root) {
        FrontAppend(Front(cwd), root);
        assert Front(cwd) + (Front(root) + member) == Front(cwd) + Front(root) + member;
      }
    }
  }

  lemma WalkOn(s: string, more: string)
    ensures Walk([], Split(s + ['/'] + more, '/')) == Walk(Walk([], Split(s, '/')), Split(more, '/'))
  {
    SplitAppend(s, more, '/');
    WalkAppend([], Split(s, '/'), Split(more, '/'));
  }

  /** A slash at the end leads nowhere. */
  lemma TrailingSlash(s: string)
    ensures Walk([], Split(s + ['/'], '/')) == Walk([], Split(s, '/'))
  {
    WalkOn(s, "");
    assert s + ['/'] + "" == s + ['/'];
    assert Walk(Walk([], Split(s, '/')), [""]) == Walk([], Split(s, '/'));
  }

  lemma JoinSlashes(a: string, member: string)
    requires IsAbs(a) && !IsAbs(member)
    ensures IsAbs(PathJoin(a, member)) && Slashes(PathJoin(a, member)) == Slashes(a)
  {
    var s := PathJoin(a, member);
    assert forall i :: 0 <= i < |a| ==> s[i] == a[i];
  }

  lemma JoinWalk(a: string, member: string)
    requires IsAbs(a) && !IsAbs(member)
    ensures Walk([], Split(PathJoin(a, member), '/')) == Walk(Walk([], Split(a, '/')), Split(member, '/'))
  {
    if a[|a| - 1] == '/' {
      var front := a[..|a| - 1];
      assert a == front + ['/'];
      TrailingSlash(front);
      WalkOn(front, member);
    } else {
      WalkOn(a, member);
    }
  }

  /** Joining a relative member walks its pieces from where the base leads. */
  lemma PlaceOfJoin(a: string, member: string)
    requires IsAbs(a) && !IsAbs(member)
    ensures IsAbs(PathJoin(a, member))
    ensures PlaceOf(PathJoin(a, member)) == Place(PlaceOf(a).slashes, Walk(PlaceOf(a).comps, Split(member, '/')))
  {
    JoinSlashes(a, member);
    JoinWalk(a, member);
  }

  /** A member name is accepted exactly when it does not look absolute and its pieces,
  walked from the root, end at or below the root; what is returned leads there. */
  lemma SafeJoinIff(cwd: string, root: string, member: string)
    requires IsAbs(cwd)
    ensures var r, out := Resolve(cwd, root), SafeJoin(cwd, root, member);
      && var place := Place(r.slashes, Walk(r.comps, Split(member, '/')));
      && (out.Success? <==> !LooksAbsolute(member) && if r.comps != [] then r.comps <= place.comps else place.comps == [])
      && (out.Success? ==> out.value == PathJoin(root, member) && Resolve(cwd, out.value) == place && Contains(r, place))
      && (out.Failure? ==> out.error == LAYER_ZIP_SLIP)
  {
    if !LooksAbsolute(member) {
      JoinAssociates(cwd, root, member);
      PlaceOfJoin(PathJoin(cwd, root), member);
      IsWithinIff(cwd, root, PathJoin(root, member));
    }
  }

  lemma {:induction false} WalkWithoutUps(at: seq<string>, pieces: seq<string>)
    requires ".." !in pieces
    ensures Walk(at, pieces) == at + Walk([], pieces)
  {
    if pieces != [] {
      assert ".." !in pieces[..|pieces| - 1];
      WalkWithoutUps(at, pieces[..|pieces| - 1]);
      assert pieces[|pieces| - 1] in pieces;
    }
  }

  /** No member without a `..` piece is refused below a proper root. */
  lemma PlainMembersAccepted(cwd: string, root: string, member: string)
    requires IsAbs(cwd) && Resolve(cwd, root).comps != []
    requires !LooksAbsolute(member) && ".." !in Split(member, '/')
    ensures SafeJoin(cwd, root, member) == Success(PathJoin(root, member))
  {
    SafeJoinIff(cwd, root, member);
    WalkWithoutUps(Resolve(cwd, root).comps, Split(member, '/'));
  }

  // ---- what the pieces of a path mean ----------------------------------------------------------------

  /** A member that begins with a slash or a backslash is refused. */
  lemma AbsoluteRefused(cwd: string, root: string, member: string)
    requires IsAbs(cwd) && member != "" && (member[0] == '/' || member[0] == '\\')
    ensures SafeJoin(cwd, root, member) == Failure(LAYER_ZIP_SLIP)
  {
    SafeJoinIff(cwd, root, member);
  }

  /** Exactly two leading slashes are kept apart; one, and three or more, count as one. */
  lemma LeadingSlashes(s: string)
    requires s == "" || s[0] != '/'
    ensures PlaceOf("/" + s).slashes == 1 && PlaceOf("//" + s).slashes == 2
    ensures forall more :: PlaceOf("///" + more).slashes == 1
  {
    assert ("//" + s)[1] == '/' && (s != "" ==> ("//" + s)[2] == s[0]);
    forall more
      ensures PlaceOf("///" + more).slashes == 1
    {
      assert ("///" + more)[1] == '/' && ("///" + more)[2] == '/';
    }
  }

  lemma OneStep(at: seq<string>, piece: string)
    ensures Walk(at, [piece]) == Step(at, piece)
  {
    assert [piece][..0] == [];
  }

  /** `..` leads to the parent, and from the top to the top; `.` and an empty piece lead
  nowhere; any other piece leads one component down. */
  lemma PieceLeads(a: string, piece: string)
    requires IsAbs(a) && '/' !in piece
    ensures var p, q := PlaceOf(a), PlaceOf(PathJoin(a, piece));
      && (piece == ".." && p.comps == [] ==> q == p)
      && (piece == ".." && p.comps != [] ==> exists last :: q.slashes == p.slashes && p.comps == q.comps + [last])
      && (piece == "." || piece == "" ==> q == p)
      && (Component(piece) ==> q == Place(p.slashes, p.comps + [piece]))
  {
    var p, q := PlaceOf(a), PlaceOf(PathJoin(a, piece));
    PlaceOfJoin(a, piece);
    SplitNone(piece, '/');
    OneStep(p.comps, piece);
    if piece == ".." && p.comps != [] {
      assert p.comps == q.comps + [p.comps[|p.comps| - 1]];
    }
  }

  lemma SplitDownUp(c: string, m: string)
    requires Component(c)
    ensures !IsAbs(c + "/..") && Split(c + "/..", '/') == [c, ".."]
    ensures Split(c + "/../" + m, '/') == [c, ".."] + Split(m, '/')
  {
    SplitNone(c, '/');
    SplitNone("..", '/');
    SplitAppend(c, "..", '/');
    assert c + "/.." == c + ['/'] + "..";
    assert (c + "/..")[0] == c[0] && c[0] in c;
    SplitAppend(c + "/..", m, '/');
    assert c + "/../" + m == (c + "/..") + ['/'] + m;
  }

  lemma WalkDownUp(at: seq<string>, c: string)
    requires Component(c)
    ensures Walk(at, [c, ".."]) == at
  {
    OneStep(at, c);
    assert [c, ".."][..1] == [c];
    assert (at + [c])[..|at|] == at;
  }

  /** Down into a component and up again leads back. */
  lemma UpUndoesDown(a: string, c: string)
    requires IsAbs(a) && Component(c)
    ensures PlaceOf(PathJoin(a, c + "/..")) == PlaceOf(a)
  {
    SplitDownUp(c, "");
    PlaceOfJoin(a, c + "/..");
    WalkDownUp(PlaceOf(a).comps, c);
  }

  /** With a slash written between, it does so except from the bare roots, where that slash
  changes how many lead. */
  lemma UpUndoesDownIff(a: string, c: string)
    requires IsAbs(a) && Component(c)
    ensures PlaceOf(a + ['/'] + (c + "/..")) == PlaceOf(a) <==> a != "/" && a != "//"
  {
    var more := c + "/..";
    SplitDownUp(c, "");
    WalkOn(a, more);
    WalkDownUp(Walk([], Split(a, '/')), c);
    SlashesAfter(a, more);
  }

  lemma SlashesAfter(a: string, more: string)
    requires IsAbs(a) && more != "" && !IsAbs(more)
    ensures Slashes(a + ['/'] + more) == Slashes(a) <==> a != "/" && a != "//"
  {
    var s := a + ['/'] + more;
    assert forall i :: 0 <= i < |a| ==> s[i] == a[i];
    assert s[|a|] == '/' && s[|a| + 1] == more[0];
    if |a| == 1 {
      assert a == "/";
    } else if |a| == 2 {
      assert a == ['/'] + [a[1]];
    }
  }

  /** The parent directory is refused below every proper root. */
  lemma ParentRefused(cwd: string, root: string)
    requires IsAbs(cwd) && Resolve(cwd, root).comps != []
    ensures SafeJoin(cwd, root, "..") == Failure(LAYER_ZIP_SLIP)
  {
    SafeJoinIff(cwd, root, "..");
    SplitNone("..", '/');
    OneStep(Resolve(cwd, root).comps, "..");
  }

  lemma ClimbWalk(r: seq<string>, m: string)
    requires r != [] && ".." !in Split(m, '/')
    ensures Walk(r, Split("../" + m, '/')) == r[..|r| - 1] + Walk([], Split(m, '/'))
  {
    var pieces := Split(m, '/');
    assert "../" + m == ".." + ['/'] + m;
    SplitAppend("..", m, '/');
    SplitNone("..", '/');
    OneStep(r, "..");
    WalkAppend(r, [".."], pieces);
    WalkWithoutUps(r[..|r| - 1], pieces);
  }

  lemma LastIsNext(r: seq<string>, w: seq<string>)
    requires r != []
    ensures r <= r[..|r| - 1] + w <==> [r[|r| - 1]] <= w
  {
    var up, last := r[..|r| - 1], r[|r| - 1];
    assert r == up + [last];
    PrefixCancels(up, [last], w);
  }

  /** Out of the root and down again: accepted exactly when the first component on the way
  down is the root's own name. */
  lemma ClimbAcceptedIff(cwd: string, root: string, m: string)
    requires IsAbs(cwd) && Resolve(cwd, root).comps != [] && ".." !in Split(m, '/')
    ensures var r := Resolve(cwd, root).comps;
      SafeJoin(cwd, root, "../" + m).Success? <==> [r[|r| - 1]] <= Walk([], Split(m, '/'))
  {
    var r := Resolve(cwd, root).comps;
    SafeJoinIff(cwd, root, "../" + m);
    ClimbWalk(r, m);
    LastIsNext(r, Walk([], Split(m, '/')));
    assert ("../" + m)[0] == '.';
  }

  lemma PrefixCancels<T>(a: seq<T>, b: seq<T>, c: seq<T>)
    ensures a + b <= a + c <==> b <= c
  {
    if a + b <= a + c {
      assert b == (a + b)[|a|..] && (a + c)[|a|..|a + b|] == c[..|b|];
    }
  }

  /** Going down and up first makes no difference to what is accepted. */
  lemma DownUpIrrelevant(cwd: string, root: string, c: string, m: string)
    requires IsAbs(cwd) && Component(c) && !LooksAbsolute(c) && !LooksAbsolute(m)
    ensures SafeJoin(cwd, root, c + "/../" + m).Success? <==> SafeJoin(cwd, root, m).Success?
  {
    var r := Resolve(cwd, root).comps;
    SafeJoinIff(cwd, root, m);
    SafeJoinIff(cwd, root, c + "/../" + m);
    SplitDownUp(c, m);
    WalkDownUp(r, c);
    WalkAppend(r, [c, ".."], Split(m, '/'));
    assert (c + "/../" + m)[0] == c[0];
  }
}
