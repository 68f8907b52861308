/** The hardening flags of an ELF image, read straight from its program headers and its
dynamic array. */
module Hardening {
  import opened Collections

  type Byte = x: int | 0 <= x < 256

  type Bytes = seq<Byte>

  // ---- integers in a byte order ------------------------------------------------------------

  function Pow256(n: nat): nat {
    if n == 0 then 1 else 256 * Pow256(n - 1)
  }

  function Unsigned(b: Bytes, big: bool): nat {
    if b == [] then 0
    else if big then 256 * Unsigned(b[..|b| - 1], big) + b[|b| - 1]
    else b[0] + 256 * Unsigned(b[1..], big)
  }

  /** The `n` bytes that store `v`. */
  function Stored(v: nat, n: nat, big: bool): Bytes {
    if n == 0 then []
    else if big then Stored(v / 256, n - 1, big) + [v % 256]
    else [v % 256] + Stored(v / 256, n - 1, big)
  }

  /** Reading inverts storing, in both byte orders. */
  lemma {:induction false} ReadsWhatIsStored(v: nat, n: nat, big: bool)
    requires v < Pow256(n)
    ensures |Stored(v, n, big)| == n && Unsigned(Stored(v, n, big), big) == v
  {
    if n > 0 {
      ReadsWhatIsStored(v / 256, n - 1, big);
      var rest := Stored(v / 256, n - 1, big);
      var b := Stored(v, n, big);
      if big {
        assert b[..|b| - 1] == rest;
      } else {
        assert b[1..] == rest;
      }
    }
  }

  /** Storing inverts reading, so a field has one reading per byte order. */
  lemma {:induction false} StoresWhatIsRead(b: Bytes, big: bool)
    ensures Unsigned(b, big) < Pow256(|b|) && Stored(Unsigned(b, big), |b|, big) == b
  {
    if b != [] {
      var rest, last := if big then b[..|b| - 1] else b[1..], if big then b[|b| - 1] else b[0];
      StoresWhatIsRead(rest, big);
      assert Unsigned(b, big) / 256 == Unsigned(rest, big) && Unsigned(b, big) % 256 == last;
      assert b == if big then rest + [last] else [last] + rest;
    }
  }

  /** The lowest byte comes first in the little order and last in the big one. */
  lemma LowestByte(b: Bytes, big: bool)
    requires b != []
    ensures Unsigned(b, big) % 256 == if big then b[|b| - 1] else b[0]
  {
  }

  function Field(data: Bytes, at: nat, n: nat, big: bool): nat
    requires at + n <= |data|
  {
    Unsigned(data[at..at + n], big)
  }

  lemma FieldOfPrefix(data: Bytes, extra: Bytes, at: nat, n: nat, big: bool)
    requires at + n <= |data|
    ensures Field(data + extra, at, n, big) == Field(data, at, n, big)
  {
    assert (data + extra)[at..at + n] == data[at..at + n];
  }

  /** An unpack that raises a struct error becomes `None`. The precondition keeps every
  offset near the data: an offset past the machine's index range would raise an error
  that nobody catches. */
  function UnpackAt(data: Bytes, at: nat, n: nat, big: bool): Option<nat>
    requires at <= |data| + 64
  {
    if at + n <= |data| then Some(Field(data, at, n, big)) else None
  }

  // ---- the file header ---------------------------------------------------------------------

  datatype Header = Header(big: bool, is64: bool, eType: nat, phoff: nat, phentsize: nat, phnum: nat)

  predicate IsElf(data: Bytes) {
    |data| >= 4 && data[..4] == [0x7f, 0x45, 0x4c, 0x46]
  }

  predicate Is64(data: Bytes) {
    |data| > 4 && data[4] == 2
  }

  function HeaderSize(data: Bytes): nat {
    if Is64(data) then 58 else 46
  }

  function HeaderOf(data: Bytes): Header
    requires |data| >= HeaderSize(data)
  {
    var big := data[5] != 1;
    if Is64(data) then
      Header(big, true, Field(data, 16, 2, big), Field(data, 32, 8, big), Field(data, 54, 2, big), Field(data, 56, 2, big))
    else
      Header(big, false, Field(data, 16, 2, big), Field(data, 28, 4, big), Field(data, 42, 2, big), Field(data, 44, 2, big))
  }

  method UnpackHeader(data: Bytes) returns (h: Option<Header>)
    ensures h == if |data| >= HeaderSize(data) then Some(HeaderOf(data)) else None
  {
    if |data| < 6 {
      return None;
    }
    var big, is64 := data[5] != 1, data[4] == 2;
    var eType := UnpackAt(data, 16, 2, big);
    if eType.None? {
      return None;
    }
    var phoff, phentsize, phnum;
    if is64 {
      phoff := UnpackAt(data, 32, 8, big);
      phentsize := UnpackAt(data, 54, 2, big);
      phnum := UnpackAt(data, 56, 2, big);
    } else {
      phoff := UnpackAt(data, 28, 4, big);
      phentsize := UnpackAt(data, 42, 2, big);
      phnum := UnpackAt(data, 44, 2, big);
    }
    if phoff.None? || phentsize.None? || phnum.None? {
      return None;
    }
    h := Some(Header(big, is64, eType.value, phoff.value, phentsize.value, phnum.value));
  }

  // ---- the program header table ----------------------------------------------------------------

  const PT_DYNAMIC := 0x2
  const PT_GNU_STACK := 0x6474E551
  const PT_GNU_RELRO := 0x6474E552
  const ET_DYN := 3

  datatype Segment = Segment(kind: nat, flags: nat, offset: nat, filesz: nat)

  function SegmentSize(h: Header): nat {
    if h.is64 then 40 else 28
  }

  function Base(h: Header, i: nat): nat {
    h.phoff + i * h.phentsize
  }

  function SegmentAt(data: Bytes, h: Header, base: nat): Segment
    requires base + SegmentSize(h) <= |data|
  {
    if h.is64 then
      Segment(Field(data, base, 4, h.big), Field(data, base + 4, 4, h.big),
              Field(data, base + 8, 8, h.big), Field(data, base + 32, 8, h.big))
    else
      Segment(Field(data, base, 4, h.big), Field(data, base + 24, 4, h.big),
              Field(data, base + 4, 4, h.big), Field(data, base + 16, 4, h.big))
  }

  method UnpackSegment(data: Bytes, h: Header, base: nat) returns (s: Option<Segment>)
    requires base <= |data|
    ensures s == if base + SegmentSize(h) <= |data| then Some(SegmentAt(data, h, base)) else None
  {
    var kind, flags, offset, filesz;
    if h.is64 {
      kind := UnpackAt(data, base, 4, h.big);
      flags := UnpackAt(data, base + 4, 4, h.big);
      offset := UnpackAt(data, base + 8, 8, h.big);
      filesz := UnpackAt(data, base + 32, 8, h.big);
    } else {
      kind := UnpackAt(data, base, 4, h.big);
      offset := UnpackAt(data, base + 4, 4, h.big);
      filesz := UnpackAt(data, base + 16, 4, h.big);
      flags := UnpackAt(data, base + 24, 4, h.big);
    }
    if kind.None? || flags.None? || offset.None? || filesz.None? {
      return None;
    }
    s := Some(Segment(kind.value, flags.value, offset.value, filesz.value));
  }

  /** Entry `i` lies inside the file, going by the declared entry size. */
  predicate Fits(data: Bytes, h: Header, i: nat) {
    Base(h, i) + h.phentsize <= |data|
  }

  lemma FitsDownwards(data: Bytes, h: Header, i: nat, j: nat)
    requires i <= j && Fits(data, h, j)
    ensures Fits(data, h, i)
  {
    assert i * h.phentsize <= j * h.phentsize;
  }

  /** How many entries are looked at: up to the first that does not fit. */
  function Visible(data: Bytes, h: Header, i: nat): (n: nat)
    requires i <= h.phnum
    ensures i <= n <= h.phnum
    decreases h.phnum - i
  {
    if i == h.phnum || !Fits(data, h, i) then i else Visible(data, h, i + 1)
  }

  /** They are exactly the entries inside the file. */
  lemma {:induction false} VisibleIff(data: Bytes, h: Header, i: nat, k: nat)
    requires i <= k < h.phnum && (forall j: nat :: j < i ==> Fits(data, h, j))
    ensures k < Visible(data, h, i) <==> Fits(data, h, k)
    decreases h.phnum - i
  {
    if !Fits(data, h, i) {
      if Fits(data, h, k) {
        FitsDownwards(data, h, i, k);
      }
    } else if i < k {
      VisibleIff(data, h, i + 1, k);
    }
  }

  predicate Readable(data: Bytes, h: Header, n: nat) {
    forall i: nat {:trigger Base(h, i)} :: i < n ==> Base(h, i) + SegmentSize(h) <= |data|
  }

  /** With the entry size of the ABI every visible entry can be read. */
  lemma ProperEntrySizeIsReadable(data: Bytes, h: Header)
    requires h.phentsize >= SegmentSize(h)
    ensures Readable(data, h, Visible(data, h, 0))
  {
    forall i: nat {:trigger Base(h, i)} | i < Visible(data, h, 0)
      ensures Base(h, i) + SegmentSize(h) <= |data|
    {
      VisibleIff(data, h, 0, i);
    }
  }

  /** The last of the first `n` entries with the given type. */
  function LastOfKind(data: Bytes, h: Header, n: nat, kind: nat): Option<Segment>
    requires Readable(data, h, n)
  {
    if n == 0 then None
    else
      var s := SegmentAt(data, h, Base(h, n - 1));
      if s.kind == kind then Some(s) else LastOfKind(data, h, n - 1, kind)
  }

  lemma {:induction false} LastOfKindIs(data: Bytes, h: Header, n: nat, kind: nat, k: nat)
    requires Readable(data, h, n) && k < n && SegmentAt(data, h, Base(h, k)).kind == kind
    requires forall j: nat {:trigger Base(h, j)} :: k < j < n ==> SegmentAt(data, h, Base(h, j)).kind != kind
    ensures LastOfKind(data, h, n, kind) == Some(SegmentAt(data, h, Base(h, k)))
  {
    if k < n - 1 {
      assert SegmentAt(data, h, Base(h, n - 1)).kind != kind;
      LastOfKindIs(data, h, n - 1, kind, k);
    }
  }

  lemma {:induction false} NoneOfKindIs(data: Bytes, h: Header, n: nat, kind: nat)
    requires Readable(data, h, n)
    ensures LastOfKind(data, h, n, kind).None? <==>
            forall j: nat {:trigger Base(h, j)} :: j < n ==> SegmentAt(data, h, Base(h, j)).kind != kind
  {
    if n > 0 {
      NoneOfKindIs(data, h, n - 1, kind);
      assert SegmentAt(data, h, Base(h, n - 1)).kind == kind || LastOfKind(data, h, n, kind) == LastOfKind(data, h, n - 1, kind);
    }
  }

  // ---- the dynamic array -------------------------------------------------------------------------

  function EntrySize(h: Header): nat {
    if h.is64 then 16 else 8
  }

  function Signed(u: nat, is64: bool): int {
    if is64 then (if u >= 0x8000_0000_0000_0000 then u - 0x1_0000_0000_0000_0000 else u)
    else (if u >= 0x8000_0000 then u - 0x1_0000_0000 else u)
  }

  /** One entry of the dynamic array: a signed tag and an unsigned value. */
  function EntryAt(data: Bytes, h: Header, pos: nat): (int, nat)
    requires pos + EntrySize(h) <= |data|
  {
    var half := EntrySize(h) / 2;
    (Signed(Field(data, pos, half, h.big), h.is64), Field(data, pos + half, half, h.big))
  }

  predicate RequestsNow(entry: (int, nat)) {
    || entry.0 == 24
    || (entry.0 == 30 && entry.1 / 8 % 2 == 1)
    || (entry.0 == 0x6FFFFFFB && entry.1 % 2 == 1)
  }

  function EntryPos(h: Header, offset: nat, k: nat): nat {
    if h.is64 then offset + 16 * k else offset + 8 * k
  }

  function Min(a: nat, b: nat): nat {
    if a <= b then a else b
  }

  predicate InArray(data: Bytes, h: Header, seg: Segment, k: nat) {
    EntryPos(h, seg.offset, k) + EntrySize(h) <= Min(seg.offset + seg.filesz, |data|)
  }

  /** Some entry before the terminating null asks for immediate binding. */
  ghost predicate BindsNow(data: Bytes, h: Header, seg: Segment) {
    exists k: nat ::
      && InArray(data, h, seg, k)
      && RequestsNow(EntryAt(data, h, EntryPos(h, seg.offset, k)))
      && forall j: nat :: j < k && InArray(data, h, seg, j) ==> EntryAt(data, h, EntryPos(h, seg.offset, j)).0 != 0
  }

  method HasBindNow(data: Bytes, h: Header, seg: Segment) returns (now: bool)
    ensures now <==> BindsNow(data, h, seg)
  {
    var end := Min(seg.offset + seg.filesz, |data|);
    var pos := seg.offset;
    ghost var k: nat := 0;
    while pos + EntrySize(h) <= end
      invariant pos == EntryPos(h, seg.offset, k)
      invariant forall j: nat :: j < k ==>
        && InArray(data, h, seg, j)
        && var entry := EntryAt(data, h, EntryPos(h, seg.offset, j)); entry.0 != 0 && !RequestsNow(entry)
      decreases end - pos
    {
      assert InArray(data, h, seg, k);
      var half := EntrySize(h) / 2;
      var tag, value := UnpackAt(data, pos, half, h.big), UnpackAt(data, pos + half, half, h.big);
      var entry := (Signed(tag.value, h.is64), value.value);
      if entry.0 == 0 {
        break;
      }
      if RequestsNow(entry) {
        return true;
      }
      pos, k := pos + EntrySize(h), k + 1;
    }
    now := false;
  }

  // ---- the flags ---------------------------------------------------------------------------------

  datatype Relro = NoRelro | Partial | Full

  datatype Flags = Flags(nx: bool, pie: bool, relro: Relro, canary: bool)

  function DefaultFlags(canary: bool): Flags {
    Flags(false, false, NoRelro, canary)
  }

  /** The header or a visible program header is cut off by the end of the file. */
  predicate Malformed(data: Bytes) {
    || |data| < HeaderSize(data)
    || var h := HeaderOf(data); !Readable(data, h, Visible(data, h, 0))
  }

  function Last(data: Bytes, kind: nat): Option<Segment>
    requires !Malformed(data)
  {
    var h := HeaderOf(data);
    LastOfKind(data, h, Visible(data, h, 0), kind)
  }

  /** What the flags of a well-formed image are. */
  ghost predicate Describes(data: Bytes, f: Flags)
    requires !Malformed(data)
  {
    && (f.pie <==> HeaderOf(data).eType == ET_DYN)
    && (f.nx <==> Last(data, PT_GNU_STACK).Some? && Last(data, PT_GNU_STACK).value.flags % 2 == 0)
    && (f.relro.NoRelro? <==> Last(data, PT_GNU_RELRO).None?)
    && (f.relro.Full? <==>
          && Last(data, PT_GNU_RELRO).Some?
          && Last(data, PT_DYNAMIC).Some? && BindsNow(data, HeaderOf(data), Last(data, PT_DYNAMIC).value))
  }

  method ParseElf(data: Bytes, canary: bool) returns (f: Option<Flags>)
    ensures f.None? <==> Malformed(data)
    ensures f.Some? ==> f.value.canary == canary && Describes(data, f.value)
  {
    var header := UnpackHeader(data);
    if header.None? {
      return None;
    }
    var h := header.value;
    var nx, relro := false, NoRelro;
    var dyn: Option<Segment> := None;
    ghost var n: nat := 0;
    for i := 0 to h.phnum
      invariant n == i
      invariant Visible(data, h, 0) == Visible(data, h, i)
      invariant Readable(data, h, i)
      invariant nx <==> LastOfKind(data, h, i, PT_GNU_STACK).Some? && LastOfKind(data, h, i, PT_GNU_STACK).value.flags % 2 == 0
      invariant relro == if LastOfKind(data, h, i, PT_GNU_RELRO).Some? then Partial else NoRelro
      invariant dyn == LastOfKind(data, h, i, PT_DYNAMIC)
    {
      var base := h.phoff + i * h.phentsize;
      if base + h.phentsize > |data| {
        break;
      }
      var segment := UnpackSegment(data, h, base);
      if segment.None? {
        assert i < Visible(data, h, i + 1) && Base(h, i) + SegmentSize(h) > |data|;
        return None;
      }
      var s := segment.value;
      if s.kind == PT_GNU_STACK {
        nx := s.flags % 2 == 0;
      } else if s.kind == PT_GNU_RELRO {
        relro := Partial;
      } else if s.kind == PT_DYNAMIC {
        dyn := Some(s);
      }
      n := n + 1;
    }
    assert n == Visible(data, h, 0);
    if relro == Partial && dyn.Some? {
      var now := HasBindNow(data, h, dyn.value);
      if now {
        relro := Full;
      }
    }
    f := Some(Flags(nx, h.eType == ET_DYN, relro, canary));
  }

  const CANARY_SYMBOL := "__stack_chk_fail"

  predicate Contains(s: string, sub: string) {
    exists i :: 0 <= i <= |s| && sub <= s[i..]
  }

  lemma ContainsIff(s: string, sub: string)
    ensures Contains(s, sub) <==> exists a, b :: s == a + sub + b
  {
    if i :| 0 <= i <= |s| && sub <= s[i..] {
      assert s == s[..i] + sub + s[i + |sub|..];
    }
    if a, b :| s == a + sub + b {
      assert sub <= s[|a|..];
    }
  }

  /** Total on arbitrary bytes: whatever cannot be read gives the default flags. */
  method AnalyzeHardening(data: Bytes, strings: seq<string>) returns (f: Flags)
    ensures f.canary <==> exists i :: 0 <= i < |strings| && Contains(strings[i], CANARY_SYMBOL)
    ensures !IsElf(data) || Malformed(data) ==> f == DefaultFlags(f.canary)
    ensures IsElf(data) && !Malformed(data) ==> Describes(data, f)
  {
    var canary := exists i :: 0 <= i < |strings| && Contains(strings[i], CANARY_SYMBOL);
    if !IsElf(data) {
      return DefaultFlags(canary);
    }
    var parsed := ParseElf(data, canary);
    f := if parsed.Some? then parsed.value else DefaultFlags(canary);
  }

  // ---- bytes after the image ---------------------------------------------------------------------

  lemma {:induction false} LastOfPrefix(data: Bytes, extra: Bytes, h: Header, n: nat, kind: nat)
    requires Readable(data, h, n)
    ensures Readable(data + extra, h, n)
    ensures LastOfKind(data + extra, h, n, kind) == LastOfKind(data, h, n, kind)
  {
    if n > 0 {
      LastOfPrefix(data, extra, h, n - 1, kind);
      SegmentOfPrefix(data, extra, h, Base(h, n - 1));
    }
  }

  lemma SegmentOfPrefix(data: Bytes, extra: Bytes, h: Header, base: nat)
    requires base + SegmentSize(h) <= |data|
    ensures SegmentAt(data + extra, h, base) == SegmentAt(data, h, base)
  {
    FieldOfPrefix(data, extra, base, 4, h.big);
    if h.is64 {
      FieldOfPrefix(data, extra, base + 4, 4, h.big);
      FieldOfPrefix(data, extra, base + 8, 8, h.big);
      FieldOfPrefix(data, extra, base + 32, 8, h.big);
    } else {
      FieldOfPrefix(data, extra, base + 24, 4, h.big);
      FieldOfPrefix(data, extra, base + 4, 4, h.big);
      FieldOfPrefix(data, extra, base + 16, 4, h.big);
    }
  }

  lemma HeaderOfPrefix(data: Bytes, extra: Bytes)
    requires |data| >= HeaderSize(data)
    ensures HeaderSize(data + extra) == HeaderSize(data) && HeaderOf(data + extra) == HeaderOf(data)
  {
    var big := data[5] != 1;
    FieldOfPrefix(data, extra, 16, 2, big);
    if Is64(data) {
      FieldOfPrefix(data, extra, 32, 8, big);
      FieldOfPrefix(data, extra, 54, 2, big);
      FieldOfPrefix(data, extra, 56, 2, big);
    } else {
      FieldOfPrefix(data, extra, 28, 4, big);
      FieldOfPrefix(data, extra, 42, 2, big);
      FieldOfPrefix(data, extra, 44, 2, big);
    }
  }

  lemma EntryOfPrefix(data: Bytes, extra: Bytes, h: Header, pos: nat)
    requires pos + EntrySize(h) <= |data|
    ensures EntryAt(data + extra, h, pos) == EntryAt(data, h, pos)
  {
    var half := EntrySize(h) / 2;
    FieldOfPrefix(data, extra, pos, half, h.big);
    FieldOfPrefix(data, extra, pos + half, half, h.big);
  }

  lemma BindsNowOfPrefix(data: Bytes, extra: Bytes, h: Header, seg: Segment)
    requires seg.offset + seg.filesz <= |data|
    ensures BindsNow(data + extra, h, seg) <==> BindsNow(data, h, seg)
  {
    forall k: nat | InArray(data, h, seg, k)
      ensures EntryAt(data + extra, h, EntryPos(h, seg.offset, k)) == EntryAt(data, h, EntryPos(h, seg.offset, k))
    {
      EntryOfPrefix(data, extra, h, EntryPos(h, seg.offset, k));
    }
    assert forall k: nat :: InArray(data + extra, h, seg, k) == InArray(data, h, seg, k);
  }

  /** Bytes appended to an image whose program headers and dynamic array lie inside it
  change none of its flags. */
  lemma TrailingBytesIrrelevant(data: Bytes, extra: Bytes, f: Flags)
    requires !Malformed(data) && (var h := HeaderOf(data); h.phnum > 0 ==> Fits(data, h, h.phnum - 1))
    requires Last(data, PT_DYNAMIC).Some? ==>
               var d := Last(data, PT_DYNAMIC).value; d.offset + d.filesz <= |data|
    ensures !Malformed(data + extra)
    ensures Describes(data + extra, f) <==> Describes(data, f)
  {
    var h := HeaderOf(data);
    HeaderOfPrefix(data, extra);
    WholeTable(data, h);
    if h.phnum > 0 {
      assert Fits(data + extra, h, h.phnum - 1);
    }
    WholeTable(data + extra, h);
    LastOfPrefix(data, extra, h, h.phnum, PT_GNU_STACK);
    LastOfPrefix(data, extra, h, h.phnum, PT_GNU_RELRO);
    LastOfPrefix(data, extra, h, h.phnum, PT_DYNAMIC);
    if Last(data, PT_DYNAMIC).Some? {
      BindsNowOfPrefix(data, extra, h, Last(data, PT_DYNAMIC).value);
    }
  }

  lemma WholeTable(data: Bytes, h: Header)
    requires h.phnum > 0 ==> Fits(data, h, h.phnum - 1)
    ensures Visible(data, h, 0) == h.phnum
  {
    if h.phnum > 0 {
      VisibleIff(data, h, 0, h.phnum - 1);
    }
  }
}
