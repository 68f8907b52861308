/** The records of an ELF file as the ABI lays them out (System V ABI, chapters 4 and 5),
written member after member: the offsets the parser reads from are theirs. */
module ElfLayout {
  import opened Collections
  import opened Hardening

  datatype Member = Member(value: nat, width: nat)

  function Encode(ms: seq<Member>, big: bool): Bytes {
    if ms == [] then [] else Stored(ms[0].value, ms[0].width, big) + Encode(ms[1..], big)
  }

  function Offset(ms: seq<Member>, k: nat): nat
    requires k <= |ms|
    decreases k
  {
    if k == 0 then 0 else Offset(ms, k - 1) + ms[k - 1].width
  }

  predicate Storable(ms: seq<Member>) {
    forall m :: m in ms ==> m.value < Pow256(m.width)
  }

  lemma {:induction false} OffsetOfTail(ms: seq<Member>, k: nat)
    requires 0 < k <= |ms|
    ensures Offset(ms, k) == ms[0].width + Offset(ms[1..], k - 1)
  {
    if k > 1 {
      OffsetOfTail(ms, k - 1);
    }
  }

  lemma FirstMemberIsRead(before: Bytes, first: Bytes, rest: Bytes, m: Member, big: bool)
    requires m.value < Pow256(m.width) && first == Stored(m.value, m.width, big)
    ensures |first| == m.width && Field(before + first + rest, |before|, m.width, big) == m.value
  {
    ReadsWhatIsStored(m.value, m.width, big);
    assert (before + first + rest)[|before|..|before| + m.width] == first;
  }

  /** Reading a member at its offset gives the value that was stored, whatever surrounds
  the record. */
  lemma {:induction false} MemberIsRead(before: Bytes, ms: seq<Member>, after: Bytes, data: Bytes, k: nat, at: nat, big: bool)
    requires Storable(ms) && k < |ms| && at == |before| + Offset(ms, k)
    requires data == before + Encode(ms, big) + after
    ensures at + ms[k].width <= |data| && Field(data, at, ms[k].width, big) == ms[k].value
    decreases k
  {
    assert ms[0] in ms;
    var first, rest := Stored(ms[0].value, ms[0].width, big), Encode(ms[1..], big);
    assert data == before + first + (rest + after);
    FirstMemberIsRead(before, first, rest + after, ms[0], big);
    if k > 0 {
      assert forall m :: m in ms[1..] ==> m in ms;
      OffsetOfTail(ms, k);
      assert data == before + first + rest + after;
      MemberIsRead(before + first, ms[1..], after, data, k - 1, at, big);
    }
  }

  /** The file header after its 16 identification bytes: type, machine, version, entry,
  phoff, shoff, flags, ehsize, phentsize, phnum. */
  datatype FileHeader = FileHeader(eType: nat, machine: nat, version: nat, entry: nat, phoff: nat, shoff: nat, flags: nat,
                                   ehsize: nat, phentsize: nat, phnum: nat)

  function HeaderMembers(f: FileHeader, word: nat): seq<Member> {
    [Member(f.eType, 2), Member(f.machine, 2), Member(f.version, 4), Member(f.entry, word), Member(f.phoff, word),
     Member(f.shoff, word), Member(f.flags, 4), Member(f.ehsize, 2), Member(f.phentsize, 2), Member(f.phnum, 2)]
  }

  lemma HeaderOffsets(f: FileHeader, word: nat)
    ensures var ms := HeaderMembers(f, word);
      && Offset(ms, 0) == 0 && Offset(ms, 4) == 8 + word
      && Offset(ms, 8) == 14 + 3 * word && Offset(ms, 9) == 16 + 3 * word
  {
    var ms := HeaderMembers(f, word);
    assert Offset(ms, 4) == 8 + word;
    assert Offset(ms, 6) == 8 + 3 * word;
    assert Offset(ms, 8) == 14 + 3 * word;
  }

  lemma HeaderFields(ident: Bytes, f: FileHeader, after: Bytes, data: Bytes, word: nat, big: bool)
    requires |ident| == 16 && Storable(HeaderMembers(f, word)) && data == ident + Encode(HeaderMembers(f, word), big) + after
    ensures |data| >= 34 + 3 * word
    ensures Field(data, 16, 2, big) == f.eType && Field(data, 24 + word, word, big) == f.phoff
    ensures Field(data, 30 + 3 * word, 2, big) == f.phentsize && Field(data, 32 + 3 * word, 2, big) == f.phnum
  {
    var ms := HeaderMembers(f, word);
    HeaderOffsets(f, word);
    MemberIsRead(ident, ms, after, data, 0, 16, big);
    MemberIsRead(ident, ms, after, data, 4, 24 + word, big);
    MemberIsRead(ident, ms, after, data, 8, 30 + 3 * word, big);
    MemberIsRead(ident, ms, after, data, 9, 32 + 3 * word, big);
  }

  /** The header fields are read from where the ABI puts them, in both classes and both
  byte orders. */
  lemma HeaderIsRead(ident: Bytes, f: FileHeader, after: Bytes, data: Bytes, word: nat, big: bool)
    requires |ident| == 16 && word == (if ident[4] == 2 then 8 else 4) && big == (ident[5] != 1)
    requires Storable(HeaderMembers(f, word)) && data == ident + Encode(HeaderMembers(f, word), big) + after
    ensures |data| >= HeaderSize(data)
    ensures HeaderOf(data) == Header(big, ident[4] == 2, f.eType, f.phoff, f.phentsize, f.phnum)
  {
    HeaderFields(ident, f, after, data, word, big);
    assert data == ident + (Encode(HeaderMembers(f, word), big) + after);
    assert data[4] == ident[4] && data[5] == ident[5];
  }

  /** A program header of the 64-bit class: the flags come second. */
  function Program64(s: Segment, vaddr: nat, paddr: nat, memsz: nat, align: nat): seq<Member> {
    [Member(s.kind, 4), Member(s.flags, 4), Member(s.offset, 8), Member(vaddr, 8), Member(paddr, 8), Member(s.filesz, 8),
     Member(memsz, 8), Member(align, 8)]
  }

  /** A program header of the 32-bit class: the flags come seventh. */
  function Program32(s: Segment, vaddr: nat, paddr: nat, memsz: nat, align: nat): seq<Member> {
    [Member(s.kind, 4), Member(s.offset, 4), Member(vaddr, 4), Member(paddr, 4), Member(s.filesz, 4), Member(memsz, 4),
     Member(s.flags, 4), Member(align, 4)]
  }

  lemma Offsets64(s: Segment, vaddr: nat, paddr: nat, memsz: nat, align: nat)
    ensures var ms := Program64(s, vaddr, paddr, memsz, align);
      Offset(ms, 0) == 0 && Offset(ms, 1) == 4 && Offset(ms, 2) == 8 && Offset(ms, 5) == 32
  {
    var ms := Program64(s, vaddr, paddr, memsz, align);
    assert Offset(ms, 3) == 16;
  }

  lemma Offsets32(s: Segment, vaddr: nat, paddr: nat, memsz: nat, align: nat)
    ensures var ms := Program32(s, vaddr, paddr, memsz, align);
      Offset(ms, 0) == 0 && Offset(ms, 1) == 4 && Offset(ms, 4) == 16 && Offset(ms, 6) == 24
  {
    var ms := Program32(s, vaddr, paddr, memsz, align);
    assert Offset(ms, 2) == 8;
  }

  lemma Segment64IsRead(before: Bytes, after: Bytes, data: Bytes, h: Header, s: Segment, vaddr: nat, paddr: nat, memsz: nat, align: nat)
    requires h.is64 && Storable(Program64(s, vaddr, paddr, memsz, align))
    requires data == before + Encode(Program64(s, vaddr, paddr, memsz, align), h.big) + after
    ensures |before| + 40 <= |data| && SegmentAt(data, h, |before|) == s
  {
    var ms, n := Program64(s, vaddr, paddr, memsz, align), |before|;
    Offsets64(s, vaddr, paddr, memsz, align);
    MemberIsRead(before, ms, after, data, 0, n, h.big);
    MemberIsRead(before, ms, after, data, 1, n + 4, h.big);
    MemberIsRead(before, ms, after, data, 2, n + 8, h.big);
    MemberIsRead(before, ms, after, data, 5, n + 32, h.big);
  }

  lemma Segment32IsRead(before: Bytes, after: Bytes, data: Bytes, h: Header, s: Segment, vaddr: nat, paddr: nat, memsz: nat, align: nat)
    requires !h.is64 && Storable(Program32(s, vaddr, paddr, memsz, align))
    requires data == before + Encode(Program32(s, vaddr, paddr, memsz, align), h.big) + after
    ensures |before| + 28 <= |data| && SegmentAt(data, h, |before|) == s
  {
    var ms, n := Program32(s, vaddr, paddr, memsz, align), |before|;
    Offsets32(s, vaddr, paddr, memsz, align);
    MemberIsRead(before, ms, after, data, 0, n, h.big);
    MemberIsRead(before, ms, after, data, 1, n + 4, h.big);
    MemberIsRead(before, ms, after, data, 4, n + 16, h.big);
    MemberIsRead(before, ms, after, data, 6, n + 24, h.big);
  }

  // ---- the dynamic array ------------------------------------------------------------------

  /** An entry of the dynamic array: a tag and a value, one word each. */
  datatype Dyn = Dyn(tag: nat, value: nat)

  function DynMembers(ds: seq<Dyn>, word: nat): seq<Member> {
    if ds == [] then []
    else DynMembers(ds[..|ds| - 1], word) + [Member(ds[|ds| - 1].tag, word), Member(ds[|ds| - 1].value, word)]
  }

  lemma {:induction false} DynMembersAt(ds: seq<Dyn>, word: nat, k: nat)
    requires k < |ds|
    ensures |DynMembers(ds, word)| == 2 * |ds|
    ensures DynMembers(ds, word)[2 * k] == Member(ds[k].tag, word)
    ensures DynMembers(ds, word)[2 * k + 1] == Member(ds[k].value, word)
  {
    var front := ds[..|ds| - 1];
    if k < |front| {
      DynMembersAt(front, word, k);
    } else if front != [] {
      DynMembersAt(front, word, k - 1);
    }
  }

  lemma {:induction false} DynWidths(ds: seq<Dyn>, word: nat, i: nat)
    requires i < |DynMembers(ds, word)|
    ensures DynMembers(ds, word)[i].width == word
  {
    var front := DynMembers(ds[..|ds| - 1], word);
    if i < |front| {
      DynWidths(ds[..|ds| - 1], word, i);
    }
  }

  lemma {:induction false} DynOffset(ds: seq<Dyn>, word: nat, i: nat)
    requires i <= |DynMembers(ds, word)|
    ensures word == 8 ==> Offset(DynMembers(ds, word), i) == 8 * i
    ensures word == 4 ==> Offset(DynMembers(ds, word), i) == 4 * i
    decreases i
  {
    if i > 0 {
      DynOffset(ds, word, i - 1);
      DynWidths(ds, word, i - 1);
    }
  }

  function Word(h: Header): nat {
    if h.is64 then 8 else 4
  }

  /** The segment of the image holds exactly these entries. */
  ghost predicate HoldsArray(data: Bytes, h: Header, seg: Segment, ds: seq<Dyn>) {
    && Storable(DynMembers(ds, Word(h)))
    && seg.filesz == (if h.is64 then 16 * |ds| else 8 * |ds|)
    && exists before, after :: |before| == seg.offset && data == before + Encode(DynMembers(ds, Word(h)), h.big) + after
  }

  lemma {:induction false} EntryFields(before: Bytes, ds: seq<Dyn>, after: Bytes, data: Bytes, word: nat, big: bool, k: nat, pos: nat)
    requires Storable(DynMembers(ds, word)) && data == before + Encode(DynMembers(ds, word), big) + after
    requires k < |ds| && ((word == 8 && pos == |before| + 16 * k) || (word == 4 && pos == |before| + 8 * k))
    ensures pos + 2 * word <= |data| && ds[k].tag < Pow256(word)
    ensures Field(data, pos, word, big) == ds[k].tag && Field(data, pos + word, word, big) == ds[k].value
  {
    var ms := DynMembers(ds, word);
    DynMembersAt(ds, word, k);
    DynOffset(ds, word, 2 * k);
    DynOffset(ds, word, 2 * k + 1);
    MemberIsRead(before, ms, after, data, 2 * k, pos, big);
    MemberIsRead(before, ms, after, data, 2 * k + 1, pos + word, big);
    assert ms[2 * k] in ms;
  }

  /** Each entry is read back, in both classes and byte orders. */
  lemma EntryIsRead(data: Bytes, h: Header, seg: Segment, ds: seq<Dyn>, k: nat)
    requires HoldsArray(data, h, seg, ds) && k < |ds|
    ensures InArray(data, h, seg, k)
    ensures EntryAt(data, h, EntryPos(h, seg.offset, k)) == (Signed(ds[k].tag, h.is64), ds[k].value)
    ensures ds[k].tag < Pow256(Word(h))
  {
    var before, after :| |before| == seg.offset && data == before + Encode(DynMembers(ds, Word(h)), h.big) + after;
    EntryFields(before, ds, after, data, Word(h), h.big, k, EntryPos(h, seg.offset, k));
  }

  lemma Powers()
    ensures Pow256(4) == 0x1_0000_0000 && Pow256(8) == 0x1_0000_0000_0000_0000
  {
    assert Pow256(2) == 0x1_0000;
    assert Pow256(3) == 0x100_0000;
    assert Pow256(5) == 0x100_0000_0000;
    assert Pow256(6) == 0x1_0000_0000_0000;
    assert Pow256(7) == 0x100_0000_0000_0000;
  }

  /** An entry asks for immediate binding: DT_BIND_NOW, or DF_BIND_NOW (0x8) in DT_FLAGS, or
  DF_1_NOW (0x1) in DT_FLAGS_1. */
  predicate AsksNow(d: Dyn) {
    d.tag == 24 || (d.tag == 30 && (d.value / 0x8) % 2 == 1) || (d.tag == 0x6FFF_FFFB && d.value % 2 == 1)
  }

  lemma ReadEntryAsks(d: Dyn, is64: bool)
    requires d.tag < Pow256(if is64 then 8 else 4)
    ensures RequestsNow((Signed(d.tag, is64), d.value)) <==> AsksNow(d)
    ensures Signed(d.tag, is64) == 0 <==> d.tag == 0
  {
    Powers();
  }

  /** An image with these entries binds now exactly when one that comes before the first null
  entry asks for it. */
  lemma ArrayBindsNowIff(data: Bytes, h: Header, seg: Segment, ds: seq<Dyn>)
    requires HoldsArray(data, h, seg, ds)
    ensures BindsNow(data, h, seg) <==> exists k :: 0 <= k < |ds| && AsksNow(ds[k]) && forall j :: 0 <= j < k ==> ds[j].tag != 0
  {
    forall k: nat | k < |ds|
      ensures InArray(data, h, seg, k)
      ensures var e := EntryAt(data, h, EntryPos(h, seg.offset, k)); (RequestsNow(e) <==> AsksNow(ds[k])) && (e.0 == 0 <==> ds[k].tag == 0)
    {
      EntryIsRead(data, h, seg, ds, k);
      ReadEntryAsks(ds[k], h.is64);
    }
    assert forall k: nat :: InArray(data, h, seg, k) <==> k < |ds|;
    BindsNowOf(data, h, seg, ds);
  }

  lemma BindsNowOf(data: Bytes, h: Header, seg: Segment, ds: seq<Dyn>)
    requires forall k: nat :: InArray(data, h, seg, k) <==> k < |ds|
    requires forall k: nat :: InArray(data, h, seg, k) ==>
               var e := EntryAt(data, h, EntryPos(h, seg.offset, k)); (RequestsNow(e) <==> AsksNow(ds[k])) && (e.0 == 0 <==> ds[k].tag == 0)
    ensures BindsNow(data, h, seg) <==> exists k :: 0 <= k < |ds| && AsksNow(ds[k]) && forall j :: 0 <= j < k ==> ds[j].tag != 0
  {
    if k: nat :| k < |ds| && AsksNow(ds[k]) && forall j :: 0 <= j < k ==> ds[j].tag != 0 {
      assert InArray(data, h, seg, k);
    }
    if BindsNow(data, h, seg) {
      var k: nat :|
        && InArray(data, h, seg, k)
        && RequestsNow(EntryAt(data, h, EntryPos(h, seg.offset, k)))
        && forall j: nat :: j < k && InArray(data, h, seg, j) ==> EntryAt(data, h, EntryPos(h, seg.offset, j)).0 != 0;
      assert AsksNow(ds[k]);
      forall j | 0 <= j < k
        ensures ds[j].tag != 0
      {
        assert InArray(data, h, seg, j);
      }
    }
  }

  // ---- the flags of an image ------------------------------------------------------------------

  /** The program header table lies in the image and holds these segments. */
  ghost predicate HoldsTable(data: Bytes, h: Header, segs: seq<Segment>) {
    && |segs| == h.phnum && h.phentsize >= SegmentSize(h)
    && forall k: nat {:trigger Base(h, k)} :: k < |segs| ==> Base(h, k) + h.phentsize <= |data| && SegmentAt(data, h, Base(h, k)) == segs[k]
  }

  /** The last segment of a type. */
  predicate IsLast(segs: seq<Segment>, k: nat, kind: nat) {
    k < |segs| && segs[k].kind == kind && forall j :: k < j < |segs| ==> segs[j].kind != kind
  }

  lemma LastSegment(data: Bytes, h: Header, segs: seq<Segment>, kind: nat)
    requires HoldsTable(data, h, segs)
    ensures Readable(data, h, |segs|)
    ensures LastOfKind(data, h, |segs|, kind).None? <==> forall k :: 0 <= k < |segs| ==> segs[k].kind != kind
    ensures forall k: nat :: IsLast(segs, k, kind) ==> LastOfKind(data, h, |segs|, kind) == Some(segs[k])
    ensures LastOfKind(data, h, |segs|, kind).Some? ==> exists k: nat :: IsLast(segs, k, kind)
  {
    assert Readable(data, h, |segs|);
    NoneOfKindIs(data, h, |segs|, kind);
    assert forall k: nat :: k < |segs| ==> SegmentAt(data, h, Base(h, k)) == segs[k];
    forall k: nat | IsLast(segs, k, kind)
      ensures LastOfKind(data, h, |segs|, kind) == Some(segs[k])
    {
      LastOfKindIs(data, h, |segs|, kind, k);
    }
    LastExists(segs, |segs|, kind);
  }

  lemma {:induction false} LastExists(segs: seq<Segment>, n: nat, kind: nat)
    requires n <= |segs| && forall j :: n <= j < |segs| ==> segs[j].kind != kind
    ensures (exists k: nat :: IsLast(segs, k, kind)) || forall k :: 0 <= k < |segs| ==> segs[k].kind != kind
  {
    if n > 0 {
      if segs[n - 1].kind == kind {
        assert IsLast(segs, n - 1, kind);
      } else {
        LastExists(segs, n - 1, kind);
      }
    }
  }

  /** What the flags say of an image with these segments, with the numbers of the ABI: the
  type for a shared object is 3, the segment types are PT_GNU_STACK, PT_GNU_RELRO and
  PT_DYNAMIC, and the lowest flag bit makes a segment executable. */
  ghost predicate FlagsFor(data: Bytes, h: Header, segs: seq<Segment>, f: Flags) {
    && (f.pie <==> h.eType == 3)
    && (f.nx <==> exists k: nat :: IsLast(segs, k, 0x6474E551) && segs[k].flags % 2 == 0)
    && (f.relro == NoRelro <==> forall k :: 0 <= k < |segs| ==> segs[k].kind != 0x6474E552)
    && (f.relro == Full <==>
          && (exists k :: 0 <= k < |segs| && segs[k].kind == 0x6474E552)
          && (exists k: nat :: IsLast(segs, k, 2) && BindsNow(data, h, segs[k])))
  }

  /** The parser's flags are exactly those. */
  lemma FlagsOfImage(data: Bytes, h: Header, segs: seq<Segment>, f: Flags)
    requires |data| >= HeaderSize(data) && h == HeaderOf(data) && HoldsTable(data, h, segs)
    ensures !Malformed(data) && (Describes(data, f) <==> FlagsFor(data, h, segs, f))
  {
    if h.phnum > 0 {
      assert Fits(data, h, h.phnum - 1);
    }
    WholeTable(data, h);
    LastSegment(data, h, segs, 0x6474E551);
    LastSegment(data, h, segs, 0x6474E552);
    LastSegment(data, h, segs, 2);
  }
}
