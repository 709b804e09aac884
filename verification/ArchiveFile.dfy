/** The tool itself: files with a cursor, readers and writers that move it, and the library that is edited in place. */
module ArchiveFile {
  import opened Base
  import opened Archive
  import opened ArchiveProofs
  import opened ArchiveStrip

  datatype Outcome<+T> = Fine(value: T) | Raised(error: Error)

  /** An open file: its bytes and the cursor. */
  class File {
    var bytes: seq<byte>
    var pos: nat

    constructor (bytes: seq<byte>)
      ensures Valid() && this.bytes == bytes && pos == 0 && Rest() == bytes
    {
      this.bytes, pos := bytes, 0;
    }

    ghost predicate Valid()
      reads this
    {
      pos <= |bytes|
    }

    /** What is left to read. */
    function Rest(): seq<byte>
      reads this
    {
      if pos <= |bytes| then bytes[pos..] else []
    }

    method Read(n: nat) returns (s: seq<byte>)
      requires Valid()
      modifies this`pos
      ensures Valid() && s == Take(old(Rest()), n) && Rest() == Drop(old(Rest()), n) && pos == old(pos) + |s|
    {
      var end := if pos + n <= |bytes| then pos + n else |bytes|;
      s := bytes[pos..end];
      pos := end;
    }

    method Seek(p: nat)
      requires Valid() && p <= |bytes|
      modifies this`pos
      ensures Valid() && pos == p
    {
      pos := p;
    }

    /** Writes go to the end of the file. */
    method Write(s: seq<byte>)
      modifies this
      ensures Valid() && bytes == old(bytes) + s
    {
      bytes := bytes + s;
      pos := |bytes|;
    }

    /** A parser has consumed input up to the cursor. */
    ghost predicate At(rest: seq<byte>)
      reads this
    {
      Valid() && Rest() == rest
    }
  }

  /* ---- headers ---- */

  /** read_optional_nl: the cursor stays where it is when there is no newline. */
  method ReadOptionalNewline(fp: File) returns (found: bool)
    requires fp.Valid()
    modifies fp`pos
    ensures var s := old(fp.Rest());
            found == (s != [] && s[0] == NEWLINE) && fp.At(if found then s[1..] else s)
  {
    var t := fp.pos;
    var c := fp.Read(1);
    if c == [NEWLINE] {
      return true;
    }
    fp.Seek(t);
    found := false;
  }

  /** A text field: the bytes that are there, decoded as ASCII and stripped. */
  method ReadText(fp: File, n: nat) returns (r: Outcome<seq<byte>>)
    requires fp.Valid()
    modifies fp`pos
    ensures fp.At(Drop(old(fp.Rest()), n))
    ensures var s := Take(old(fp.Rest()), n);
            r == if Ascii(s) then Fine(Strip(s)) else Raised(BadText)
  {
    var s := fp.Read(n);
    if !Ascii(s) {
      return Raised(BadText);
    }
    r := Fine(Strip(s));
  }

  /** header_read: no header at the end of the file. */
  method HeaderRead(fp: File) returns (r: Outcome<Option<Header>>)
    requires fp.Valid()
    modifies fp`pos
    ensures fp.Valid()
    ensures match ReadHeader(old(fp.Rest()))
            case Got(h, rest) => r == Fine(h) && fp.At(rest)
            case Err(_) => r.Raised?
  {
    hide Ascii, Strip, IsLiteral, Number;
    var optnl := ReadOptionalNewline(fp);
    ghost var t := fp.Rest();
    ShortHeader(t);
    var raw := fp.Read(16);
    if |raw| < 16 {
      return Fine(None);
    }
    r := ReadFields(fp, optnl, raw, t);
  }

  lemma ShortHeader(t: seq<byte>)
    ensures |t| < 16 ==> Drop(t, 16) == []
  {
  }

  /** The fields of a header after the first. */
  method ReadFields(fp: File, optnl: bool, raw: seq<byte>, ghost t: seq<byte>) returns (r: Outcome<Option<Header>>)
    requires fp.At(Drop(t, 16)) && |t| >= 16 && raw == t[..16]
    modifies fp`pos
    ensures fp.Valid()
    ensures if |t| >= 60 && Ascii(t[..58]) && IsLiteral(Strip(t[48..58])) && t[58..60] == END_OF_HEADER then
              && r == Fine(Some(Header(optnl, Strip(t[..16]), Strip(t[16..28]), Strip(t[28..34]), Strip(t[34..40]),
                                       Strip(t[40..48]), Number(Strip(t[48..58])))))
              && fp.At(t[60..])
            else r.Raised?
  {
    hide Ascii, Strip, IsLiteral, Number;
    if !Ascii(raw) {
      AsciiParts(t);
      return Raised(BadText);
    }
    var date := ReadText(fp, 12);
    var uid := ReadText(fp, 6);
    var gid := ReadText(fp, 6);
    var mode := ReadText(fp, 8);
    var size := ReadText(fp, 10);
    AsciiParts(t);
    FieldSlices(t);
    if date.Raised? || uid.Raised? || gid.Raised? || mode.Raised? || size.Raised? {
      return Raised(BadText);
    }
    if !IsLiteral(size.value) {
      return Raised(BadNumber);
    }
    var eoh := fp.Read(2);
    if eoh != END_OF_HEADER {
      return Raised(BadHeader);
    }
    r := Fine(Some(Header(optnl, Strip(raw), date.value, uid.value, gid.value, mode.value, Number(size.value))));
  }

  /** The text of a header is ASCII when every field is. */
  lemma AsciiParts(t: seq<byte>)
    ensures |t| >= 58 ==>
              (Ascii(t[..58]) <==> Ascii(t[..16]) && Ascii(t[16..28]) && Ascii(t[28..34]) && Ascii(t[34..40])
                                   && Ascii(t[40..48]) && Ascii(t[48..58]))
  {
    hide *;
    if |t| >= 58 {
      assert t[..58] == t[..16] + t[16..28] + t[28..34] + t[34..40] + t[40..48] + t[48..58];
      AsciiCat(t[..16], t[16..28]);
      AsciiCat(t[..16] + t[16..28], t[28..34]);
      AsciiCat(t[..16] + t[16..28] + t[28..34], t[34..40]);
      AsciiCat(t[..16] + t[16..28] + t[28..34] + t[34..40], t[40..48]);
      AsciiCat(t[..16] + t[16..28] + t[28..34] + t[34..40] + t[40..48], t[48..58]);
    }
  }

  lemma AsciiCat(x: seq<byte>, y: seq<byte>)
    ensures Ascii(x + y) <==> Ascii(x) && Ascii(y)
  {
    if Ascii(x + y) {
      assert forall i :: 0 <= i < |x| ==> x[i] == (x + y)[i];
      assert forall i :: 0 <= i < |y| ==> y[i] == (x + y)[|x| + i];
    }
  }

  /** Where the fields lie that are read one after the other. */
  lemma FieldSlices(t: seq<byte>)
    requires |t| >= 16
    ensures var r1, r2, r3, r4, r5, r6 :=
              Drop(t, 16), Drop(Drop(t, 16), 12), Drop(Drop(Drop(t, 16), 12), 6), Drop(Drop(Drop(Drop(t, 16), 12), 6), 6),
              Drop(Drop(Drop(Drop(Drop(t, 16), 12), 6), 6), 8), Drop(Drop(Drop(Drop(Drop(Drop(t, 16), 12), 6), 6), 8), 10);
            if |t| >= 60 then
              && Take(r1, 12) == t[16..28] && Take(r2, 6) == t[28..34] && Take(r3, 6) == t[34..40]
              && Take(r4, 8) == t[40..48] && Take(r5, 10) == t[48..58] && Take(r6, 2) == t[58..60] && Drop(r6, 2) == t[60..]
            else |Take(r6, 2)| < 2
  {
  }

  /** header_write, with writestr for the fields. */
  method HeaderWrite(fp: File, h: Header)
    modifies fp
    ensures fp.Valid() && fp.bytes == old(fp.bytes) + WriteHeader(h)
  {
    hide Pad, Digits, WriteHeader;
    if h.optnl {
      fp.Write([NEWLINE]);
    }
    fp.Write(Pad(h.name, 16));
    fp.Write(Pad(h.date, 12));
    fp.Write(Pad(h.uid, 6));
    fp.Write(Pad(h.gid, 6));
    fp.Write(Pad(h.mode, 8));
    fp.Write(Pad(Digits(h.size), 10));
    fp.Write(END_OF_HEADER);
    HeaderIs(old(fp.bytes), h);
  }

  /** Writing field by field writes the header. */
  lemma HeaderIs(b: seq<byte>, h: Header)
    ensures h.optnl ==> b + [NEWLINE] + Pad(h.name, 16) + Pad(h.date, 12) + Pad(h.uid, 6) + Pad(h.gid, 6)
                        + Pad(h.mode, 8) + Pad(Digits(h.size), 10) + END_OF_HEADER == b + WriteHeader(h)
    ensures !h.optnl ==> b + Pad(h.name, 16) + Pad(h.date, 12) + Pad(h.uid, 6) + Pad(h.gid, 6)
                         + Pad(h.mode, 8) + Pad(Digits(h.size), 10) + END_OF_HEADER == b + WriteHeader(h)
  {
    hide Pad, Digits;
  }

  /* ---- integers and strings ---- */

  /** fp.read and struct.unpack. */
  method IntRead(fp: File, w: Width) returns (r: Outcome<nat>)
    requires fp.Valid()
    modifies fp`pos
    ensures fp.Valid()
    ensures match ReadInt(w, old(fp.Rest()))
            case Got(n, rest) => r == Fine(n) && fp.At(rest)
            case Err(_) => r.Raised?
  {
    var s := fp.Read(w.Bytes());
    if |s| < w.Bytes() {
      return Raised(Truncated);
    }
    r := Fine(w.Unpack(s));
  }

  /** The loops that read a number of integers. */
  method IntsRead(fp: File, w: Width, n: nat) returns (r: Outcome<seq<nat>>)
    requires fp.Valid()
    modifies fp`pos
    ensures fp.Valid()
    ensures match ReadInts(w, old(fp.Rest()), n)
            case Got(xs, rest) => r == Fine(xs) && fp.At(rest)
            case Err(_) => r.Raised?
  {
    var xs: seq<nat> := [];
    var i := 0;
    PrependNone(xs, ReadInts(w, fp.Rest(), n), []);
    while i < n
      invariant i <= n && fp.Valid()
      invariant ReadInts(w, old(fp.Rest()), n) == Prepend(xs, ReadInts(w, fp.Rest(), n - i))
    {
      var x := IntRead(fp, w);
      if x.Raised? {
        return Raised(x.error);
      }
      PrependTwice(xs, [x.value], ReadInts(w, fp.Rest(), n - i - 1));
      xs := xs + [x.value];
      i := i + 1;
    }
    PrependNone(xs, Got([], []), fp.Rest());
    r := Fine(xs);
  }

  lemma PrependNone<T>(xs: seq<T>, p: Parsed<seq<T>>, s: seq<byte>)
    ensures Prepend([], p) == p && Prepend(xs, Got([], s)) == Got(xs, s)
  {
    assert p.Got? ==> [] + p.value == p.value;
    assert xs + [] == xs;
  }

  lemma PrependTwice<T>(xs: seq<T>, ys: seq<T>, p: Parsed<seq<T>>)
    ensures Prepend(xs, Prepend(ys, p)) == Prepend(xs + ys, p)
  {
    if p.Got? {
      assert xs + (ys + p.value) == xs + ys + p.value;
    }
  }

  /** readcstr. At the end of the file the original goes on reading for ever; here that is an error. */
  method StringRead(fp: File) returns (r: Outcome<seq<byte>>)
    requires fp.Valid()
    modifies fp`pos
    ensures fp.Valid()
    ensures match ReadString(old(fp.Rest()))
            case Got(x, rest) => r == Fine(x) && fp.At(rest)
            case Err(_) => r.Raised?
  {
    var buf: seq<byte> := [];
    PrependNone(buf, ReadString(fp.Rest()), []);
    while true
      invariant fp.Valid()
      invariant ReadString(old(fp.Rest())) == Prepend(buf, ReadString(fp.Rest()))
      decreases |fp.Rest()|
    {
      ghost var s := fp.Rest();
      var b := fp.Read(1);
      if b == [] {
        return Raised(Unterminated);
      }
      if b == [0] {
        PrependNone(buf, Got([], []), s[1..]);
        return Fine(buf);
      }
      PrependTwice(buf, b, ReadString(fp.Rest()));
      assert s[1..] == fp.Rest() && b == [s[0]];
      buf := buf + b;
    }
  }

  method StringsRead(fp: File, n: nat) returns (r: Outcome<seq<seq<byte>>>)
    requires fp.Valid()
    modifies fp`pos
    ensures fp.Valid()
    ensures match ReadStrings(old(fp.Rest()), n)
            case Got(xs, rest) => r == Fine(xs) && fp.At(rest)
            case Err(_) => r.Raised?
  {
    hide ReadString;
    var xs: seq<seq<byte>> := [];
    var i := 0;
    PrependNone(xs, ReadStrings(fp.Rest(), n), []);
    while i < n
      invariant i <= n && fp.Valid()
      invariant ReadStrings(old(fp.Rest()), n) == Prepend(xs, ReadStrings(fp.Rest(), n - i))
    {
      var x := StringRead(fp);
      if x.Raised? {
        return Raised(x.error);
      }
      PrependTwice(xs, [x.value], ReadStrings(fp.Rest(), n - i - 1));
      xs := xs + [x.value];
      i := i + 1;
    }
    PrependNone(xs, Got([], []), fp.Rest());
    r := Fine(xs);
  }

  method IntsWrite(fp: File, w: Width, xs: seq<nat>)
    modifies fp
    ensures fp.bytes == old(fp.bytes) + WriteInts(w, xs)
  {
    var i := 0;
    while i < |xs|
      invariant i <= |xs| && fp.bytes + WriteInts(w, xs[i..]) == old(fp.bytes) + WriteInts(w, xs)
    {
      assert xs[i..][1..] == xs[i + 1..];
      fp.Write(w.Pack(xs[i]));
      i := i + 1;
    }
  }

  /** The loops over writecstr. */
  method StringsWrite(fp: File, xs: seq<seq<byte>>)
    modifies fp
    ensures fp.bytes == old(fp.bytes) + WriteStrings(xs)
  {
    var i := 0;
    while i < |xs|
      invariant i <= |xs| && fp.bytes + WriteStrings(xs[i..]) == old(fp.bytes) + WriteStrings(xs)
    {
      assert xs[i..][1..] == xs[i + 1..];
      fp.Write(xs[i]);
      fp.Write([0]);
      i := i + 1;
    }
  }

  /* ---- linker members ---- */

  /** first_lm_read. */
  method FirstRead(fp: File) returns (r: Outcome<First>)
    requires fp.Valid()
    modifies fp`pos
    ensures fp.Valid()
    ensures match ReadFirst(old(fp.Rest()))
            case Got(m, rest) => r == Fine(m) && fp.At(rest)
            case Err(_) => r.Raised?
  {
    hide ReadInt, ReadInts, ReadStrings;
    var nos := IntRead(fp, Big4);
    if nos.Raised? {
      return Raised(nos.error);
    }
    var offsets := IntsRead(fp, Big4, nos.value);
    if offsets.Raised? {
      return Raised(offsets.error);
    }
    var strings := StringsRead(fp, nos.value);
    if strings.Raised? {
      return Raised(strings.error);
    }
    r := Fine(First(offsets.value, strings.value));
  }

  /** first_lm_write. */
  method FirstWrite(fp: File, m: First)
    modifies fp
    ensures fp.bytes == old(fp.bytes) + WriteFirst(m)
  {
    hide WriteInts, WriteStrings, Width.Pack;
    fp.Write(Big4.Pack(|m.offsets|));
    IntsWrite(fp, Big4, m.offsets);
    StringsWrite(fp, m.strings);
  }

  /** second_lm_read. */
  method SecondRead(fp: File) returns (r: Outcome<Second>)
    requires fp.Valid()
    modifies fp`pos
    ensures fp.Valid()
    ensures match ReadSecond(old(fp.Rest()))
            case Got(m, rest) => r == Fine(m) && fp.At(rest)
            case Err(_) => r.Raised?
  {
    hide ReadInt, ReadInts, ReadStrings;
    var m := IntRead(fp, Little4);
    if m.Raised? {
      return Raised(m.error);
    }
    var offsets := IntsRead(fp, Little4, m.value);
    if offsets.Raised? {
      return Raised(offsets.error);
    }
    var n := IntRead(fp, Little4);
    if n.Raised? {
      return Raised(n.error);
    }
    var indices := IntsRead(fp, Little2, n.value);
    if indices.Raised? {
      return Raised(indices.error);
    }
    var strings := StringsRead(fp, n.value);
    if strings.Raised? {
      return Raised(strings.error);
    }
    r := Fine(Second(offsets.value, indices.value, strings.value));
  }

  /** second_lm_write. */
  method SecondWrite(fp: File, m: Second)
    modifies fp
    ensures fp.bytes == old(fp.bytes) + WriteSecond(m)
  {
    hide WriteInts, WriteStrings, Width.Pack;
    fp.Write(Little4.Pack(|m.offsets|));
    IntsWrite(fp, Little4, m.offsets);
    fp.Write(Little4.Pack(|m.indices|));
    IntsWrite(fp, Little2, m.indices);
    StringsWrite(fp, m.strings);
  }

  /* ---- the library ---- */

  /** The dictionary that read_lib builds and strip_lib_timestamp edits. */
  class Library {
    var h1: Header
    var m1: First
    var h2: Header
    var m2: Second
    var hl: Option<Header>
    var longnames: seq<seq<byte>>
    var ho: seq<Header>
    var o: seq<seq<byte>>

    constructor (l: Lib)
      ensures View() == l
    {
      h1, m1, h2, m2, hl, longnames, ho, o := l.h1, l.m1, l.h2, l.m2, l.hl, l.longnames, l.ho, l.o;
    }

    ghost function View(): Lib
      reads this
    {
      Lib(h1, m1, h2, m2, hl, longnames, ho, o)
    }
  }

  /** The while loop of read_lib over the long names. */
  method LongnamesRead(fp: File, size: nat) returns (r: Outcome<seq<seq<byte>>>)
    requires fp.Valid()
    modifies fp`pos
    ensures fp.Valid()
    ensures match ReadLongnames(old(fp.Rest()), size)
            case Got(xs, rest) => r == Fine(xs) && fp.At(rest)
            case Err(_) => r.Raised?
  {
    hide ReadString;
    var p := fp.pos;
    var xs: seq<seq<byte>> := [];
    PrependNone(xs, ReadLongnames(fp.Rest(), size), []);
    while fp.pos < p + size
      invariant fp.Valid()
      invariant ReadLongnames(old(fp.Rest()), size) == Prepend(xs, ReadLongnames(fp.Rest(), p + size - fp.pos))
      decreases |fp.Rest()|
    {
      ghost var s := fp.Rest();
      StringImage(s);
      var x := StringRead(fp);
      if x.Raised? {
        return Raised(x.error);
      }
      PrependTwice(xs, [x.value], ReadLongnames(fp.Rest(), p + size - fp.pos));
      xs := xs + [x.value];
    }
    PrependNone(xs, Got([], []), fp.Rest());
    r := Fine(xs);
  }

  ghost function PrependMembers(ms: Members, p: Parsed<Members>): Parsed<Members> {
    match p case Err(e) => Err(e) case Got(t, r) => Got(Members(ms.ho + t.ho, ms.o + t.o), r)
  }

  /** What is still to be read when header `h` may have been read already. */
  ghost function Pending(h: Option<Header>, s: seq<byte>): Parsed<Members> {
    if h.Some? then ReadMember(h.value, s) else ReadMembers(s)
  }

  lemma PendingStep(ho: seq<Header>, o: seq<seq<byte>>, h: Header, s: seq<byte>)
    ensures PrependMembers(Members(ho, o), ReadMember(h, s))
         == PrependMembers(Members(ho + [h], o + [Take(s, h.size)]), ReadMembers(Drop(s, h.size)))
  {
    var p := ReadMembers(Drop(s, h.size));
    if p.Got? {
      assert ho + ([h] + p.value.ho) == ho + [h] + p.value.ho;
      assert o + ([Take(s, h.size)] + p.value.o) == o + [Take(s, h.size)] + p.value.o;
    }
  }

  lemma PendingNone(ms: Members, p: Parsed<Members>, s: seq<byte>)
    ensures PrependMembers(Members([], []), p) == p
    ensures PrependMembers(ms, Got(Members([], []), s)) == Got(ms, s)
  {
    assert p.Got? ==> [] + p.value.ho == p.value.ho && [] + p.value.o == p.value.o;
    assert ms.ho + [] == ms.ho && ms.o + [] == ms.o;
  }

  /** The last loop of read_lib; `first` is a header that was read while looking for long names. */
  method MembersRead(fp: File, first: Option<Header>) returns (r: Outcome<Members>)
    requires fp.Valid()
    modifies fp`pos
    ensures fp.Valid()
    ensures match Pending(first, old(fp.Rest()))
            case Got(ms, rest) => r == Fine(ms) && fp.At(rest)
            case Err(_) => r.Raised?
  {
    hide ReadHeader;
    var h := first;
    var ho: seq<Header>, o: seq<seq<byte>> := [], [];
    PendingNone(Members(ho, o), Pending(h, fp.Rest()), []);
    while true
      invariant fp.Valid()
      invariant Pending(first, old(fp.Rest())) == PrependMembers(Members(ho, o), Pending(h, fp.Rest()))
      decreases |fp.Rest()|, if h.Some? then 1 else 0
    {
      if h.None? {
        HeaderImage(fp.Rest());
        var next := HeaderRead(fp);
        if next.Raised? {
          return Raised(next.error);
        }
        h := next.value;
        if h.None? {
          PendingNone(Members(ho, o), Got(Members([], []), []), fp.Rest());
          return Fine(Members(ho, o));
        }
      }
      PendingStep(ho, o, h.value, fp.Rest());
      ho := ho + [h.value];
      var c := fp.Read(h.value.size);
      o := o + [c];
      h := None;
    }
  }

  /** A header, then the first linker member, whose size it must name. */
  method SizedFirst(fp: File) returns (r: Outcome<(Header, First)>)
    requires fp.Valid()
    modifies fp`pos
    ensures fp.Valid()
    ensures match ReadSized(old(fp.Rest()), ReadFirst)
            case Got(x, rest) => r == Fine(x) && fp.At(rest)
            case Err(_) => r.Raised?
  {
    hide ReadHeader, ReadFirst;
    var h := HeaderRead(fp);
    if h.Raised? {
      return Raised(h.error);
    }
    var p := fp.pos;
    var m := FirstRead(fp);
    if m.Raised? {
      return Raised(m.error);
    }
    if h.value.None? {
      return Raised(Truncated);
    }
    if fp.pos - p != h.value.value.size {
      return Raised(BadSize);
    }
    r := Fine((h.value.value, m.value));
  }

  method SizedSecond(fp: File) returns (r: Outcome<(Header, Second)>)
    requires fp.Valid()
    modifies fp`pos
    ensures fp.Valid()
    ensures match ReadSized(old(fp.Rest()), ReadSecond)
            case Got(x, rest) => r == Fine(x) && fp.At(rest)
            case Err(_) => r.Raised?
  {
    hide ReadHeader, ReadSecond;
    var h := HeaderRead(fp);
    if h.Raised? {
      return Raised(h.error);
    }
    var p := fp.pos;
    var m := SecondRead(fp);
    if m.Raised? {
      return Raised(m.error);
    }
    if h.value.None? {
      return Raised(Truncated);
    }
    if fp.pos - p != h.value.value.size {
      return Raised(BadSize);
    }
    r := Fine((h.value.value, m.value));
  }

  /** The rest of read_lib: an optional member with long names, then the object files. */
  method TailRead(fp: File) returns (r: Outcome<Tail>)
    requires fp.Valid()
    modifies fp`pos
    ensures fp.Valid()
    ensures match ReadTail(old(fp.Rest()))
            case Got(t, rest) => r == Fine(t) && fp.At(rest)
            case Err(_) => r.Raised?
  {
    hide ReadHeader, ReadMember, ReadMembers, ReadLongnames;
    var h := HeaderRead(fp);
    if h.Raised? {
      return Raised(h.error);
    }
    if h.value.None? {
      return Fine(Tail(None, [], Members([], [])));
    }
    if h.value.value.name == LONGNAMES {
      var names := LongnamesRead(fp, h.value.value.size);
      if names.Raised? {
        return Raised(names.error);
      }
      var ms := MembersRead(fp, None);
      if ms.Raised? {
        return Raised(ms.error);
      }
      return Fine(Tail(h.value, names.value, ms.value));
    }
    var ms := MembersRead(fp, h.value);
    if ms.Raised? {
      return Raised(ms.error);
    }
    r := Fine(Tail(None, [], ms.value));
  }

  /** read_lib. */
  method LibRead(fp: File) returns (r: Outcome<Library>)
    requires fp.Valid()
    modifies fp`pos
    ensures fp.Valid() && (r.Fine? ==> fresh(r.value))
    ensures match ReadLib(old(fp.Rest()))
            case Got(l, rest) => r.Fine? && r.value.View() == l && fp.At(rest)
            case Err(_) => r.Raised?
  {
    hide ReadSized, ReadTail;
    var h := fp.Read(|MAGIC|);
    if h != MAGIC {
      return Raised(BadMagic);
    }
    var first := SizedFirst(fp);
    if first.Raised? {
      return Raised(first.error);
    }
    var second := SizedSecond(fp);
    if second.Raised? {
      return Raised(second.error);
    }
    var t := TailRead(fp);
    if t.Raised? {
      return Raised(t.error);
    }
    var lib := new Library(Lib(first.value.0, first.value.1, second.value.0, second.value.1, t.value.hl, t.value.longnames,
                               t.value.ms.ho, t.value.ms.o));
    r := Fine(lib);
  }

  /** The loop of write_lib over headers and members, taken in pairs. */
  method MembersWrite(fp: File, ho: seq<Header>, o: seq<seq<byte>>)
    modifies fp
    ensures fp.bytes == old(fp.bytes) + WriteMembers(Members(ho, o))
  {
    hide WriteHeader;
    var i := 0;
    while i < |ho| && i < |o|
      invariant i <= |ho| && i <= |o|
      invariant fp.bytes + WriteMembers(Members(ho[i..], o[i..])) == old(fp.bytes) + WriteMembers(Members(ho, o))
    {
      MembersFrom(ho, o, i, fp.bytes);
      HeaderWrite(fp, ho[i]);
      fp.Write(o[i]);
      i := i + 1;
    }
  }

  lemma MembersFrom(ho: seq<Header>, o: seq<seq<byte>>, i: nat, done: seq<byte>)
    requires i < |ho| && i < |o|
    ensures done + WriteMembers(Members(ho[i..], o[i..]))
         == done + WriteHeader(ho[i]) + o[i] + WriteMembers(Members(ho[i + 1..], o[i + 1..]))
  {
    hide WriteHeader;
    assert ho[i..][1..] == ho[i + 1..] && o[i..][1..] == o[i + 1..];
  }

  /** write_lib. */
  method LibWrite(fp: File, lib: Library)
    requires fp.bytes == []
    modifies fp
    ensures fp.bytes == WriteLib(lib.View())
  {
    hide WriteHeader, WriteFirst, WriteSecond, WriteStrings, WriteMembers;
    fp.Write(MAGIC);
    HeaderWrite(fp, lib.h1);
    FirstWrite(fp, lib.m1);
    HeaderWrite(fp, lib.h2);
    SecondWrite(fp, lib.m2);
    ghost var done := fp.bytes;
    TailWrite(fp, lib);
    assert done + WriteTail(TailOf(lib.View())) == WriteLib(lib.View());
  }

  method TailWrite(fp: File, lib: Library)
    modifies fp
    ensures fp.bytes == old(fp.bytes) + WriteTail(TailOf(lib.View()))
  {
    hide WriteHeader, WriteStrings, WriteMembers;
    if lib.hl.Some? {
      HeaderWrite(fp, lib.hl.value);
      StringsWrite(fp, lib.longnames);
    }
    MembersWrite(fp, lib.ho, lib.o);
  }

  /* ---- strip_lib_timestamp ---- */

  /** strip_coff_timestamp: nothing is replaced when the stamp is zero already. */
  method StampStrip(coff: seq<byte>) returns (r: Outcome<seq<byte>>)
    ensures r.Fine? <==> |coff| >= 8
    ensures |coff| >= 8 ==> r == Fine(StripStamp(coff))
  {
    if |coff| < 8 {
      return Raised(Truncated);
    }
    var old0 := FromLe4(coff[4..8]);
    assert Le4(0) == Zeros(4);
    if old0 != 0 {
      return Fine(coff[..4] + Le4(0) + coff[8..]);
    }
    assert coff[4..8] == Zeros(4);
    assert coff == coff[..4] + coff[4..8] + coff[8..];
    r := Fine(coff);
  }

  /** bytes.find for a zero byte. */
  method FindZero(s: seq<byte>) returns (i: int)
    ensures i == -1 <==> 0 !in s
    ensures 0 in s ==> 0 <= i < |s| && s[..i] == UpToZero(s)
  {
    i := 0;
    while i < |s|
      invariant 0 <= i <= |s| && 0 !in s[..i]
    {
      if s[i] == 0 {
        assert s == s[..i] + s[i..];
        UpToZeroOf(s[..i], s[i..]);
        return;
      }
      i := i + 1;
    }
    assert s[..i] == s;
    i := -1;
  }

  /** The `n` section headers of a table; those past its end are short or empty. */
  ghost function SectionsOf(t: seq<byte>, n: nat): (r: seq<seq<byte>>)
    ensures |r| == n
    decreases n
  {
    if n == 0 then [] else [Take(t, SECTION)] + SectionsOf(Drop(t, SECTION), n - 1)
  }

  function Join(xs: seq<seq<byte>>): seq<byte> { if xs == [] then [] else xs[0] + Join(xs[1..]) }

  ghost function FixedSections(t: seq<byte>, n: nat): (r: seq<seq<byte>>)
    ensures |r| == n
    decreases n
  {
    if n == 0 then [] else [FixSection(Take(t, SECTION))] + FixedSections(Drop(t, SECTION), n - 1)
  }

  lemma {:induction false} SectionAtIndex(t: seq<byte>, n: nat, i: nat)
    requires i < n
    ensures SectionsOf(t, n)[i] == Take(Drop(t, SECTION * i), SECTION)
    ensures FixedSections(t, n)[i] == FixSection(SectionsOf(t, n)[i])
    decreases n
  {
    hide FixSection, Take, Drop;
    if i > 0 {
      SectionAtIndex(Drop(t, SECTION), n - 1, i - 1);
      DropTwice(t, SECTION, SECTION * (i - 1));
    } else {
      DropNone(t);
    }
  }

  lemma DropNone(t: seq<byte>)
    ensures Drop(t, 0) == t
  {
  }

  lemma DropTwice(t: seq<byte>, m: nat, n: nat)
    ensures Drop(Drop(t, m), n) == Drop(t, m + n)
  {
  }

  lemma TakeAndDrop(t: seq<byte>, m: nat)
    ensures Take(t, m) + Drop(t, m) == t
  {
  }

  lemma JoinCons(x: seq<byte>, xs: seq<seq<byte>>, z: seq<byte>)
    ensures Join([x] + xs) + z == x + (Join(xs) + z)
  {
    assert ([x] + xs)[1..] == xs;
    assert Join([x] + xs) == x + Join(xs);
    assert x + Join(xs) + z == x + (Join(xs) + z);
  }

  /** Joining the sections again gives back the table. */
  lemma {:induction false} JoinCut(t: seq<byte>, n: nat)
    ensures Join(SectionsOf(t, n)) + Drop(t, SECTION * n) == t
    decreases n
  {
    hide Take, Drop, Join;
    if n == 0 {
      NoSections(t);
    } else {
      var r := Drop(t, SECTION);
      JoinCut(r, n - 1);
      DropTwice(t, SECTION, SECTION * (n - 1));
      JoinCons(Take(t, SECTION), SectionsOf(r, n - 1), Drop(t, SECTION * n));
      TakeAndDrop(t, SECTION);
    }
  }

  lemma NoSections(t: seq<byte>)
    ensures Join([]) + Drop(t, SECTION * 0) == t
  {
    assert [] + t == t;
  }

  /** Joining the fixed sections gives the fixed table. */
  lemma {:induction false} JoinFixed(t: seq<byte>, n: nat)
    ensures Join(FixedSections(t, n)) + Drop(t, SECTION * n) == FixTable(t, n)
    decreases n
  {
    hide FixSection, Take, Drop, Join;
    if n == 0 {
      NoSections(t);
    } else if t == [] {
      EmptySections(n);
      NoTable(n);
    } else {
      var r := Drop(t, SECTION);
      JoinFixed(r, n - 1);
      DropTwice(t, SECTION, SECTION * (n - 1));
      JoinCons(FixSection(Take(t, SECTION)), FixedSections(r, n - 1), Drop(t, SECTION * n));
    }
  }

  lemma NoTable(n: nat)
    ensures Drop<byte>([], SECTION * n) == [] && FixTable([], n) == []
  {
  }

  /** The fixed sections cover the table as far as it goes. */
  lemma {:induction false} JoinLength(t: seq<byte>, n: nat)
    ensures |Join(FixedSections(t, n))| >= |t| - |Drop(t, SECTION * n)|
    ensures SECTION * n <= |t| ==> |Join(FixedSections(t, n))| == SECTION * n
    decreases n
  {
    hide FixSection;
    if n > 0 {
      var r := Drop(t, SECTION);
      SectionLength(Take(t, SECTION));
      JoinLength(r, n - 1);
      assert Drop(r, SECTION * (n - 1)) == Drop(t, SECTION * n);
      assert FixedSections(t, n)[1..] == FixedSections(r, n - 1);
    }
  }

  lemma {:induction false} EmptySections(n: nat)
    ensures Join(FixedSections([], n)) == []
    decreases n
  {
    if n > 0 {
      EmptySections(n - 1);
      assert FixedSections([], n)[1..] == FixedSections([], n - 1);
      FixNameShort([]);
    }
  }

  /** The first loop of fix_coff_null_padding: the section headers are cut out. */
  method CutSections(coff: seq<byte>, n: nat) returns (sections: seq<seq<byte>>)
    ensures sections == SectionsOf(Drop(coff, COFF_HEADER), n)
  {
    hide SectionsOf, Take, Drop;
    sections := [];
    ghost var t := Drop(coff, COFF_HEADER);
    for i := 0 to n
      invariant |sections| == i && forall k :: 0 <= k < i ==> sections[k] == SectionsOf(t, n)[k]
    {
      var start := COFF_HEADER + i * SECTION;
      SectionAtIndex(t, n, i);
      DropTwice(coff, COFF_HEADER, SECTION * i);
      sections := sections + [Take(Drop(coff, start), SECTION)];
    }
  }

  /** The second loop: a section whose name is not null padded is replaced. */
  method PadNames(cut: seq<seq<byte>>, ghost t: seq<byte>) returns (sections: seq<seq<byte>>, modified: bool)
    requires cut == SectionsOf(t, |cut|)
    ensures sections == FixedSections(t, |cut|) && (!modified ==> sections == cut)
  {
    sections, modified := cut, false;
    for n := 0 to |cut|
      invariant |sections| == |cut| && (!modified ==> sections == cut)
      invariant forall k :: 0 <= k < n ==> sections[k] == FixedSections(t, |cut|)[k]
      invariant forall k :: n <= k < |cut| ==> sections[k] == cut[k]
    {
      var s := sections[n];
      SectionAtIndex(t, |cut|, n);
      var fixed, changed := PadName(s);
      if changed {
        sections := sections[n := fixed];
        modified := true;
      }
    }
  }

  /** The body of that loop. */
  method PadName(s: seq<byte>) returns (fixed: seq<byte>, changed: bool)
    ensures fixed == FixSection(s) && (!changed ==> fixed == s)
  {
    var name := Take(s, NAME);
    var i := FindZero(name);
    if i >= 0 {
      var shortname := name[..i];
      var nameNew := Take(shortname + Zeros(NAME), NAME);
      if name != nameNew {
        return nameNew + Drop(s, NAME), true;
      }
    }
    assert name + Drop(s, NAME) == s;
    fixed, changed := s, false;
  }

  /** fix_coff_null_padding. */
  method PaddingFix(coff: seq<byte>) returns (r: seq<byte>)
    requires |coff| >= 4
    ensures r == FixPadding(coff)
  {
    hide FixPadding, SectionsOf, FixedSections;
    var header := Take(coff, COFF_HEADER);
    var n := FromLe2(header[2..4]);
    assert header[2..4] == coff[2..4];
    ghost var t := Drop(coff, COFF_HEADER);
    var cut := CutSections(coff, n);
    var sections, modified := PadNames(cut, t);
    if modified {
      var start := header + Join(sections);
      Rebuilt(coff);
      return start + Drop(coff, |start|);
    }
    NothingToFix(coff);
    r := coff;
  }

  lemma Rebuilt(coff: seq<byte>)
    requires |coff| >= 4
    ensures var start := Take(coff, COFF_HEADER) + Join(FixedSections(Drop(coff, COFF_HEADER), Sections(coff)));
            start + Drop(coff, |start|) == FixPadding(coff)
  {
    hide FixedSections, FixTable, Join, Sections;
    var t, n := Drop(coff, COFF_HEADER), Sections(coff);
    var start := Take(coff, COFF_HEADER) + Join(FixedSections(t, n));
    JoinFixed(t, n);
    DropStart(coff, start, n);
    assert start + Drop(t, SECTION * n) == Take(coff, COFF_HEADER) + (Join(FixedSections(t, n)) + Drop(t, SECTION * n));
  }

  lemma NothingToFix(coff: seq<byte>)
    requires |coff| >= 4
    requires var t := Drop(coff, COFF_HEADER); FixedSections(t, Sections(coff)) == SectionsOf(t, Sections(coff))
    ensures FixPadding(coff) == coff
  {
    hide FixedSections, FixTable, Join, Sections, SectionsOf;
    var t, n := Drop(coff, COFF_HEADER), Sections(coff);
    JoinFixed(t, n);
    JoinCut(t, n);
    assert Take(coff, COFF_HEADER) + t == coff;
  }

  lemma DropStart(coff: seq<byte>, start: seq<byte>, n: nat)
    requires var t := Drop(coff, COFF_HEADER);
             start == Take(coff, COFF_HEADER) + Join(FixedSections(t, n))
    ensures Drop(coff, |start|) == Drop(Drop(coff, COFF_HEADER), SECTION * n)
  {
    hide FixedSections, FixTable, SectionsOf;
    JoinLength(Drop(coff, COFF_HEADER), n);
  }

  /** The first list that strip_lib_timestamp builds. */
  method StampsStrip(o: seq<seq<byte>>) returns (r: Outcome<seq<seq<byte>>>)
    ensures r.Fine? <==> Stampable(o)
    ensures r.Fine? ==> |r.value| == |o| && forall k :: 0 <= k < |o| ==> r.value[k] == StripStamp(o[k])
  {
    hide StripStamp;
    var stamped: seq<seq<byte>> := [];
    for i := 0 to |o|
      invariant |stamped| == i && forall k :: 0 <= k < i ==> |o[k]| >= 8 && stamped[k] == StripStamp(o[k])
    {
      var c := StampStrip(o[i]);
      if c.Raised? {
        return Raised(Truncated);
      }
      stamped := stamped + [c.value];
    }
    r := Fine(stamped);
  }

  /** The second list. */
  method PaddingsFix(o: seq<seq<byte>>) returns (r: seq<seq<byte>>)
    requires forall k :: 0 <= k < |o| ==> |o[k]| >= 4
    ensures |r| == |o| && forall k :: 0 <= k < |o| ==> r[k] == FixPadding(o[k])
  {
    hide FixPadding;
    r := [];
    for i := 0 to |o|
      invariant |r| == i && forall k :: 0 <= k < i ==> r[k] == FixPadding(o[k])
    {
      var c := PaddingFix(o[i]);
      r := r + [c];
    }
  }

  /** strip_lib_timestamp. It fails when a member cannot hold a time stamp, after the dates have been replaced. */
  method StripTimestamp(lib: Library) returns (r: Outcome<bool>)
    modifies lib
    ensures r.Fine? <==> Stampable(old(lib.o))
    ensures r.Fine? ==> lib.View() == StripLib(old(lib.View()))
  {
    hide Undated, StripMember, FixPadding, StripStamp;
    ghost var o := lib.o;
    StripDates(lib);
    var stamped := StampsStrip(lib.o);
    if stamped.Raised? {
      return Raised(stamped.error);
    }
    lib.o := stamped.value;
    var padded := PaddingsFix(lib.o);
    lib.o := padded;
    MembersStripped(o, padded);
    r := Fine(true);
  }

  lemma MembersStripped(o: seq<seq<byte>>, padded: seq<seq<byte>>)
    requires |padded| == |o| && forall k :: 0 <= k < |o| ==> |o[k]| >= 8 && padded[k] == FixPadding(StripStamp(o[k]))
    ensures Stampable(o) && padded == StripAll(o)
  {
    hide FixPadding, StripStamp;
  }

  /** fix_header on every header. */
  method StripDates(lib: Library)
    modifies lib
    ensures var l := old(lib.View());
            lib.View() == l.(h1 := Undated(l.h1), h2 := Undated(l.h2),
                             hl := if l.hl.Some? then Some(Undated(l.hl.value)) else None, ho := UndatedAll(l.ho))
  {
    lib.h1 := lib.h1.(date := NO_DATE);
    lib.h2 := lib.h2.(date := NO_DATE);
    if lib.hl.Some? {
      lib.hl := Some(lib.hl.value.(date := NO_DATE));
    }
    var ho := lib.ho;
    for i := 0 to |ho|
      invariant |ho| == |lib.ho| && forall k :: 0 <= k < |ho| ==> ho[k] == if k < i then Undated(lib.ho[k]) else lib.ho[k]
    {
      ho := ho[i := ho[i].(date := NO_DATE)];
    }
    assert ho == UndatedAll(lib.ho);
    lib.ho := ho;
  }

  /** What the tool does to a file it accepts: reading its output gives the stripped library again, and running it once more
      writes the same file. */
  method Tool(infile: File, outfile: File) returns (r: Outcome<bool>)
    requires infile.Valid() && infile != outfile && outfile.bytes == []
    modifies infile, outfile
    ensures r.Fine? <==> ReadLib(old(infile.Rest())).Got? && Stampable(ReadLib(old(infile.Rest())).value.o)
    ensures r.Fine? ==> outfile.bytes == WriteLib(StripLib(ReadLib(old(infile.Rest())).value))
  {
    hide ReadLib, WriteLib, StripLib, Stampable;
    var lib := LibRead(infile);
    if lib.Raised? {
      return Raised(lib.error);
    }
    r := StripTimestamp(lib.value);
    if r.Fine? {
      LibWrite(outfile, lib.value);
    }
  }

  /** Running the tool on its own output changes nothing, provided no section table was torn. */
  lemma ToolTwice(s: seq<byte>)
    requires ReadLib(s).Got? && Stampable(ReadLib(s).value.o)
    requires forall i :: 0 <= i < |ReadLib(s).value.o| ==> !Torn(ReadLib(s).value.o[i])
    ensures var out := WriteLib(StripLib(ReadLib(s).value));
            && ReadLib(out).Got? && Stampable(ReadLib(out).value.o)
            && WriteLib(StripLib(ReadLib(out).value)) == out
  {
    hide ReadLib, WriteLib, StripLib, Torn, LibOk, Fits;
    LibImage(s);
    var l := ReadLib(s).value;
    WholeTablesFit(l);
    StripKeepsFormat(l);
    StripLibTwice(l);
  }
}
