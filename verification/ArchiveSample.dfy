/** One small library byte for byte: what it is read to, and what the tool writes for it. */
module ArchiveSample {
  import opened Base
  import opened Archive
  import opened ArchiveProofs
  import opened ArchiveStrip

  /* ---- integers ---- */

  /** The first linker member counts from the most significant byte on, the second one and the object files from the least
      significant byte on. */
  lemma ByteOrders()
    ensures Big4.Unpack([1, 2, 3, 4]) == 0x01020304
    ensures Little4.Unpack([1, 2, 3, 4]) == 0x04030201
    ensures Little2.Unpack([1, 2]) == 0x0201
  {
  }

  /** What is stripped from the text of a field: tab to carriage return, the four separators, and space. */
  lemma Whitespace(b: byte)
    ensures Strip([b]) == [] <==> b in {9, 10, 11, 12, 13, 28, 29, 30, 31, 32}
  {
    assert StripLeft([b]) == if IsSpace(b) then StripLeft([b][1..]) else [b];
  }

  /* ---- the file ---- */

  /** "/" and "a.obj/", followed by spaces. */
  const SLASH: seq<byte> := [0x2F, 32, 32, 32, 32, 32, 32, 32, 32, 32, 32, 32, 32, 32, 32, 32]
  const A_OBJ: seq<byte> := [0x61, 0x2E, 0x6F, 0x62, 0x6A, 0x2F, 32, 32, 32, 32, 32, 32, 32, 32, 32, 32]

  /** "1700000000", and the same and "-1" followed by spaces. */
  const DATE: seq<byte> := [0x31, 0x37, 0x30, 0x30, 0x30, 0x30, 0x30, 0x30, 0x30, 0x30]
  const DATED: seq<byte> := [0x31, 0x37, 0x30, 0x30, 0x30, 0x30, 0x30, 0x30, 0x30, 0x30, 32, 32]
  const DATELESS: seq<byte> := [0x2D, 0x31, 32, 32, 32, 32, 32, 32, 32, 32, 32, 32]

  /** No user, group "12" and mode "0". */
  const OWNER: seq<byte> := [32, 32, 32, 32, 32, 32] + [0x31, 0x32, 32, 32, 32, 32] + [0x30, 32, 32, 32, 32, 32, 32, 32]

  /** The sizes 10, 16 and 103, and the end of a header. */
  const TEN: seq<byte> := [0x31, 0x30, 32, 32, 32, 32, 32, 32, 32, 32]
  const SIXTEEN: seq<byte> := [0x31, 0x36, 32, 32, 32, 32, 32, 32, 32, 32]
  const HUNDRED_THREE: seq<byte> := [0x31, 0x30, 0x33, 32, 32, 32, 32, 32, 32, 32]
  const END: seq<byte> := [0x60, 0x0A]

  /** The object file: two sections with data `d` and `e`, and three bytes behind them. */
  function ObjectBytes(stamp: seq<byte>, name: seq<byte>, name2: seq<byte>, d: seq<byte>, e: seq<byte>): seq<byte> {
    [0x64, 0x86, 2, 0] + stamp + [0, 0, 0, 0, 0, 0, 0, 0, 0, 0, 0, 0] + name + d + name2 + e + [7, 0, 7]
  }

  /** The library: one symbol "a" at offset 258, in the first of its members. */
  function FileBytes(date: seq<byte>, coff: seq<byte>): seq<byte> {
    [0x21, 0x3C, 0x61, 0x72, 0x63, 0x68, 0x3E, 0x0A]
    + (SLASH + date + OWNER + TEN + END) + ([0, 0, 0, 1] + [0, 0, 1, 2] + [0x61, 0])
    + (SLASH + date + OWNER + SIXTEEN + END) + ([1, 0, 0, 0] + [2, 1, 0, 0] + [1, 0, 0, 0] + [1, 0] + [0x61, 0])
    + ([0x0A] + A_OBJ + date + OWNER + HUNDRED_THREE + END) + coff
  }

  /** What the library holds. */
  function Contents(date: seq<byte>, coff: seq<byte>): Lib {
    Lib(Header(false, [0x2F], date, [], [0x31, 0x32], [0x30], 10), First([258], [[0x61]]),
        Header(false, [0x2F], date, [], [0x31, 0x32], [0x30], 16), Second([258], [1], [[0x61]]), None, [],
        [Header(true, [0x61, 0x2E, 0x6F, 0x62, 0x6A, 0x2F], date, [], [0x31, 0x32], [0x30], 103)], [coff])
  }

  lemma PadIs(x: seq<byte>, n: nat, b: seq<byte>)
    requires |x| <= n == |b| && (forall i :: 0 <= i < |x| ==> b[i] == x[i]) && forall i :: |x| <= i < n ==> b[i] == 32
    ensures Pad(x, n) == b
  {
  }

  lemma OwnerBytes()
    ensures Pad([], 6) + Pad([0x31, 0x32], 6) + Pad([0x30], 8) == OWNER
  {
    PadIs([], 6, [32, 32, 32, 32, 32, 32]);
    PadIs([0x31, 0x32], 6, [0x31, 0x32, 32, 32, 32, 32]);
    PadIs([0x30], 8, [0x30, 32, 32, 32, 32, 32, 32, 32]);
  }

  lemma SizeBytes()
    ensures Pad(Digits(10), 10) == TEN && Pad(Digits(16), 10) == SIXTEEN && Pad(Digits(103), 10) == HUNDRED_THREE
  {
    assert Digits(1) == [0x31] && Digits(10) == [0x31, 0x30] && Digits(16) == [0x31, 0x36];
    assert Digits(103) == [0x31, 0x30, 0x33];
    PadIs(Digits(10), 10, TEN);
    PadIs(Digits(16), 10, SIXTEEN);
    PadIs(Digits(103), 10, HUNDRED_THREE);
  }

  lemma NameBytes()
    ensures Pad([0x2F], 16) == SLASH && Pad([0x61, 0x2E, 0x6F, 0x62, 0x6A, 0x2F], 16) == A_OBJ
  {
    PadIs([0x2F], 16, SLASH);
    PadIs([0x61, 0x2E, 0x6F, 0x62, 0x6A, 0x2F], 16, A_OBJ);
  }

  lemma DateText()
    ensures Pad(DATE, 12) == DATED && Pad(NO_DATE, 12) == DATELESS
  {
    PadIs(DATE, 12, DATED);
    PadIs(NO_DATE, 12, DATELESS);
  }

  /** A header as its fields. */
  lemma HeaderIs(h: Header, name: seq<byte>, date: seq<byte>, size: seq<byte>)
    requires h.uid == [] && h.gid == [0x31, 0x32] && h.mode == [0x30]
    requires Pad(h.name, 16) == name && Pad(h.date, 12) == date && Pad(Digits(h.size), 10) == size
    ensures WriteHeader(h) == (if h.optnl then [0x0A] else []) + name + date + OWNER + size + END
  {
    hide Pad, Digits;
    OwnerBytes();
    var pre := (if h.optnl then [0x0A] else []) + name + date;
    assert pre + Pad([], 6) + Pad([0x31, 0x32], 6) + Pad([0x30], 8)
        == pre + (Pad([], 6) + Pad([0x31, 0x32], 6) + Pad([0x30], 8));
  }

  lemma LinkerBytes()
    ensures WriteFirst(First([258], [[0x61]])) == [0, 0, 0, 1] + [0, 0, 1, 2] + [0x61, 0]
    ensures WriteSecond(Second([258], [1], [[0x61]]))
         == [1, 0, 0, 0] + [2, 1, 0, 0] + [1, 0, 0, 0] + [1, 0] + [0x61, 0]
  {
    OneInt(Big4, 258);
    OneInt(Little4, 258);
    OneInt(Little2, 1);
    assert Big4.Pack(1) == [0, 0, 0, 1] && Big4.Pack(258) == [0, 0, 1, 2];
    assert Little4.Pack(1) == [1, 0, 0, 0] && Little4.Pack(258) == [2, 1, 0, 0] && Little2.Pack(1) == [1, 0];
    OneString([0x61]);
    assert [0x61] + [0] == [0x61, 0];
  }

  lemma OneInt(w: Width, n: nat)
    ensures WriteInts(w, [n]) == w.Pack(n)
  {
    assert WriteInts(w, [n][1..]) == [];
  }

  lemma OneString(x: seq<byte>)
    ensures WriteStrings([x]) == x + [0]
  {
    assert WriteStrings([x][1..]) == [];
  }

  /** The written library, for any date of at most twelve bytes. */
  lemma WrittenIs(date: seq<byte>, padded: seq<byte>, coff: seq<byte>)
    requires Pad(date, 12) == padded
    ensures WriteLib(Contents(date, coff)) == FileBytes(padded, coff)
  {
    hide Pad, WriteHeader, WriteFirst, WriteSecond;
    var l := Contents(date, coff);
    NameBytes();
    SizeBytes();
    HeaderIs(l.h1, SLASH, padded, TEN);
    HeaderIs(l.h2, SLASH, padded, SIXTEEN);
    HeaderIs(l.ho[0], A_OBJ, padded, HUNDRED_THREE);
    LinkerBytes();
    OneMember(l.ho[0], coff);
    assert [] + SLASH == SLASH;
  }

  lemma OneMember(h: Header, c: seq<byte>)
    ensures WriteMembers(Members([h], [c])) == WriteHeader(h) + c
  {
    hide WriteHeader;
    assert WriteMembers(Members([h][1..], [c][1..])) == [];
  }

  lemma ContentsOk(coff: seq<byte>)
    requires |coff| == 103
    ensures LibOk(Contents(DATE, coff))
  {
    hide WriteFirst, WriteSecond;
    var l := Contents(DATE, coff);
    LinkerBytes();
    assert Digits(10) == [0x31, 0x30] && Digits(16) == [0x31, 0x36] by { assert Digits(1) == [0x31]; }
    assert |Digits(103)| == 3;
    assert HeaderOk(l.h1) && HeaderOk(l.h2) && HeaderOk(l.ho[0]);
    assert MembersOk(Members([], []));
    assert Members(l.ho[1..], l.o[1..]) == Members([], []);
  }

  /** The file is read to these fields: whatever the object file, its name, date, owner, mode and size are where they are. */
  lemma SampleReads(coff: seq<byte>)
    requires |coff| == 103
    ensures ReadLib(FileBytes(DATED, coff)) == Got(Contents(DATE, coff), [])
  {
    hide *;
    DateText();
    ContentsOk(coff);
    WrittenIs(DATE, DATED, coff);
    RoundTrip(Contents(DATE, coff));
  }

  /** Two sections, the names of which are dirty behind their zero bytes, and what is left of them. */
  const DIRTY: seq<byte> := [0x61, 0, 9, 9, 9, 9, 9, 9]
  const CLEAN: seq<byte> := [0x61, 0, 0, 0, 0, 0, 0, 0]
  const DIRTY_TEXT: seq<byte> := [0x2E, 0x74, 0x65, 0x78, 0x74, 0, 0, 7]
  const CLEAN_TEXT: seq<byte> := [0x2E, 0x74, 0x65, 0x78, 0x74, 0, 0, 0]

  lemma NamesCleaned()
    ensures FixName(DIRTY) == CLEAN && FixName(DIRTY_TEXT) == CLEAN_TEXT
  {
    hide FixName, UpToZero;
    NameCleaned([0x61], [0, 9, 9, 9, 9, 9, 9], DIRTY, CLEAN);
    NameCleaned([0x2E, 0x74, 0x65, 0x78, 0x74], [0, 0, 7], DIRTY_TEXT, CLEAN_TEXT);
  }

  lemma NameCleaned(u: seq<byte>, z: seq<byte>, name: seq<byte>, clean: seq<byte>)
    requires name == u + z && 0 !in u && z != [] && z[0] == 0 && |clean| == |name| == 8
    requires forall i :: 0 <= i < 8 ==> clean[i] == if i < |u| then u[i] else 0
    ensures FixName(name) == clean
  {
    UpToZeroOf(u, z);
    assert name[|u|] == 0;
  }

  lemma TwoSections(name: seq<byte>, d: seq<byte>, name2: seq<byte>, e: seq<byte>, rest: seq<byte>)
    requires |name| == |name2| == 8 && |d| == |e| == 32
    ensures FixTable(name + d + name2 + e + rest, 2) == FixName(name) + d + FixName(name2) + e + rest
  {
    hide FixName;
    var t := name + d + name2 + e + rest;
    assert t == (name + d) + (name2 + e + rest);
    assert Take(t, SECTION) == name + d && Drop(t, SECTION) == name2 + e + rest;
    OneSection(name, d);
    OneSection(name2, e);
    var u := name2 + e + rest;
    assert Take(u, SECTION) == name2 + e && Drop(u, SECTION) == rest;
    assert FixTable(u, 1) == FixName(name2) + e + rest;
  }

  lemma OneSection(name: seq<byte>, d: seq<byte>)
    requires |name| == 8 && |d| == 32
    ensures FixSection(name + d) == FixName(name) + d
  {
    assert Take(name + d, NAME) == name && Drop(name + d, NAME) == d;
  }

  /** The object file loses its stamp and the dirt in both names; its data and what follows the table stay. */
  lemma ObjectStripped(stamp: seq<byte>, d: seq<byte>, e: seq<byte>)
    requires |stamp| == 4 && |d| == |e| == 32
    ensures var c := ObjectBytes(stamp, DIRTY, DIRTY_TEXT, d, e);
            |c| == 103 && StripMember(c) == ObjectBytes([0, 0, 0, 0], CLEAN, CLEAN_TEXT, d, e)
  {
    hide FixTable, FixName, StripStamp, FixPadding;
    var c := ObjectBytes(stamp, DIRTY, DIRTY_TEXT, d, e);
    var head := [0x64, 0x86, 2, 0] + [0, 0, 0, 0] + [0, 0, 0, 0, 0, 0, 0, 0, 0, 0, 0, 0];
    var t := DIRTY + d + DIRTY_TEXT + e + [7, 0, 7];
    Unstamped([0x64, 0x86, 2, 0], stamp, [0, 0, 0, 0, 0, 0, 0, 0, 0, 0, 0, 0], t);
    assert c == [0x64, 0x86, 2, 0] + stamp + [0, 0, 0, 0, 0, 0, 0, 0, 0, 0, 0, 0] + t;
    TwoSections(DIRTY, d, DIRTY_TEXT, e, [7, 0, 7]);
    NamesCleaned();
    TwoPadded(head, t);
  }

  lemma Unstamped(a: seq<byte>, stamp: seq<byte>, b: seq<byte>, t: seq<byte>)
    requires |a| == |stamp| == 4
    ensures StripStamp(a + stamp + b + t) == a + [0, 0, 0, 0] + b + t
  {
    var c := a + stamp + b + t;
    assert c[..4] == a && c[8..] == b + t;
    assert Zeros(4) == [0, 0, 0, 0];
  }

  lemma TwoPadded(head: seq<byte>, t: seq<byte>)
    requires |head| == COFF_HEADER && head[2] == 2 && head[3] == 0
    ensures FixPadding(head + t) == head + FixTable(t, 2)
  {
    hide FixTable;
    assert Take(head + t, COFF_HEADER) == head && Drop(head + t, COFF_HEADER) == t;
    assert (head + t)[2..4] == [2, 0] && FromLe2([2, 0]) == 2;
  }

  /** The whole tool on the sample: "-1" for the dates, zeros for the stamp, clean names, and nothing else. */
  lemma SampleStripped(stamp: seq<byte>, d: seq<byte>, e: seq<byte>)
    requires |stamp| == 4 && |d| == |e| == 32
    ensures var l := ReadLib(FileBytes(DATED, ObjectBytes(stamp, DIRTY, DIRTY_TEXT, d, e)));
            && l.Got? && Stampable(l.value.o)
            && WriteLib(StripLib(l.value)) == FileBytes(DATELESS, ObjectBytes([0, 0, 0, 0], CLEAN, CLEAN_TEXT, d, e))
  {
    hide ReadLib, WriteLib, StripMember, FileBytes, ObjectBytes;
    var c, c2 := ObjectBytes(stamp, DIRTY, DIRTY_TEXT, d, e), ObjectBytes([0, 0, 0, 0], CLEAN, CLEAN_TEXT, d, e);
    ObjectStripped(stamp, d, e);
    SampleReads(c);
    DateText();
    WrittenIs(NO_DATE, DATELESS, c2);
    var l := Contents(DATE, c);
    assert StripAll(l.o) == [c2];
    assert UndatedAll(l.ho) == [Undated(l.ho[0])];
    assert StripLib(l) == Contents(NO_DATE, c2);
  }

  /** "//" and "5", followed by spaces. */
  const TWO_SLASHES: seq<byte> := [0x2F, 0x2F, 32, 32, 32, 32, 32, 32, 32, 32, 32, 32, 32, 32, 32, 32]
  const FIVE: seq<byte> := [0x35, 32, 32, 32, 32, 32, 32, 32, 32, 32]

  /** A member named "//" holds the long names: here "a" and "bc", in five bytes. */
  lemma LongnamesRead()
    ensures var h := Header(false, [0x2F, 0x2F], DATE, [], [0x31, 0x32], [0x30], 5);
            ReadTail((TWO_SLASHES + DATED + OWNER + FIVE + END) + [0x61, 0, 0x62, 0x63, 0])
            == Got(Tail(Some(h), [[0x61], [0x62, 0x63]], Members([], [])), [])
  {
    hide WriteHeader, ReadTail, Pad, HeaderOk, WriteStrings;
    var h := Header(false, [0x2F, 0x2F], DATE, [], [0x31, 0x32], [0x30], 5);
    var t := Tail(Some(h), [[0x61], [0x62, 0x63]], Members([], []));
    PadIs([0x2F, 0x2F], 16, TWO_SLASHES);
    PadIs([0x35], 10, FIVE);
    DateText();
    HeaderIs(h, TWO_SLASHES, DATED, FIVE);
    assert [] + TWO_SLASHES == TWO_SLASHES;
    LongnamesWritten(h, t);
    LongnamesFit(h, t);
    TailBack(t);
  }

  lemma LongnamesWritten(h: Header, t: Tail)
    requires t == Tail(Some(h), [[0x61], [0x62, 0x63]], Members([], []))
    ensures WriteTail(t) == WriteHeader(h) + [0x61, 0, 0x62, 0x63, 0]
  {
    hide WriteHeader;
    assert [[0x61], [0x62, 0x63]][1..] == [[0x62, 0x63]];
    OneString([0x62, 0x63]);
    assert [0x61] + [0] + ([0x62, 0x63] + [0]) == [0x61, 0, 0x62, 0x63, 0];
  }

  lemma LongnamesFit(h: Header, t: Tail)
    requires t == Tail(Some(h), [[0x61], [0x62, 0x63]], Members([], [])) && h.size == 5 && h.name == [0x2F, 0x2F]
    requires h.date == DATE && h.uid == [] && h.gid == [0x31, 0x32] && h.mode == [0x30]
    ensures TailOk(t)
  {
    assert [[0x61], [0x62, 0x63]][1..] == [[0x62, 0x63]] && [[0x62, 0x63]][1..] == [];
  }
}
