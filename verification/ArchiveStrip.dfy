/** What stripping does to an archive: dates become "-1", COFF time stamps become zero, and what follows the first zero
    byte of a section name becomes zero. */
module ArchiveStrip {
  import opened Base
  import opened Archive
  import opened ArchiveProofs

  const NO_DATE: seq<byte> := [0x2D, 0x31]
  const COFF_HEADER: nat := 20
  const SECTION: nat := 40
  const NAME: nat := 8

  function Zeros(n: nat): (s: seq<byte>)
    ensures |s| == n && forall i :: 0 <= i < n ==> s[i] == 0
  {
    if n == 0 then [] else Zeros(n - 1) + [0]
  }

  /** strip_coff_timestamp, on a member long enough to hold a time stamp. */
  function StripStamp(c: seq<byte>): (r: seq<byte>)
    requires |c| >= 8
    ensures |r| == |c|
  {
    c[..4] + Zeros(4) + c[8..]
  }

  /** The bytes before the first zero byte. */
  function UpToZero(s: seq<byte>): (r: seq<byte>)
    ensures r <= s && 0 !in r && (|r| < |s| ==> s[|r|] == 0)
  {
    if s == [] || s[0] == 0 then [] else [s[0]] + UpToZero(s[1..])
  }

  /** A null padded name field. */
  function FixName(name: seq<byte>): seq<byte> {
    if 0 in name then Take(UpToZero(name) + Zeros(NAME), NAME) else name
  }

  /** One section header: its first field is the name. */
  function FixSection(s: seq<byte>): seq<byte> { FixName(Take(s, NAME)) + Drop(s, NAME) }

  /** The first `n` section headers of a table. */
  function FixTable(t: seq<byte>, n: nat): seq<byte>
    decreases n
  {
    if n == 0 || t == [] then t else FixSection(Take(t, SECTION)) + FixTable(Drop(t, SECTION), n - 1)
  }

  function Sections(c: seq<byte>): nat
    requires |c| >= 4
  {
    FromLe2(c[2..4])
  }

  /** fix_coff_null_padding. */
  function FixPadding(c: seq<byte>): seq<byte>
    requires |c| >= 4
  {
    Take(c, COFF_HEADER) + FixTable(Drop(c, COFF_HEADER), Sections(c))
  }

  function StripMember(c: seq<byte>): seq<byte>
    requires |c| >= 8
  {
    FixPadding(StripStamp(c))
  }

  function Undated(h: Header): Header { h.(date := NO_DATE) }

  function UndatedAll(hs: seq<Header>): (r: seq<Header>)
    ensures |r| == |hs| && forall i :: 0 <= i < |hs| ==> r[i] == Undated(hs[i])
  {
    if hs == [] then [] else [Undated(hs[0])] + UndatedAll(hs[1..])
  }

  predicate Stampable(o: seq<seq<byte>>) { forall i :: 0 <= i < |o| ==> |o[i]| >= 8 }

  function StripAll(o: seq<seq<byte>>): (r: seq<seq<byte>>)
    requires Stampable(o)
    ensures |r| == |o| && forall i :: 0 <= i < |o| ==> r[i] == StripMember(o[i])
  {
    if o == [] then [] else assert Stampable(o[1..]); [StripMember(o[0])] + StripAll(o[1..])
  }

  /** strip_lib_timestamp; it fails when a member is too short for a time stamp. */
  function StripLib(l: Lib): Lib
    requires Stampable(l.o)
  {
    l.(h1 := Undated(l.h1), h2 := Undated(l.h2), hl := if l.hl.Some? then Some(Undated(l.hl.value)) else None,
       ho := UndatedAll(l.ho), o := StripAll(l.o))
  }

  /* ---- names ---- */

  /** A name that the member cuts short grows to its full length when it holds a zero byte. */
  lemma FixNameShort(name: seq<byte>)
    requires |name| <= NAME
    ensures |FixName(name)| == if 0 in name then NAME else |name|
    ensures FixName(FixName(name)) == FixName(name)
  {
    if 0 in name {
      var u := UpToZero(name);
      var f := FixName(name);
      assert f == u + Zeros(NAME)[..NAME - |u|];
      assert f[|u|] == 0;
      UpToZeroOf(u, Zeros(NAME)[..NAME - |u|]);
      assert FixName(f) == f;
    }
  }

  lemma {:induction false} UpToZeroOf(u: seq<byte>, z: seq<byte>)
    requires 0 !in u && (z != [] ==> z[0] == 0)
    ensures UpToZero(u + z) == u
  {
    if u != [] {
      assert (u + z)[1..] == u[1..] + z;
      UpToZeroOf(u[1..], z);
    } else {
      assert u + z == z;
    }
  }

  lemma FixNameAt(name: seq<byte>, i: nat)
    requires |name| <= NAME && i < |name|
    ensures i < |FixName(name)| && FixName(name)[i] == if exists j :: 0 <= j <= i && name[j] == 0 then 0 else name[i]
  {
    FixNameShort(name);
    var u := UpToZero(name);
    if 0 in name {
      assert FixName(name) == u + Zeros(NAME)[..NAME - |u|];
    }
  }

  /* ---- tables of sections ---- */

  /** The table ends inside a section name that holds a zero byte. */
  predicate TornTable(t: seq<byte>, n: nat)
    decreases n
  {
    n > 0 && t != [] && (if |t| < NAME then 0 in t else TornTable(Drop(t, SECTION), n - 1))
  }

  lemma SectionLength(s: seq<byte>)
    requires |s| <= SECTION
    ensures |FixSection(s)| == if |s| < NAME && 0 in s then NAME else |s|
    ensures FixSection(FixSection(s)) == FixSection(s)
  {
    FixNameShort(Take(s, NAME));
    if |s| >= NAME {
      var f := FixName(Take(s, NAME));
      assert Take(f + Drop(s, NAME), NAME) == f && Drop(f + Drop(s, NAME), NAME) == Drop(s, NAME);
    } else {
      assert FixSection(s) == FixName(s);
      assert Take(FixName(s), NAME) == FixName(s);
    }
  }

  /** Fixing keeps the length of a table exactly when it is not torn, and fixing twice is fixing once. */
  lemma {:induction false} TableLength(t: seq<byte>, n: nat)
    ensures |FixTable(t, n)| >= |t| && (|FixTable(t, n)| == |t| <==> !TornTable(t, n))
    ensures FixTable(FixTable(t, n), n) == FixTable(t, n)
    decreases n
  {
    hide FixSection;
    if n > 0 && t != [] {
      var s, r := Take(t, SECTION), Drop(t, SECTION);
      SectionLength(s);
      TableLength(r, n - 1);
      var f := FixTable(t, n);
      if |t| >= SECTION {
        assert Take(f, SECTION) == FixSection(s) && Drop(f, SECTION) == FixTable(r, n - 1);
      } else {
        assert r == [] && f == FixSection(s);
        assert Take(f, SECTION) == f && Drop(f, SECTION) == [];
        assert FixTable([], n - 1) == [];
      }
    }
  }

  /** The bytes of section names that come after a zero byte in the same name. */
  ghost predicate Padding(t: seq<byte>, n: nat, i: nat)
    requires i < |t|
  {
    i / SECTION < n && i % SECTION < NAME && exists j :: i - i % SECTION <= j < i && t[j] == 0
  }

  /** Fixing a table that is not torn clears the padding and leaves every other byte as it is. */
  lemma {:induction false} TableAt(t: seq<byte>, n: nat, i: nat)
    requires !TornTable(t, n) && i < |t|
    ensures |FixTable(t, n)| == |t| && FixTable(t, n)[i] == if Padding(t, n, i) then 0 else t[i]
    decreases n
  {
    hide FixSection, Padding;
    TableLength(t, n);
    if n == 0 {
      NoPadding(t, i);
    } else {
      var s, r := Take(t, SECTION), Drop(t, SECTION);
      SectionLength(s);
      if i < SECTION {
        SectionAt(s, i);
        PaddingHere(t, n, s, i);
      } else {
        TableAt(r, n - 1, i - SECTION);
        PaddingShift(t, r, n, i);
      }
    }
  }

  lemma NoPadding(t: seq<byte>, i: nat)
    requires i < |t|
    ensures !Padding(t, 0, i)
  {
  }

  lemma PaddingHere(t: seq<byte>, n: nat, s: seq<byte>, i: nat)
    requires n > 0 && i < |s| <= SECTION && s <= t
    ensures (if Padding(t, n, i) then 0 else t[i])
         == (if i < NAME && exists j :: 0 <= j <= i && s[j] == 0 then 0 else s[i])
  {
    assert i / SECTION == 0 && i % SECTION == i;
    assert forall j :: 0 <= j <= i ==> s[j] == t[j];
  }

  lemma PaddingShift(t: seq<byte>, r: seq<byte>, n: nat, i: nat)
    requires n > 0 && SECTION <= i < |t| && |r| == |t| - SECTION && forall j :: 0 <= j < |r| ==> r[j] == t[j + SECTION]
    ensures Padding(t, n, i) == Padding(r, n - 1, i - SECTION)
  {
    assert (i - SECTION) / SECTION == i / SECTION - 1 && (i - SECTION) % SECTION == i % SECTION;
    if Padding(t, n, i) {
      var j :| i - i % SECTION <= j < i && t[j] == 0;
      assert r[j - SECTION] == 0;
    }
  }

  lemma SectionAt(s: seq<byte>, i: nat)
    requires |s| <= SECTION && i < |s| && !(|s| < NAME && 0 in s)
    ensures |FixSection(s)| == |s|
    ensures FixSection(s)[i] == if i < NAME && exists j :: 0 <= j <= i && s[j] == 0 then 0 else s[i]
  {
    SectionLength(s);
    var name := Take(s, NAME);
    FixNameShort(name);
    if i < NAME {
      FixNameAt(name, i);
      assert forall j :: 0 <= j <= i ==> name[j] == s[j];
    }
  }

  /* ---- members ---- */

  /** The section table of the member is cut short inside a name that holds a zero byte. */
  predicate Torn(c: seq<byte>)
    requires |c| >= 8
  {
    TornTable(Drop(c, COFF_HEADER), Sections(c))
  }

  lemma StampKeeps(c: seq<byte>)
    requires |c| >= 8
    ensures Sections(StripStamp(c)) == Sections(c) && Drop(StripStamp(c), COFF_HEADER) == Drop(c, COFF_HEADER)
    ensures StripStamp(StripStamp(c)) == StripStamp(c)
  {
    assert StripStamp(c)[2..4] == c[2..4];
  }

  /** Stripping a member keeps its length unless the section table is torn, which makes it longer. */
  lemma StripLength(c: seq<byte>)
    requires |c| >= 8
    ensures |StripMember(c)| >= |c| && (|StripMember(c)| == |c| <==> !Torn(c))
  {
    hide FixTable, TornTable, FromLe2, StripStamp;
    StampKeeps(c);
    TableLength(Drop(c, COFF_HEADER), Sections(c));
  }

  /** Stripping a stripped member changes nothing. */
  lemma StripTwice(c: seq<byte>)
    requires |c| >= 8
    ensures |StripMember(c)| >= 8 && StripMember(StripMember(c)) == StripMember(c)
  {
    hide FixTable, TornTable, FromLe2;
    StripLength(c);
    StampKeeps(c);
    var d := StripStamp(c);
    var f := FixPadding(d);
    var t := Drop(d, COFF_HEADER);
    TableLength(t, Sections(d));
    assert FixTable([], Sections(d)) == [] by { EmptyTable(Sections(d)); }
    assert Take(f, COFF_HEADER) == Take(d, COFF_HEADER);
    assert Drop(f, COFF_HEADER) == FixTable(t, Sections(d));
    assert f[4..8] == d[4..8] == Zeros(4);
    assert StripStamp(f) == f;
    assert f[2..4] == d[2..4];
  }

  lemma EmptyTable(n: nat)
    ensures FixTable([], n) == []
  {
  }

  /** Exactly which bytes of a member stripping changes. */
  lemma StripAt(c: seq<byte>, i: nat)
    requires |c| >= 8 && !Torn(c) && i < |c|
    ensures |StripMember(c)| == |c|
    ensures StripMember(c)[i]
         == if 4 <= i < 8 || (i >= COFF_HEADER && Padding(Drop(c, COFF_HEADER), Sections(c), i - COFF_HEADER)) then 0
            else c[i]
  {
    hide FixTable, TornTable, FromLe2, Padding;
    StripLength(c);
    StampKeeps(c);
    if i >= COFF_HEADER {
      TableAt(Drop(c, COFF_HEADER), Sections(c), i - COFF_HEADER);
    }
  }

  /** Two members strip to the same time stamp exactly when they agree outside of it. */
  lemma StampsForgotten(c: seq<byte>, d: seq<byte>)
    requires |c| >= 8 && |d| >= 8
    ensures StripStamp(c) == StripStamp(d) <==> c[..4] == d[..4] && c[8..] == d[8..]
  {
    assert StripStamp(c)[..4] == c[..4] && StripStamp(c)[8..] == c[8..];
    assert StripStamp(d)[..4] == d[..4] && StripStamp(d)[8..] == d[8..];
  }

  /* ---- libraries ---- */

  lemma StrippedStampable(o: seq<seq<byte>>)
    requires Stampable(o)
    ensures Stampable(StripAll(o)) && StripAll(StripAll(o)) == StripAll(o)
  {
    hide StripMember;
    forall i | 0 <= i < |o| ensures |StripAll(o)[i]| >= 8 && StripMember(StripAll(o)[i]) == StripAll(o)[i] {
      StripTwice(o[i]);
    }
  }

  /** Stripping is idempotent. */
  lemma StripLibTwice(l: Lib)
    requires Stampable(l.o)
    ensures Stampable(StripLib(l).o) && StripLib(StripLib(l)) == StripLib(l)
  {
    hide StripMember;
    StrippedStampable(l.o);
    assert UndatedAll(UndatedAll(l.ho)) == UndatedAll(l.ho);
  }

  /** Every stripped member still has the size that its header names; the last one may be cut short. */
  ghost predicate Fits(ho: seq<Header>, o: seq<seq<byte>>)
    requires |ho| == |o| && Stampable(o)
  {
    forall i :: 0 <= i < |o| ==>
      |StripMember(o[i])| <= ho[i].size && (i < |o| - 1 ==> |StripMember(o[i])| == ho[i].size)
  }

  lemma UndatedOk(h: Header)
    ensures HeaderOk(h) ==> HeaderOk(Undated(h))
  {
  }

  lemma {:induction false} MembersStay(ms: Members)
    requires MembersOk(ms) && Stampable(ms.o)
    ensures MembersOk(Members(UndatedAll(ms.ho), StripAll(ms.o))) <==> Fits(ms.ho, ms.o)
    decreases |ms.ho|
  {
    hide StripMember, HeaderOk;
    if ms.ho != [] {
      var tail := Members(ms.ho[1..], ms.o[1..]);
      assert Stampable(tail.o);
      MembersStay(tail);
      UndatedOk(ms.ho[0]);
      var hs, os := UndatedAll(ms.ho), StripAll(ms.o);
      assert hs[1..] == UndatedAll(tail.ho) && os[1..] == StripAll(tail.o);
      assert Fits(ms.ho, ms.o) <==> Fits(tail.ho, tail.o) && |StripMember(ms.o[0])| <= ms.ho[0].size
                                    && (|ms.o| > 1 ==> |StripMember(ms.o[0])| == ms.ho[0].size) by {
        FitsSplit(ms, tail);
      }
    }
  }

  lemma FitsSplit(ms: Members, tail: Members)
    requires ms.ho != [] && |ms.ho| == |ms.o| && Stampable(ms.o)
    requires tail == Members(ms.ho[1..], ms.o[1..]) && Stampable(tail.o)
    ensures Fits(ms.ho, ms.o) <==> Fits(tail.ho, tail.o) && |StripMember(ms.o[0])| <= ms.ho[0].size
                                   && (|ms.o| > 1 ==> |StripMember(ms.o[0])| == ms.ho[0].size)
  {
    hide StripMember;
    if Fits(ms.ho, ms.o) {
      forall i | 0 <= i < |tail.o|
        ensures |StripMember(tail.o[i])| <= tail.ho[i].size
        ensures i < |tail.o| - 1 ==> |StripMember(tail.o[i])| == tail.ho[i].size
      {
        assert tail.o[i] == ms.o[i + 1] && tail.ho[i] == ms.ho[i + 1];
      }
    } else if Fits(tail.ho, tail.o) {
      assert forall i :: 0 < i < |ms.o| ==> ms.o[i] == tail.o[i - 1] && ms.ho[i] == tail.ho[i - 1];
    }
  }

  /** A stripped library can be written and read back exactly when every stripped member still fits its header. */
  lemma StripKeepsFormat(l: Lib)
    requires LibOk(l) && Stampable(l.o)
    ensures LibOk(StripLib(l)) <==> Fits(l.ho, l.o)
    ensures ReadLib(WriteLib(StripLib(l))) == Got(StripLib(l), []) <==> Fits(l.ho, l.o)
  {
    hide StripMember, HeaderOk, MembersOk, FirstOk, SecondOk, LongnamesOk, WriteFirst, WriteSecond, ReadLib, WriteLib;
    MembersCount(Members(l.ho, l.o));
    MembersStay(Members(l.ho, l.o));
    UndatedOk(l.h1);
    UndatedOk(l.h2);
    if l.hl.Some? {
      UndatedOk(l.hl.value);
    }
    RoundTrip(StripLib(l));
  }

  lemma MembersCount(ms: Members)
    requires MembersOk(ms)
    ensures |ms.ho| == |ms.o|
  {
  }

  /** Section tables that end on a section or in its data are never torn, so that stripping such a library is safe. */
  lemma WholeTablesFit(l: Lib)
    requires LibOk(l) && Stampable(l.o) && forall i :: 0 <= i < |l.o| ==> !Torn(l.o[i])
    ensures |l.ho| == |l.o| && Fits(l.ho, l.o)
    ensures forall i :: 0 <= i < |l.o| ==> |StripLib(l).o[i]| == |l.o[i]|
  {
    hide StripMember, HeaderOk, Torn, MembersOk, LongnamesOk, FirstOk, SecondOk;
    MembersCount(Members(l.ho, l.o));
    MemberSizes(Members(l.ho, l.o));
    forall i | 0 <= i < |l.o| ensures |StripMember(l.o[i])| == |l.o[i]| {
      StripLength(l.o[i]);
    }
  }

  lemma {:induction false} MemberSizes(ms: Members)
    requires MembersOk(ms)
    ensures |ms.ho| == |ms.o|
    ensures forall i :: 0 <= i < |ms.o| ==> |ms.o[i]| <= ms.ho[i].size && (i < |ms.o| - 1 ==> |ms.o[i]| == ms.ho[i].size)
    decreases |ms.ho|
  {
    hide HeaderOk;
    if ms.ho != [] {
      var tail := Members(ms.ho[1..], ms.o[1..]);
      MemberSizes(tail);
      forall i | 0 < i < |ms.o| ensures ms.o[i] == tail.o[i - 1] && ms.ho[i] == tail.ho[i - 1] { }
    }
  }

  /** A table that fits the member is not torn. */
  lemma {:induction false} FittingTable(t: seq<byte>, n: nat)
    requires n * SECTION <= |t|
    ensures !TornTable(t, n)
    decreases n
  {
    if n > 0 {
      assert |Drop(t, SECTION)| == |t| - SECTION;
      FittingTable(Drop(t, SECTION), n - 1);
    }
  }

  /** The smallest member whose section table is torn: one section is declared, and one zero byte of its name is there. */
  lemma TornExample()
    ensures var c := [0, 0, 1, 0] + Zeros(17); |c| == 21 && Torn(c) && |StripMember(c)| == 28
  {
    var c := [0, 0, 1, 0] + Zeros(17);
    StampKeeps(c);
    var t := Drop(c, COFF_HEADER);
    assert t == [0] by { assert |t| == 1 && t[0] == c[20]; }
    assert c[2..4] == [1, 0];
    assert Sections(c) == 1;
    assert Take(t, SECTION) == t && Drop(t, SECTION) == [];
    FixNameShort([0]);
    assert |FixTable(t, 1)| == |FixSection(t)| + |FixTable([], 0)|;
    assert FixSection(t) == FixName([0]);
  }

  /* ---- positions in the file ---- */

  lemma HeaderSize(h: Header)
    requires HeaderOk(h)
    ensures |WriteHeader(h)| == if h.optnl then 61 else 60
  {
    hide Pad, Digits;
    HeaderLengths(h);
  }

  /** Up to every member, the stripped members take up as many bytes as before: the offsets that the linker members hold
      stay right. */
  lemma {:induction false} NothingMoves(ms: Members, k: nat)
    requires MembersOk(ms) && Stampable(ms.o) && k <= |ms.ho| && forall i :: 0 <= i < |ms.o| ==> !Torn(ms.o[i])
    ensures |WriteMembers(Members(UndatedAll(ms.ho)[..k], StripAll(ms.o)[..k]))|
         == |WriteMembers(Members(ms.ho[..k], ms.o[..k]))|
    decreases |ms.ho|
  {
    hide StripMember, HeaderOk, WriteHeader, Torn;
    MembersCount(ms);
    if k > 0 {
      var tail := Members(ms.ho[1..], ms.o[1..]);
      assert Stampable(tail.o);
      forall i | 0 <= i < |tail.o| ensures !Torn(tail.o[i]) { assert tail.o[i] == ms.o[i + 1]; }
      NothingMoves(tail, k - 1);
      HeaderSize(ms.ho[0]);
      UndatedOk(ms.ho[0]);
      HeaderSize(Undated(ms.ho[0]));
      StripLength(ms.o[0]);
      var hs, os := UndatedAll(ms.ho), StripAll(ms.o);
      assert hs[1..] == UndatedAll(tail.ho) && os[1..] == StripAll(tail.o);
      FirstOf(ms.ho, ms.o, k);
      FirstOf(hs, os, k);
    }
  }

  lemma FirstOf(ho: seq<Header>, o: seq<seq<byte>>, k: nat)
    requires 0 < k <= |ho| && |ho| == |o|
    ensures |WriteMembers(Members(ho[..k], o[..k]))|
         == |WriteHeader(ho[0])| + |o[0]| + |WriteMembers(Members(ho[1..][..k - 1], o[1..][..k - 1]))|
  {
    hide WriteHeader;
    assert ho[..k][1..] == ho[1..][..k - 1] && o[..k][1..] == o[1..][..k - 1];
  }
}
