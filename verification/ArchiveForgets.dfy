/** What a stripped archive no longer tells: the bytes that hold the dates, and that files which differ only in dates, time
    stamps and padding become the same file. */
module ArchiveForgets {
  import opened Base
  import opened Archive
  import opened ArchiveProofs
  import opened ArchiveStrip

  /* ---- dates ---- */

  /** Where a written header begins: behind the newline that may come before it. */
  function Start(h: Header): nat { if h.optnl then 1 else 0 }

  /** In a stripped header the twelve bytes of the date are "-1" and ten spaces, and all others are as before. */
  lemma DateBytes(h: Header)
    requires HeaderOk(h)
    ensures var was, now := WriteHeader(h), WriteHeader(Undated(h)); var o := Start(h);
            && |now| == |was| == o + 60
            && now[o + 16..o + 28] == [0x2D, 0x31, 0x20, 0x20, 0x20, 0x20, 0x20, 0x20, 0x20, 0x20, 0x20, 0x20]
            && forall i :: 0 <= i < |now| && !(o + 16 <= i < o + 28) ==> now[i] == was[i]
  {
    hide Pad, Digits, HeaderOk, WriteHeader;
    UndatedOk(h);
    HeaderBytes(h);
    HeaderBytes(Undated(h));
    NoDateBytes();
    var was, now, o := WriteHeader(h), WriteHeader(Undated(h)), Start(h);
    forall i | 0 <= i < |now| && !(o + 16 <= i < o + 28) ensures now[i] == was[i] {
      if i < o + 16 {
        assert now[..o + 16][i] == was[..o + 16][i];
      } else {
        assert now[o + 28..][i - o - 28] == was[o + 28..][i - o - 28];
      }
    }
  }

  /** A written header as the bytes before its date, the date, and the bytes behind it. */
  lemma HeaderBytes(h: Header)
    requires HeaderOk(h)
    ensures var s, o := WriteHeader(h), Start(h);
            && |s| == o + 60 && s[..o + 16] == (if h.optnl then [NEWLINE] else []) + Pad(h.name, 16)
            && s[o + 16..o + 28] == Pad(h.date, 12)
            && s[o + 28..] == Pad(h.uid, 6) + Pad(h.gid, 6) + Pad(h.mode, 8) + Pad(Digits(h.size), 10) + END_OF_HEADER
  {
    hide Pad, Digits;
    HeaderLengths(h);
  }

  lemma NoDateBytes()
    ensures Pad(NO_DATE, 12) == [0x2D, 0x31, 0x20, 0x20, 0x20, 0x20, 0x20, 0x20, 0x20, 0x20, 0x20, 0x20]
  {
    assert Spaces(12) == [0x20, 0x20, 0x20, 0x20, 0x20, 0x20, 0x20, 0x20, 0x20, 0x20, 0x20, 0x20];
  }

  /* ---- names and tables ---- */

  /** `x` and `y` differ at most behind a zero byte of `x`. */
  ghost predicate NamesAlike(x: seq<byte>, y: seq<byte>) {
    |x| == |y| && forall i :: 0 <= i < |x| && x[i] != y[i] ==> exists j :: 0 <= j < i && x[j] == 0
  }

  lemma {:induction false} AlikeUpToZero(x: seq<byte>, y: seq<byte>)
    requires NamesAlike(x, y)
    ensures UpToZero(x) == UpToZero(y) && (0 in x <==> 0 in y) && (0 !in x ==> x == y)
  {
    if x != [] {
      assert x[0] == y[0];
      if x[0] != 0 {
        forall i | 0 <= i < |x[1..]| && x[1..][i] != y[1..][i] ensures exists j :: 0 <= j < i && x[1..][j] == 0 {
          assert x[i + 1] != y[i + 1];
          var j :| 0 <= j < i + 1 && x[j] == 0;
          assert x[1..][j - 1] == 0;
        }
        AlikeUpToZero(x[1..], y[1..]);
      }
    }
  }

  /** Two names of the same length are fixed to the same name exactly when they differ at most in the padding. */
  lemma NamesForgotten(x: seq<byte>, y: seq<byte>)
    requires |x| == |y| <= NAME
    ensures FixName(x) == FixName(y) <==> NamesAlike(x, y)
  {
    if NamesAlike(x, y) {
      AlikeUpToZero(x, y);
    }
    if FixName(x) == FixName(y) {
      UpToZeroKept(x);
      UpToZeroKept(y);
      SameUpToZero(x, y);
    }
  }

  lemma UpToZeroKept(x: seq<byte>)
    requires |x| <= NAME
    ensures UpToZero(FixName(x)) == UpToZero(x) && (0 in FixName(x) <==> 0 in x)
  {
    if 0 in x {
      var u := UpToZero(x);
      assert FixName(x) == u + Zeros(NAME)[..NAME - |u|];
      assert FixName(x)[|u|] == 0;
      UpToZeroOf(u, Zeros(NAME)[..NAME - |u|]);
    }
  }

  lemma SameUpToZero(x: seq<byte>, y: seq<byte>)
    requires |x| == |y| && UpToZero(x) == UpToZero(y) && (0 !in x && 0 !in y ==> x == y)
    ensures NamesAlike(x, y)
  {
    var u := UpToZero(x);
    assert forall i :: 0 <= i < |u| ==> x[i] == u[i] && y[i] == u[i];
    forall i | 0 <= i < |x| && x[i] != y[i] ensures exists j :: 0 <= j < i && x[j] == 0 {
      assert |u| <= i && x[|u|] == 0 && y[|u|] == 0;
    }
  }

  lemma SectionsForgotten(s: seq<byte>, r: seq<byte>)
    requires |s| == |r| <= SECTION
    ensures FixSection(s) == FixSection(r) <==> NamesAlike(Take(s, NAME), Take(r, NAME)) && Drop(s, NAME) == Drop(r, NAME)
  {
    hide FixName, NamesAlike;
    NamesForgotten(Take(s, NAME), Take(r, NAME));
    var a, b := FixName(Take(s, NAME)), FixName(Take(r, NAME));
    var x, y := Drop(s, NAME), Drop(r, NAME);
    if a + x == b + y {
      assert |x| == |y| && |a| == |b|;
      assert (a + x)[..|a|] == a && (b + y)[..|b|] == b;
      assert (a + x)[|a|..] == x && (b + y)[|b|..] == y;
    }
  }

  /** `t` and `u` differ at most in the padding of section names. */
  ghost predicate TablesAlike(t: seq<byte>, u: seq<byte>, n: nat) {
    |t| == |u| && forall i :: 0 <= i < |t| && t[i] != u[i] ==> Padding(t, n, i)
  }

  lemma {:induction false} TablesForgotten(t: seq<byte>, u: seq<byte>, n: nat)
    requires |t| == |u|
    ensures FixTable(t, n) == FixTable(u, n) <==> TablesAlike(t, u, n)
    decreases n
  {
    hide FixSection, NamesAlike, TablesAlike, Padding;
    if n == 0 || t == [] {
      EndAlike(t, u, n);
    } else {
      var s, r := Take(t, SECTION), Drop(t, SECTION);
      var s2, r2 := Take(u, SECTION), Drop(u, SECTION);
      SectionsForgotten(s, s2);
      TablesForgotten(r, r2, n - 1);
      SplitAlike(t, u, n);
      SectionLength(s);
      SectionLength(s2);
      var a, b, x, y := FixSection(s), FixSection(s2), FixTable(r, n - 1), FixTable(r2, n - 1);
      if a + x == b + y && |t| >= SECTION {
        assert (a + x)[..SECTION] == a && (b + y)[..SECTION] == b;
        assert (a + x)[SECTION..] == x && (b + y)[SECTION..] == y;
      } else if |t| < SECTION {
        EmptyTable(n - 1);
        assert a + x == a && b + y == b;
      }
    }
  }

  lemma EndAlike(t: seq<byte>, u: seq<byte>, n: nat)
    requires |t| == |u| && (n == 0 || t == [])
    ensures TablesAlike(t, u, n) <==> t == u
  {
    if n == 0 {
      forall i | 0 <= i < |t| ensures !Padding(t, 0, i) { NoPadding(t, i); }
    }
  }

  /** Tables are alike when their first sections are and the rest is. */
  lemma SplitAlike(t: seq<byte>, u: seq<byte>, n: nat)
    requires |t| == |u| && n > 0
    ensures TablesAlike(t, u, n)
            <==> && NamesAlike(Take(Take(t, SECTION), NAME), Take(Take(u, SECTION), NAME))
                 && Drop(Take(t, SECTION), NAME) == Drop(Take(u, SECTION), NAME)
                 && TablesAlike(Drop(t, SECTION), Drop(u, SECTION), n - 1)
  {
    hide Padding;
    var s, r := Take(t, SECTION), Drop(t, SECTION);
    var s2, r2 := Take(u, SECTION), Drop(u, SECTION);
    forall i | 0 <= i < |t| && i < SECTION
      ensures Padding(t, n, i) <==> i < NAME && exists j :: 0 <= j < i && t[j] == 0
    {
      FirstPadding(t, n, i);
    }
    forall i | SECTION <= i < |t| ensures Padding(t, n, i) == Padding(r, n - 1, i - SECTION) {
      PaddingShift(t, r, n, i);
    }
    if TablesAlike(t, u, n) {
      forall i | 0 <= i < |r| && r[i] != r2[i] ensures Padding(r, n - 1, i) {
        assert t[i + SECTION] != u[i + SECTION];
      }
      HeadAlike(t, u, n);
    } else if TablesAlike(r, r2, n - 1) && NamesAlike(Take(s, NAME), Take(s2, NAME)) && Drop(s, NAME) == Drop(s2, NAME) {
      forall i | NAME <= i < |s| ensures t[i] == u[i] {
        assert Drop(s, NAME)[i - NAME] == t[i] && Drop(s2, NAME)[i - NAME] == u[i];
      }
      forall i | 0 <= i < |t| && t[i] != u[i] ensures Padding(t, n, i) {
        if i < NAME {
          assert Take(s, NAME)[i] != Take(s2, NAME)[i];
          var j :| 0 <= j < i && Take(s, NAME)[j] == 0;
          assert t[j] == 0;
        } else {
          assert r[i - SECTION] != r2[i - SECTION];
        }
      }
    }
  }

  lemma FirstPadding(t: seq<byte>, n: nat, i: nat)
    requires n > 0 && i < |t| && i < SECTION
    ensures Padding(t, n, i) <==> i < NAME && exists j :: 0 <= j < i && t[j] == 0
  {
    assert i / SECTION == 0 && i % SECTION == i;
  }

  lemma HeadAlike(t: seq<byte>, u: seq<byte>, n: nat)
    requires n > 0 && TablesAlike(t, u, n)
    ensures NamesAlike(Take(Take(t, SECTION), NAME), Take(Take(u, SECTION), NAME))
    ensures Drop(Take(t, SECTION), NAME) == Drop(Take(u, SECTION), NAME)
  {
    hide Padding;
    var x, y := Take(Take(t, SECTION), NAME), Take(Take(u, SECTION), NAME);
    forall i | 0 <= i < |x| && x[i] != y[i] ensures exists j :: 0 <= j < i && x[j] == 0 {
      assert t[i] != u[i];
      FirstPadding(t, n, i);
      var j :| 0 <= j < i && t[j] == 0;
      assert x[j] == 0;
    }
    var d, e := Drop(Take(t, SECTION), NAME), Drop(Take(u, SECTION), NAME);
    forall i | 0 <= i < |d| ensures d[i] == e[i] {
      FirstPadding(t, n, i + NAME);
      assert d[i] == t[i + NAME] && e[i] == u[i + NAME];
    }
  }

  /* ---- members ---- */

  /** The bytes of a member that stripping forgets: the time stamp, and the padding of section names. */
  ghost predicate Forgotten(c: seq<byte>, i: nat)
    requires |c| >= 8 && i < |c|
  {
    4 <= i < 8 || (i >= COFF_HEADER && Padding(Drop(c, COFF_HEADER), Sections(c), i - COFF_HEADER))
  }

  ghost predicate MembersAlike(c: seq<byte>, d: seq<byte>)
    requires |c| >= 8
  {
    |d| == |c| && forall i :: 0 <= i < |c| && c[i] != d[i] ==> Forgotten(c, i)
  }

  /** Two members of the same length are stripped to the same bytes exactly when they differ at most in what is forgotten. */
  lemma MembersForgotten(c: seq<byte>, d: seq<byte>)
    requires |c| == |d| >= 8
    ensures StripMember(c) == StripMember(d) <==> MembersAlike(c, d)
  {
    hide FixTable, FromLe2, Padding, TablesAlike, StripStamp;
    var head, head2 := Take(StripStamp(c), COFF_HEADER), Take(StripStamp(d), COFF_HEADER);
    var t, u := Drop(c, COFF_HEADER), Drop(d, COFF_HEADER);
    StampKeeps(c);
    StampKeeps(d);
    HeadsForgotten(c, d);
    if head == head2 {
      TablesForgotten(t, u, Sections(c));
      var x, y := FixTable(t, Sections(c)), FixTable(u, Sections(d));
      if head + x == head2 + y {
        assert (head + x)[|head|..] == x && (head2 + y)[|head|..] == y;
      }
    } else {
      var x, y := FixTable(t, Sections(c)), FixTable(u, Sections(d));
      assert (head + x)[..|head|] == head && (head2 + y)[..|head|] == head2;
    }
    AlikeParts(c, d);
  }

  /** The stripped heads are equal when nothing but the time stamp differs, and then as many sections are declared. */
  lemma HeadsForgotten(c: seq<byte>, d: seq<byte>)
    requires |c| == |d| >= 8
    ensures var head, head2 := Take(StripStamp(c), COFF_HEADER), Take(StripStamp(d), COFF_HEADER);
            && |head| == |head2|
            && (head == head2
                <==> forall i :: 0 <= i < |c| && i < COFF_HEADER && c[i] != d[i] ==> 4 <= i < 8)
            && (head == head2 ==> Sections(c) == Sections(d))
  {
    hide FromLe2;
    var head, head2 := Take(StripStamp(c), COFF_HEADER), Take(StripStamp(d), COFF_HEADER);
    assert forall i :: 0 <= i < |head| ==> head[i] == if 4 <= i < 8 then 0 else c[i];
    assert forall i :: 0 <= i < |head| ==> head2[i] == if 4 <= i < 8 then 0 else d[i];
    if head == head2 {
      assert c[2] == head[2] == d[2] && c[3] == head[3] == d[3];
      assert c[2..4] == d[2..4];
    }
  }

  lemma AlikeParts(c: seq<byte>, d: seq<byte>)
    requires |c| == |d| >= 8
    ensures MembersAlike(c, d)
            <==> && (forall i :: 0 <= i < |c| && i < COFF_HEADER && c[i] != d[i] ==> 4 <= i < 8)
                 && TablesAlike(Drop(c, COFF_HEADER), Drop(d, COFF_HEADER), Sections(c))
  {
    hide FromLe2, Padding, Sections;
    var t, u := Drop(c, COFF_HEADER), Drop(d, COFF_HEADER);
    assert forall i :: 0 <= i < |t| ==> t[i] == c[i + COFF_HEADER] && u[i] == d[i + COFF_HEADER];
    if MembersAlike(c, d) {
      forall i | 0 <= i < |t| && t[i] != u[i] ensures Padding(t, Sections(c), i) {
        assert Forgotten(c, i + COFF_HEADER);
      }
    } else if TablesAlike(t, u, Sections(c)) {
      assert forall i :: COFF_HEADER <= i < |c| ==> t[i - COFF_HEADER] == c[i] && u[i - COFF_HEADER] == d[i];
    }
  }

  /* ---- libraries and files ---- */

  /** Headers that differ at most in the date. */
  predicate HeadersAlike(h: Header, k: Header) { k == h.(date := k.date) }

  /** Libraries that differ at most in dates, time stamps and padding. */
  ghost predicate LibsAlike(l: Lib, k: Lib)
    requires Stampable(l.o)
  {
    && HeadersAlike(l.h1, k.h1) && l.m1 == k.m1 && HeadersAlike(l.h2, k.h2) && l.m2 == k.m2
    && (l.hl.Some? <==> k.hl.Some?) && (l.hl.Some? ==> HeadersAlike(l.hl.value, k.hl.value)) && l.longnames == k.longnames
    && |l.ho| == |k.ho| && (forall i :: 0 <= i < |l.ho| ==> HeadersAlike(l.ho[i], k.ho[i]))
    && |l.o| == |k.o| && (forall i :: 0 <= i < |l.o| ==> MembersAlike(l.o[i], k.o[i]))
  }

  /** No section table is cut short inside a name that holds a zero byte. */
  predicate Whole(l: Lib)
    requires Stampable(l.o)
  {
    forall i :: 0 <= i < |l.o| ==> !Torn(l.o[i])
  }

  lemma HeadersForgotten(h: Header, k: Header)
    ensures Undated(h) == Undated(k) <==> HeadersAlike(h, k)
  {
  }

  /** Libraries that differ at most in what is forgotten are stripped to the same library, and, without torn tables, only
      they are. */
  lemma LibsForgotten(l: Lib, k: Lib)
    requires Stampable(l.o) && Stampable(k.o)
    ensures LibsAlike(l, k) ==> StripLib(l) == StripLib(k)
    ensures Whole(l) && Whole(k) && StripLib(l) == StripLib(k) ==> LibsAlike(l, k)
  {
    hide Undated, HeadersAlike, MembersAlike, StripMember, Torn;
    HeadersForgotten(l.h1, k.h1);
    HeadersForgotten(l.h2, k.h2);
    if l.hl.Some? && k.hl.Some? { HeadersForgotten(l.hl.value, k.hl.value); }
    forall i | 0 <= i < |l.ho| && i < |k.ho|
      ensures UndatedAll(l.ho)[i] == UndatedAll(k.ho)[i] <==> HeadersAlike(l.ho[i], k.ho[i])
    {
      HeadersForgotten(l.ho[i], k.ho[i]);
    }
    forall i | 0 <= i < |l.o| && i < |k.o|
      ensures MembersAlike(l.o[i], k.o[i]) ==> StripAll(l.o)[i] == StripAll(k.o)[i]
      ensures StripAll(l.o)[i] == StripAll(k.o)[i] && Whole(l) && Whole(k) ==> MembersAlike(l.o[i], k.o[i])
    {
      MemberForgotten(l.o[i], k.o[i]);
    }
    AllAlike(l, k);
  }

  /** The same for one member of either length. */
  lemma MemberForgotten(c: seq<byte>, d: seq<byte>)
    requires |c| >= 8 && |d| >= 8
    ensures MembersAlike(c, d) ==> StripMember(c) == StripMember(d)
    ensures StripMember(c) == StripMember(d) && !Torn(c) && !Torn(d) ==> MembersAlike(c, d)
  {
    hide StripMember, Torn, Forgotten;
    StripLength(c);
    StripLength(d);
    if |c| == |d| { MembersForgotten(c, d); }
  }

  lemma AllAlike(l: Lib, k: Lib)
    requires Stampable(l.o) && Stampable(k.o)
    ensures UndatedAll(l.ho) == UndatedAll(k.ho)
            <==> |l.ho| == |k.ho| && forall i :: 0 <= i < |l.ho| ==> UndatedAll(l.ho)[i] == UndatedAll(k.ho)[i]
    ensures StripAll(l.o) == StripAll(k.o)
            <==> |l.o| == |k.o| && forall i :: 0 <= i < |l.o| ==> StripAll(l.o)[i] == StripAll(k.o)[i]
  {
    hide Undated, StripMember;
  }

  /** The whole tool: two accepted files become the same file when their libraries differ at most in dates, time stamps and
      padding, and, without torn tables, only then. */
  lemma ToolForgets(s: seq<byte>, s2: seq<byte>)
    requires ReadLib(s).Got? && Stampable(ReadLib(s).value.o) && ReadLib(s2).Got? && Stampable(ReadLib(s2).value.o)
    ensures var l, k := ReadLib(s).value, ReadLib(s2).value;
            && (LibsAlike(l, k) ==> WriteLib(StripLib(l)) == WriteLib(StripLib(k)))
            && (Whole(l) && Whole(k) && WriteLib(StripLib(l)) == WriteLib(StripLib(k)) ==> LibsAlike(l, k))
  {
    hide ReadLib, WriteLib, StripLib, LibsAlike, Stampable, LibOk, Torn, Fits;
    var l, k := ReadLib(s).value, ReadLib(s2).value;
    LibsForgotten(l, k);
    if Whole(l) && Whole(k) {
      LibImage(s);
      LibImage(s2);
      WholeTablesFit(l);
      WholeTablesFit(k);
      StripKeepsFormat(l);
      StripKeepsFormat(k);
    }
  }
}
