/** Reading an archive undoes writing it, exactly for the libraries that the format can represent. */
module ArchiveProofs {
  import opened Base
  import opened Archive

  /* ---- text ---- */

  lemma {:induction false} StripRightSpaces(s: seq<byte>, n: nat)
    requires Stripped(s)
    ensures StripRight(s + Spaces(n)) == s
    decreases n
  {
    if n == 0 {
      assert s + Spaces(0) == s;
    } else {
      var t := s + Spaces(n);
      assert t[..|t| - 1] == s + Spaces(n - 1);
      StripRightSpaces(s, n - 1);
    }
  }

  lemma {:induction false} StripSpaces(n: nat)
    ensures Strip(Spaces(n)) == []
    decreases n
  {
    if n > 0 {
      assert Spaces(n)[1..] == Spaces(n - 1) by { SpacesTail(n); }
      StripSpaces(n - 1);
    }
  }

  lemma SpacesTail(n: nat)
    requires n > 0
    ensures Spaces(n)[1..] == Spaces(n - 1)
  {
    assert |Spaces(n)[1..]| == |Spaces(n - 1)|;
    assert forall i :: 0 <= i < n - 1 ==> Spaces(n)[1..][i] == Spaces(n - 1)[i];
  }

  /** Padding is undone by stripping. */
  lemma StripPad(s: seq<byte>, n: nat)
    requires Stripped(s) && |s| <= n
    ensures |Pad(s, n)| == n && Strip(Pad(s, n)) == s
    ensures n > 0 ==> Pad(s, n)[0] == if s == [] then SPACE else s[0]
  {
    assert Take(s + Spaces(n), n) == s + Spaces(n)[..n - |s|];
    SpacesTake(n, n - |s|);
    if s == [] {
      assert Pad(s, n) == Spaces(n);
      StripSpaces(n);
    } else {
      StripRightSpaces(s, n - |s|);
      assert StripLeft(Pad(s, n)) == Pad(s, n);
    }
  }

  lemma SpacesTake(n: nat, k: nat)
    requires k <= n
    ensures Spaces(n)[..k] == Spaces(k)
  {
    assert |Spaces(n)[..k]| == k;
    assert forall i :: 0 <= i < k ==> Spaces(n)[..k][i] == Spaces(k)[i];
  }

  lemma AsciiPad(s: seq<byte>, n: nat)
    requires Ascii(s) && |s| <= n
    ensures Ascii(Pad(s, n))
  {
  }

  /* ---- decimal numbers ---- */

  lemma {:induction false} NumberOfDigits(n: nat)
    ensures Number(Digits(n)) == n && IsLiteral(Digits(n)) && Ascii(Digits(n)) && Stripped(Digits(n))
  {
    var s := Digits(n);
    if n < 10 {
      assert s[..0] == [];
    } else {
      NumberOfDigits(n / 10);
      assert s[..|s| - 1] == Digits(n / 10);
    }
  }

  function Pow10(k: nat): (p: nat)
    ensures p > 0
  {
    if k == 0 then 1 else 10 * Pow10(k - 1)
  }

  lemma {:induction false} NumberBound(s: seq<byte>)
    ensures Number(s) < Pow10(|s|)
  {
    if s != [] {
      NumberBound(s[..|s| - 1]);
    }
  }

  lemma {:induction false} DigitsBound(n: nat, k: nat)
    requires k > 0 && n < Pow10(k)
    ensures |Digits(n)| <= k
  {
    if n >= 10 {
      assert Pow10(1) == 10 * Pow10(0);
      assert n / 10 < Pow10(k - 1);
      DigitsBound(n / 10, k - 1);
    }
  }

  /** The decimal literals are the usual ones, and the rows of zeros. */
  lemma LiteralIs(s: seq<byte>)
    ensures IsLiteral(s) <==> s == Digits(Number(s)) || (s != [] && forall i :: 0 <= i < |s| ==> s[i] == 0x30)
  {
    hide Digits, Number;
    if IsLiteral(s) && s[0] != 0x30 {
      DigitsOfNumber(s);
    }
    NumberOfDigits(Number(s));
    ZeroDigits(Number(s));
  }

  lemma ZeroDigits(n: nat)
    ensures n == 0 ==> Digits(n) == [0x30]
  {
  }

  lemma {:induction false} DigitsOfNumber(s: seq<byte>)
    requires s != [] && s[0] != 0x30 && forall i :: 0 <= i < |s| ==> IsDigit(s[i])
    ensures Number(s) > 0 && Digits(Number(s)) == s
  {
    var n, d := |s| - 1, Digit(s[|s| - 1]);
    if n > 0 {
      DigitsOfNumber(s[..n]);
      assert Number(s) / 10 == Number(s[..n]) && Number(s) % 10 == d;
      assert s == s[..n] + [s[n]];
    } else {
      assert Number(s[..0]) == 0;
    }
  }

  /* ---- headers ---- */

  /** The 60 bytes of a header are its fields side by side. */
  lemma HeaderParts(h: Header, rest: seq<byte>)
    requires HeaderOk(h)
    ensures var t := WriteHeader(h.(optnl := false)) + rest;
            && |t| == 60 + |rest| && t[60..] == rest
            && t[..16] == Pad(h.name, 16) && t[16..28] == Pad(h.date, 12) && t[28..34] == Pad(h.uid, 6)
            && t[34..40] == Pad(h.gid, 6) && t[40..48] == Pad(h.mode, 8) && t[48..58] == Pad(Digits(h.size), 10)
            && t[58..60] == END_OF_HEADER
  {
    hide Pad, Digits;
    HeaderLengths(h);
  }

  lemma HeaderLengths(h: Header)
    requires HeaderOk(h)
    ensures |Pad(h.name, 16)| == 16 && |Pad(h.date, 12)| == 12 && |Pad(h.uid, 6)| == 6 && |Pad(h.gid, 6)| == 6
    ensures |Pad(h.mode, 8)| == 8 && |Pad(Digits(h.size), 10)| == 10
  {
    hide Digits;
    NumberOfDigits(h.size);
    StripPad(h.name, 16);
    StripPad(h.date, 12);
    StripPad(h.uid, 6);
    StripPad(h.gid, 6);
    StripPad(h.mode, 8);
    StripPad(Digits(h.size), 10);
  }

  lemma HeaderAscii(h: Header, t: seq<byte>)
    requires HeaderOk(h) && |t| >= 60
    requires t[..16] == Pad(h.name, 16) && t[16..28] == Pad(h.date, 12) && t[28..34] == Pad(h.uid, 6)
    requires t[34..40] == Pad(h.gid, 6) && t[40..48] == Pad(h.mode, 8) && t[48..58] == Pad(Digits(h.size), 10)
    ensures Ascii(t[..58])
  {
    hide Pad, Digits;
    NumberOfDigits(h.size);
    AsciiPad(h.name, 16);
    AsciiPad(h.date, 12);
    AsciiPad(h.uid, 6);
    AsciiPad(h.gid, 6);
    AsciiPad(h.mode, 8);
    AsciiPad(Digits(h.size), 10);
    assert t[..28] == t[..16] + t[16..28];
    assert t[..34] == t[..28] + t[28..34];
    assert t[..40] == t[..34] + t[34..40];
    assert t[..48] == t[..40] + t[40..48];
    assert t[..58] == t[..48] + t[48..58];
  }

  /** A header that is written is read back, whatever follows. */
  lemma HeaderBack(h: Header, rest: seq<byte>)
    requires HeaderOk(h)
    ensures ReadHeader(WriteHeader(h) + rest) == Got(Some(h), rest)
  {
    hide Pad, Digits, Ascii, IsLiteral, Strip, Number, WriteHeader;
    var t := WriteHeader(h.(optnl := false)) + rest;
    HeaderParts(h, rest);
    HeaderAscii(h, t);
    NumberOfDigits(h.size);
    StripPad(h.name, 16);
    StripPad(h.date, 12);
    StripPad(h.uid, 6);
    StripPad(h.gid, 6);
    StripPad(h.mode, 8);
    StripPad(Digits(h.size), 10);
    assert t[0] == t[..16][0];
    HeaderNewline(h, rest);
  }

  lemma HeaderNewline(h: Header, rest: seq<byte>)
    ensures var t := WriteHeader(h.(optnl := false)) + rest;
            WriteHeader(h) + rest == if h.optnl then [NEWLINE] + t else t
  {
    hide Pad, Digits;
    assert [NEWLINE] + (WriteHeader(h.(optnl := false)) + rest) == ([NEWLINE] + WriteHeader(h.(optnl := false))) + rest;
    assert h.optnl ==> WriteHeader(h) == [NEWLINE] + WriteHeader(h.(optnl := false));
    assert !h.optnl ==> h == h.(optnl := false);
  }

  /** Whatever is read as a header could have been written. */
  lemma HeaderImage(s: seq<byte>)
    ensures var p := ReadHeader(s);
            p.Got? ==> && |p.rest| <= |s| && (p.value.Some? ==> HeaderOk(p.value.value) && |p.rest| < |s|)
                       && (p.value.None? ==> p.rest == [])
  {
    hide Digits, Number, IsLiteral, Ascii, Strip, Field;
    var t := if s != [] && s[0] == NEWLINE then s[1..] else s;
    if |t| >= 60 && Ascii(t[..58]) {
      FieldImage(t, 0, 16);
      FieldImage(t, 16, 28);
      FieldImage(t, 28, 34);
      FieldImage(t, 34, 40);
      FieldImage(t, 40, 48);
      FieldImage(t, 48, 58);
      assert t[0..16] == t[..16];
      SizeImage(Strip(t[48..58]));
    }
  }

  lemma SizeImage(s: seq<byte>)
    requires |s| <= 10
    ensures |Digits(Number(s))| <= 10
  {
    NumberBound(s);
    PowMono(|s|, 10);
    DigitsBound(Number(s), 10);
  }

  lemma {:induction false} PowMono(i: nat, k: nat)
    requires i <= k
    ensures Pow10(i) <= Pow10(k)
    decreases k
  {
    if i < k {
      PowMono(i, k - 1);
    }
  }

  lemma FieldImage(t: seq<byte>, lo: nat, hi: nat)
    requires |t| >= 58 && Ascii(t[..58]) && lo <= hi <= 58
    ensures Field(Strip(t[lo..hi]), hi - lo) && |Strip(t[lo..hi])| <= hi - lo
  {
    var x := t[lo..hi];
    assert Ascii(x) by {
      forall i | 0 <= i < |x| ensures x[i] < 128 {
        assert x[i] == t[..58][lo + i];
      }
    }
    var l := StripLeft(x);
    var r := StripRight(l);
    assert Ascii(r);
    assert r != [] ==> r[0] == l[0];
  }

  /* ---- integers ---- */

  lemma BigBack(n: nat)
    requires n < 0x1_0000_0000
    ensures FromBe4(Be4(n)) == n
  {
    var a, b, c := n / 0x100_0000, n / 0x1_0000, n / 0x100;
    assert b == a * 256 + b % 256 && c == b * 256 + c % 256 && n == c * 256 + n % 256;
    assert a % 256 == a;
  }

  lemma UnpackPack(w: Width, n: nat)
    requires n < w.Limit()
    ensures w.Unpack(w.Pack(n)) == n
  {
    match w
    case Big4 => BigBack(n);
    case Little4 =>
      BigBack(n);
      assert Reverse4(Reverse4(Be4(n))) == Be4(n);
    case Little2 => assert n == n / 0x100 * 0x100 + n % 256 && n / 0x100 < 256;
  }

  lemma IntBack(w: Width, n: nat, rest: seq<byte>)
    requires n < w.Limit()
    ensures ReadInt(w, w.Pack(n) + rest) == Got(n, rest)
  {
    hide Width.Pack, Width.Unpack;
    UnpackPack(w, n);
    assert (w.Pack(n) + rest)[..w.Bytes()] == w.Pack(n);
  }

  lemma {:induction false} IntsBack(w: Width, xs: seq<nat>, rest: seq<byte>)
    requires IntsOk(w, xs)
    ensures ReadInts(w, WriteInts(w, xs) + rest, |xs|) == Got(xs, rest)
  {
    hide Width.Pack, Width.Unpack, ReadInt;
    if xs == [] {
      assert [] + rest == rest;
    } else {
      var r := WriteInts(w, xs[1..]) + rest;
      assert WriteInts(w, xs) + rest == w.Pack(xs[0]) + r;
      IntBack(w, xs[0], r);
      IntsBack(w, xs[1..], rest);
      assert [xs[0]] + xs[1..] == xs;
    }
  }

  lemma {:induction false} IntsImage(w: Width, s: seq<byte>, n: nat)
    ensures var p := ReadInts(w, s, n);
            p.Got? ==> && |p.value| == n && IntsOk(w, p.value)
                       && |s| - |p.rest| == |WriteInts(w, p.value)| == n * w.Bytes()
  {
    hide Width.Pack, Width.Unpack;
    if n > 0 && ReadInt(w, s).Got? {
      IntsImage(w, ReadInt(w, s).rest, n - 1);
      var p := ReadInts(w, s, n);
      if p.Got? {
        assert p.value[1..] == ReadInts(w, ReadInt(w, s).rest, n - 1).value;
        assert n * w.Bytes() == (n - 1) * w.Bytes() + w.Bytes();
      }
    }
  }

  /* ---- strings ---- */

  lemma {:induction false} StringBack(x: seq<byte>, rest: seq<byte>)
    requires StringOk(x)
    ensures ReadString(x + [0] + rest) == Got(x, rest)
  {
    var s := x + [0] + rest;
    if x == [] {
      assert s[1..] == rest;
    } else {
      assert s[1..] == x[1..] + [0] + rest;
      StringBack(x[1..], rest);
      assert [x[0]] + x[1..] == x;
    }
  }

  /** A string is read exactly when a zero byte ends it: without one the original reads on at the end of the file for
      ever. */
  lemma {:induction false} StringEnds(s: seq<byte>)
    ensures ReadString(s).Got? <==> 0 in s
  {
    if s != [] {
      StringEnds(s[1..]);
      assert s == [s[0]] + s[1..];
    }
  }

  lemma {:induction false} StringImage(s: seq<byte>)
    ensures var p := ReadString(s); p.Got? ==> StringOk(p.value) && |s| - |p.rest| == |p.value| + 1
  {
    if s != [] && s[0] != 0 {
      StringImage(s[1..]);
    }
  }

  lemma {:induction false} StringsBack(xs: seq<seq<byte>>, rest: seq<byte>)
    requires StringsOk(xs)
    ensures ReadStrings(WriteStrings(xs) + rest, |xs|) == Got(xs, rest)
  {
    if xs == [] {
      assert [] + rest == rest;
    } else {
      var r := WriteStrings(xs[1..]) + rest;
      assert WriteStrings(xs) + rest == xs[0] + [0] + r;
      StringBack(xs[0], r);
      StringsBack(xs[1..], rest);
      assert [xs[0]] + xs[1..] == xs;
    }
  }

  lemma {:induction false} StringsImage(s: seq<byte>, n: nat)
    ensures var p := ReadStrings(s, n);
            p.Got? ==> |p.value| == n && StringsOk(p.value) && |s| - |p.rest| == |WriteStrings(p.value)|
    decreases n
  {
    hide StringOk, ReadString;
    StringImage(s);
    if n > 0 && ReadString(s).Got? {
      StringsImage(ReadString(s).rest, n - 1);
      var p := ReadStrings(s, n);
      if p.Got? {
        assert p.value[1..] == ReadStrings(ReadString(s).rest, n - 1).value;
      }
    }
  }

  /* ---- linker members ---- */

  lemma FirstBack(m: First, rest: seq<byte>)
    requires FirstOk(m)
    ensures ReadFirst(WriteFirst(m) + rest) == Got(m, rest)
  {
    hide Width.Pack, ReadInt, ReadInts, ReadStrings, WriteInts, WriteStrings, IntsOk, StringsOk;
    var r2 := WriteStrings(m.strings) + rest;
    var r := WriteInts(Big4, m.offsets) + r2;
    assert WriteFirst(m) + rest == Big4.Pack(|m.offsets|) + r;
    IntBack(Big4, |m.offsets|, r);
    IntsBack(Big4, m.offsets, r2);
    StringsBack(m.strings, rest);
  }

  lemma FirstImage(s: seq<byte>)
    ensures var p := ReadFirst(s);
            p.Got? ==> FirstOk(p.value) && |s| - |p.rest| == |WriteFirst(p.value)|
  {
    hide Width.Pack, Width.Unpack, ReadInts, ReadStrings, WriteInts, WriteStrings, IntsOk, StringsOk;
    var a := ReadInt(Big4, s);
    if a.Got? {
      IntsImage(Big4, a.rest, a.value);
      var b := ReadInts(Big4, a.rest, a.value);
      if b.Got? {
        StringsImage(b.rest, a.value);
      }
    }
  }

  lemma SecondBack(m: Second, rest: seq<byte>)
    requires SecondOk(m)
    ensures ReadSecond(WriteSecond(m) + rest) == Got(m, rest)
  {
    hide Width.Pack, ReadInt, ReadInts, ReadStrings, WriteInts, WriteStrings, IntsOk, StringsOk;
    var r4 := WriteStrings(m.strings) + rest;
    var r3 := WriteInts(Little2, m.indices) + r4;
    var r2 := Little4.Pack(|m.indices|) + r3;
    var r := WriteInts(Little4, m.offsets) + r2;
    assert WriteSecond(m) + rest == Little4.Pack(|m.offsets|) + r;
    IntBack(Little4, |m.offsets|, r);
    IntsBack(Little4, m.offsets, r2);
    IntBack(Little4, |m.indices|, r3);
    IntsBack(Little2, m.indices, r4);
    StringsBack(m.strings, rest);
  }

  lemma SecondImage(s: seq<byte>)
    ensures var p := ReadSecond(s);
            p.Got? ==> SecondOk(p.value) && |s| - |p.rest| == |WriteSecond(p.value)|
  {
    hide Width.Pack, Width.Unpack, ReadInts, ReadStrings, WriteInts, WriteStrings, IntsOk, StringsOk;
    var a := ReadInt(Little4, s);
    if a.Got? {
      IntsImage(Little4, a.rest, a.value);
      var b := ReadInts(Little4, a.rest, a.value);
      if b.Got? {
        var c := ReadInt(Little4, b.rest);
        if c.Got? {
          IntsImage(Little2, c.rest, c.value);
          var d := ReadInts(Little2, c.rest, c.value);
          if d.Got? {
            StringsImage(d.rest, c.value);
          }
        }
      }
    }
  }

  /* ---- long names, members, libraries ---- */

  lemma {:induction false} LongnamesBack(xs: seq<seq<byte>>, left: int, rest: seq<byte>)
    requires LongnamesOk(xs, left)
    ensures ReadLongnames(WriteStrings(xs) + rest, left) == Got(xs, rest)
    decreases |xs|
  {
    hide StringOk;
    if xs == [] {
      assert [] + rest == rest;
    } else {
      var s := WriteStrings(xs) + rest;
      var r := WriteStrings(xs[1..]) + rest;
      assert s == xs[0] + [0] + r;
      StringBack(xs[0], r);
      LongnamesBack(xs[1..], left - |xs[0]| - 1, rest);
      assert |s| - |r| == |xs[0]| + 1;
      assert [xs[0]] + xs[1..] == xs;
    }
  }

  lemma {:induction false} LongnamesImage(s: seq<byte>, left: int)
    ensures var p := ReadLongnames(s, left); p.Got? ==> LongnamesOk(p.value, left) && |p.rest| <= |s|
    decreases |s|
  {
    hide StringOk;
    if left > 0 {
      StringImage(s);
      var a := ReadString(s);
      if a.Got? {
        LongnamesImage(a.rest, left - (|s| - |a.rest|));
        var p := ReadLongnames(s, left);
        if p.Got? {
          assert p.value[1..] == ReadLongnames(a.rest, left - (|s| - |a.rest|)).value;
        }
      }
    }
  }

  lemma {:induction false} MembersBack(ms: Members)
    requires MembersOk(ms)
    ensures ReadMembers(WriteMembers(ms)) == Got(ms, [])
    decreases |ms.ho|, 2
  {
    hide WriteHeader, HeaderOk, ReadHeader;
    if ms.ho == [] {
      assert ms == Members([], []);
      EndOfFile();
    } else {
      var h, tail := ms.ho[0], Members(ms.ho[1..], ms.o[1..]);
      var r := ms.o[0] + WriteMembers(tail);
      HeaderBack(h, r);
      assert WriteMembers(ms) == WriteHeader(h) + r;
      HeaderImage(WriteMembers(ms));
      MemberBack(h, ms.o[0], tail);
      assert Members([h] + tail.ho, [ms.o[0]] + tail.o) == ms;
    }
  }

  lemma EndOfFile()
    ensures ReadHeader([]) == Got(None, [])
  {
  }

  lemma {:induction false} MemberBack(h: Header, x: seq<byte>, tail: Members)
    requires MembersOk(tail) && (if tail.ho == [] then |x| <= h.size else |x| == h.size)
    ensures ReadMember(h, x + WriteMembers(tail)) == Got(Members([h] + tail.ho, [x] + tail.o), [])
    decreases |tail.ho|, 3
  {
    hide WriteHeader, HeaderOk, ReadHeader;
    var s := x + WriteMembers(tail);
    if tail.ho == [] {
      assert s == x && Drop(s, h.size) == [];
    } else {
      assert Take(s, h.size) == x && Drop(s, h.size) == WriteMembers(tail);
    }
    assert Take(s, h.size) == x && Drop(s, h.size) == WriteMembers(tail);
    MembersBack(tail);
  }

  lemma {:induction false} MemberImage(h: Header, s: seq<byte>)
    requires HeaderOk(h)
    ensures var p := ReadMember(h, s); p.Got? ==> MembersOk(p.value) && p.value.ho != [] && p.value.ho[0] == h && p.rest == []
    decreases |s|, 3
  {
    hide HeaderOk, ReadHeader;
    MembersImage(Drop(s, h.size));
    var a, p := ReadMembers(Drop(s, h.size)), ReadMember(h, s);
    if p.Got? {
      assert Members(p.value.ho[1..], p.value.o[1..]) == a.value;
      if |s| < h.size {
        EndOfFile();
      }
    }
  }

  lemma {:induction false} MembersImage(s: seq<byte>)
    ensures var p := ReadMembers(s); p.Got? ==> MembersOk(p.value) && p.rest == []
    decreases |s|, 2
  {
    hide HeaderOk, ReadHeader;
    HeaderImage(s);
    var a := ReadHeader(s);
    if a.Got? && a.value.Some? {
      MemberImage(a.value.value, a.rest);
    }
  }

  lemma TailBack(t: Tail)
    requires TailOk(t)
    ensures ReadTail(WriteTail(t)) == Got(t, [])
  {
    hide WriteHeader, HeaderOk, ReadHeader, MembersOk, LongnamesOk, WriteMembers;
    match t.hl
    case Some(h) =>
      var r2 := WriteMembers(t.ms);
      var r := WriteStrings(t.longnames) + r2;
      assert WriteTail(t) == WriteHeader(h) + r;
      HeaderBack(h, r);
      LongnamesBack(t.longnames, h.size, r2);
      MembersBack(t.ms);
    case None =>
      assert WriteTail(t) == WriteMembers(t.ms);
      MembersBack(t.ms);
      TailMembers(t.ms);
  }

  /** Without long names the tail is read as members. */
  lemma TailMembers(ms: Members)
    requires MembersOk(ms) && (ms.ho != [] ==> ms.ho[0].name != LONGNAMES)
    ensures ReadTail(WriteMembers(ms)) == Got(Tail(None, [], ms), [])
  {
    hide WriteHeader, HeaderOk, ReadHeader;
    MembersBack(ms);
    if ms.ho == [] {
      EndOfFile();
    } else {
      var h, tail := ms.ho[0], Members(ms.ho[1..], ms.o[1..]);
      HeaderBack(h, ms.o[0] + WriteMembers(tail));
      assert WriteMembers(ms) == WriteHeader(h) + (ms.o[0] + WriteMembers(tail));
      HeaderImage(WriteMembers(ms));
    }
  }

  lemma TailImage(s: seq<byte>)
    ensures var p := ReadTail(s); p.Got? ==> TailOk(p.value) && p.rest == []
  {
    hide HeaderOk, ReadHeader, MembersOk, LongnamesOk;
    HeaderImage(s);
    var a := ReadHeader(s);
    if a.Got? && a.value.Some? {
      var h := a.value.value;
      if h.name == LONGNAMES {
        LongnamesImage(a.rest, h.size);
        var b := ReadLongnames(a.rest, h.size);
        if b.Got? {
          MembersImage(b.rest);
        }
      } else {
        MemberImage(h, a.rest);
      }
    } else {
      NoMembersOk();
    }
  }

  lemma NoMembersOk()
    ensures MembersOk(Members([], []))
  {
  }

  lemma SizedFirstBack(h: Header, m: First, rest: seq<byte>)
    requires HeaderOk(h) && FirstOk(m) && h.size == |WriteFirst(m)|
    ensures ReadSized(WriteHeader(h) + (WriteFirst(m) + rest), ReadFirst) == Got((h, m), rest)
  {
    hide WriteHeader, HeaderOk, ReadHeader, ReadFirst, WriteFirst, FirstOk;
    HeaderBack(h, WriteFirst(m) + rest);
    FirstBack(m, rest);
  }

  lemma SizedSecondBack(h: Header, m: Second, rest: seq<byte>)
    requires HeaderOk(h) && SecondOk(m) && h.size == |WriteSecond(m)|
    ensures ReadSized(WriteHeader(h) + (WriteSecond(m) + rest), ReadSecond) == Got((h, m), rest)
  {
    hide WriteHeader, HeaderOk, ReadHeader, ReadSecond, WriteSecond, SecondOk;
    HeaderBack(h, WriteSecond(m) + rest);
    SecondBack(m, rest);
  }

  /** Every library that the format can represent is read back from what was written. */
  lemma LibBack(l: Lib)
    requires LibOk(l)
    ensures ReadLib(WriteLib(l)) == Got(l, [])
  {
    hide WriteHeader, HeaderOk, ReadSized, WriteFirst, FirstOk, WriteSecond, SecondOk, TailOk, ReadTail, WriteTail;
    var r2 := WriteTail(TailOf(l));
    var r := WriteHeader(l.h2) + (WriteSecond(l.m2) + r2);
    var s := WriteHeader(l.h1) + (WriteFirst(l.m1) + r);
    assert WriteLib(l) == MAGIC + s;
    assert Take(MAGIC + s, |MAGIC|) == MAGIC && Drop(MAGIC + s, |MAGIC|) == s;
    SizedFirstBack(l.h1, l.m1, r);
    SizedSecondBack(l.h2, l.m2, r2);
    TailBack(TailOf(l));
  }

  /** Whatever is read can be represented. */
  lemma LibImage(s: seq<byte>)
    ensures var p := ReadLib(s); p.Got? ==> LibOk(p.value) && p.rest == []
  {
    hide HeaderOk, ReadHeader, ReadFirst, WriteFirst, FirstOk, ReadSecond, WriteSecond, SecondOk, TailOk, ReadTail;
    var a0 := Drop(s, |MAGIC|);
    HeaderImage(a0);
    var a := ReadSized(a0, ReadFirst);
    if a.Got? {
      FirstImage(ReadHeader(a0).rest);
      HeaderImage(a.rest);
      var b := ReadSized(a.rest, ReadSecond);
      if b.Got? {
        SecondImage(ReadHeader(a.rest).rest);
        TailImage(b.rest);
      }
    }
  }

  /** Reading what was written gives the same library exactly when the format can represent it. */
  lemma RoundTrip(l: Lib)
    ensures ReadLib(WriteLib(l)) == Got(l, []) <==> LibOk(l)
  {
    hide ReadLib, WriteLib, LibOk;
    LibImage(WriteLib(l));
    if LibOk(l) {
      LibBack(l);
    }
  }

  /** A library that has been read is read again from its written form. */
  lemma ReadAgain(s: seq<byte>)
    requires ReadLib(s).Got?
    ensures ReadLib(WriteLib(ReadLib(s).value)) == Got(ReadLib(s).value, [])
  {
    hide ReadLib, WriteLib, LibOk;
    LibImage(s);
    LibBack(ReadLib(s).value);
  }
}
