/** Windows .lib archives as `stackman/tools/strip-lib.py` reads, edits and writes them: the format on values ("Archive
    (Library) File Format" of the Microsoft PE Format specification), and what reading undoes of writing.

    A parser takes what is left of the input and gives a value and what is left after it. */
module Archive {
  import opened Base

  datatype Error = BadMagic | BadHeader | BadText | BadNumber | BadSize | Truncated | Unterminated

  datatype Parsed<+T> = Got(value: T, rest: seq<byte>) | Err(error: Error)

  /** One archive member header; `optnl` says that a newline came before it. */
  datatype Header = Header(optnl: bool, name: seq<byte>, date: seq<byte>, uid: seq<byte>, gid: seq<byte>,
                           mode: seq<byte>, size: nat)

  datatype First = First(offsets: seq<nat>, strings: seq<seq<byte>>)

  datatype Second = Second(offsets: seq<nat>, indices: seq<nat>, strings: seq<seq<byte>>)

  datatype Lib = Lib(h1: Header, m1: First, h2: Header, m2: Second, hl: Option<Header>, longnames: seq<seq<byte>>,
                     ho: seq<Header>, o: seq<seq<byte>>)

  const MAGIC: seq<byte> := [0x21, 0x3C, 0x61, 0x72, 0x63, 0x68, 0x3E, 0x0A]
  const END_OF_HEADER: seq<byte> := [0x60, 0x0A]
  const LONGNAMES: seq<byte> := [0x2F, 0x2F]
  const NEWLINE: byte := 0x0A
  const SPACE: byte := 0x20

  /* ---- pieces of text ---- */

  /** At most `n` bytes, as a file gives them. */
  function Take<A>(s: seq<A>, n: nat): seq<A> { if n <= |s| then s[..n] else s }

  function Drop<A>(s: seq<A>, n: nat): seq<A> { if n <= |s| then s[n..] else [] }

  predicate IsSpace(b: byte) { 9 <= b <= 13 || 28 <= b <= 32 }

  predicate Ascii(s: seq<byte>) { forall i :: 0 <= i < |s| ==> s[i] < 128 }

  function StripLeft(s: seq<byte>): (r: seq<byte>)
    ensures |r| <= |s| && (r != [] ==> !IsSpace(r[0])) && (Ascii(s) ==> Ascii(r))
  {
    if s != [] && IsSpace(s[0]) then StripLeft(s[1..]) else s
  }

  function StripRight(s: seq<byte>): (r: seq<byte>)
    ensures r <= s && (r != [] ==> !IsSpace(r[|r| - 1]))
  {
    if s != [] && IsSpace(s[|s| - 1]) then StripRight(s[..|s| - 1]) else s
  }

  function Strip(s: seq<byte>): seq<byte> { StripRight(StripLeft(s)) }

  predicate Stripped(s: seq<byte>) { s == [] || (!IsSpace(s[0]) && !IsSpace(s[|s| - 1])) }

  function Spaces(n: nat): (s: seq<byte>)
    ensures |s| == n && forall i :: 0 <= i < n ==> s[i] == SPACE
  {
    if n == 0 then [] else Spaces(n - 1) + [SPACE]
  }

  /** Space padded text of fixed length. */
  function Pad(s: seq<byte>, n: nat): seq<byte> { Take(s + Spaces(n), n) }

  /* ---- decimal numbers ---- */

  predicate IsDigit(b: byte) { 0x30 <= b <= 0x39 }

  function Digits(n: nat): (s: seq<byte>)
    ensures |s| > 0 && forall i :: 0 <= i < |s| ==> IsDigit(s[i])
    ensures n > 0 ==> s[0] != 0x30
  {
    if n < 10 then [0x30 + n] else Digits(n / 10) + [0x30 + n % 10]
  }

  function Number(s: seq<byte>): nat {
    if s == [] then 0 else Number(s[..|s| - 1]) * 10 + Digit(s[|s| - 1])
  }

  function Digit(b: byte): nat { if IsDigit(b) then b - 0x30 else 0 }

  /** A decimal literal: digits without a leading zero, or nothing but zeros. */
  predicate IsLiteral(s: seq<byte>) {
    && s != [] && (forall i :: 0 <= i < |s| ==> IsDigit(s[i]))
    && (s[0] == 0x30 ==> forall i :: 0 <= i < |s| ==> s[i] == 0x30)
  }

  /* ---- headers ---- */

  function ReadHeader(s: seq<byte>): Parsed<Option<Header>> {
    var optnl := s != [] && s[0] == NEWLINE;
    var t := if optnl then s[1..] else s;
    if |t| < 16 then Got(None, [])
    else if |t| < 60 then Err(BadHeader)
    else if !Ascii(t[..58]) then Err(BadText)
    else if !IsLiteral(Strip(t[48..58])) then Err(BadNumber)
    else if t[58..60] != END_OF_HEADER then Err(BadHeader)
    else
      Got(Some(Header(optnl, Strip(t[..16]), Strip(t[16..28]), Strip(t[28..34]), Strip(t[34..40]), Strip(t[40..48]),
                      Number(Strip(t[48..58])))), t[60..])
  }

  function WriteHeader(h: Header): seq<byte> {
    (if h.optnl then [NEWLINE] else []) + Pad(h.name, 16) + Pad(h.date, 12) + Pad(h.uid, 6) + Pad(h.gid, 6)
    + Pad(h.mode, 8) + Pad(Digits(h.size), 10) + END_OF_HEADER
  }

  predicate Field(s: seq<byte>, n: nat) { Ascii(s) && Stripped(s) && |s| <= n }

  predicate HeaderOk(h: Header) {
    && Field(h.name, 16) && Field(h.date, 12) && Field(h.uid, 6) && Field(h.gid, 6) && Field(h.mode, 8)
    && |Digits(h.size)| <= 10
  }

  /* ---- integers and strings ---- */

  function Be4(n: nat): (s: seq<byte>)
    ensures |s| == 4
  {
    [n / 0x100_0000 % 256, n / 0x1_0000 % 256, n / 0x100 % 256, n % 256]
  }

  function FromBe4(s: seq<byte>): (n: nat)
    requires |s| == 4
    ensures n < 0x1_0000_0000
  {
    (s[0] as int) * 0x100_0000 + (s[1] as int) * 0x1_0000 + (s[2] as int) * 0x100 + s[3] as int
  }

  function Reverse4(s: seq<byte>): seq<byte>
    requires |s| == 4
  {
    [s[3], s[2], s[1], s[0]]
  }

  function Le4(n: nat): (s: seq<byte>)
    ensures |s| == 4
  {
    Reverse4(Be4(n))
  }

  function FromLe4(s: seq<byte>): (n: nat)
    requires |s| == 4
    ensures n < 0x1_0000_0000
  {
    FromBe4(Reverse4(s))
  }

  function Le2(n: nat): (s: seq<byte>)
    ensures |s| == 2
  {
    [n % 256, n / 0x100 % 256]
  }

  function FromLe2(s: seq<byte>): (n: nat)
    requires |s| == 2
    ensures n < 0x1_0000
  {
    s[0] as int + (s[1] as int) * 0x100
  }

  /** How integers of one kind are laid out. */
  datatype Width = Big4 | Little4 | Little2 {
    function Bytes(): nat { if Little2? then 2 else 4 }

    function Limit(): nat { if Little2? then 0x1_0000 else 0x1_0000_0000 }

    function Pack(n: nat): (s: seq<byte>)
      ensures |s| == Bytes()
    {
      match this case Big4 => Be4(n) case Little4 => Le4(n) case Little2 => Le2(n)
    }

    function Unpack(s: seq<byte>): (n: nat)
      requires |s| == Bytes()
      ensures n < Limit()
    {
      match this case Big4 => FromBe4(s) case Little4 => FromLe4(s) case Little2 => FromLe2(s)
    }
  }

  function ReadInt(w: Width, s: seq<byte>): Parsed<nat> {
    if |s| < w.Bytes() then Err(Truncated) else Got(w.Unpack(s[..w.Bytes()]), s[w.Bytes()..])
  }

  function ReadInts(w: Width, s: seq<byte>, n: nat): Parsed<seq<nat>> {
    if n == 0 then Got([], s)
    else match ReadInt(w, s)
      case Err(e) => Err(e)
      case Got(x, r) => Prepend([x], ReadInts(w, r, n - 1))
  }

  function WriteInts(w: Width, xs: seq<nat>): seq<byte> {
    if xs == [] then [] else w.Pack(xs[0]) + WriteInts(w, xs[1..])
  }

  function Prepend<T>(xs: seq<T>, p: Parsed<seq<T>>): Parsed<seq<T>> {
    match p case Err(e) => Err(e) case Got(ys, r) => Got(xs + ys, r)
  }

  /** A string ends at its first zero byte. */
  function ReadString(s: seq<byte>): Parsed<seq<byte>> {
    if s == [] then Err(Unterminated)
    else if s[0] == 0 then Got([], s[1..])
    else Prepend([s[0]], ReadString(s[1..]))
  }

  function ReadStrings(s: seq<byte>, n: nat): Parsed<seq<seq<byte>>>
    decreases n
  {
    if n == 0 then Got([], s)
    else match ReadString(s)
      case Err(e) => Err(e)
      case Got(x, r) => Prepend([x], ReadStrings(r, n - 1))
  }

  function WriteStrings(xs: seq<seq<byte>>): seq<byte> {
    if xs == [] then [] else xs[0] + [0] + WriteStrings(xs[1..])
  }

  predicate StringOk(s: seq<byte>) { 0 !in s }

  /* ---- linker members ---- */

  function ReadFirst(s: seq<byte>): Parsed<First> {
    match ReadInt(Big4, s)
    case Err(e) => Err(e)
    case Got(n, r) =>
      match ReadInts(Big4, r, n)
      case Err(e) => Err(e)
      case Got(offsets, r2) =>
        match ReadStrings(r2, n)
        case Err(e) => Err(e)
        case Got(strings, r3) => Got(First(offsets, strings), r3)
  }

  function WriteFirst(m: First): seq<byte> {
    Big4.Pack(|m.offsets|) + WriteInts(Big4, m.offsets) + WriteStrings(m.strings)
  }

  predicate IntsOk(w: Width, xs: seq<nat>) { forall i :: 0 <= i < |xs| ==> xs[i] < w.Limit() }

  predicate StringsOk(xs: seq<seq<byte>>) { forall i :: 0 <= i < |xs| ==> StringOk(xs[i]) }

  predicate FirstOk(m: First) {
    |m.offsets| == |m.strings| < Big4.Limit() && IntsOk(Big4, m.offsets) && StringsOk(m.strings)
  }

  function ReadSecond(s: seq<byte>): Parsed<Second> {
    match ReadInt(Little4, s)
    case Err(e) => Err(e)
    case Got(m, r) =>
      match ReadInts(Little4, r, m)
      case Err(e) => Err(e)
      case Got(offsets, r2) =>
        match ReadInt(Little4, r2)
        case Err(e) => Err(e)
        case Got(n, r3) =>
          match ReadInts(Little2, r3, n)
          case Err(e) => Err(e)
          case Got(indices, r4) =>
            match ReadStrings(r4, n)
            case Err(e) => Err(e)
            case Got(strings, r5) => Got(Second(offsets, indices, strings), r5)
  }

  function WriteSecond(m: Second): seq<byte> {
    Little4.Pack(|m.offsets|) + WriteInts(Little4, m.offsets) + Little4.Pack(|m.indices|)
    + WriteInts(Little2, m.indices) + WriteStrings(m.strings)
  }

  predicate SecondOk(m: Second) {
    && |m.offsets| < Little4.Limit() && IntsOk(Little4, m.offsets)
    && |m.indices| == |m.strings| < Little4.Limit() && IntsOk(Little2, m.indices) && StringsOk(m.strings)
  }

  /* ---- the library ---- */

  /** Strings are read until `left` bytes have been consumed; the last one may run past them. */
  function ReadLongnames(s: seq<byte>, left: int): Parsed<seq<seq<byte>>>
    decreases |s|
  {
    if left <= 0 then Got([], s)
    else match ReadString(s)
      case Err(e) => Err(e)
      case Got(x, r) => if |r| < |s| then Prepend([x], ReadLongnames(r, left - (|s| - |r|))) else Err(Truncated)
  }

  predicate LongnamesOk(xs: seq<seq<byte>>, left: int) {
    if xs == [] then left <= 0 else left > 0 && StringOk(xs[0]) && LongnamesOk(xs[1..], left - |xs[0]| - 1)
  }

  datatype Members = Members(ho: seq<Header>, o: seq<seq<byte>>)

  /** The member of header `h`, then the rest; a member that the file cuts short is kept as it is. */
  function ReadMember(h: Header, s: seq<byte>): Parsed<Members>
    decreases |s|, 3
  {
    match ReadMembers(Drop(s, h.size))
    case Err(e) => Err(e)
    case Got(ms, r) => Got(Members([h] + ms.ho, [Take(s, h.size)] + ms.o), r)
  }

  function ReadMembers(s: seq<byte>): Parsed<Members>
    decreases |s|, 2
  {
    match ReadHeader(s)
    case Err(e) => Err(e)
    case Got(None, r) => Got(Members([], []), r)
    case Got(Some(h), r) => if |r| < |s| then ReadMember(h, r) else Err(Truncated)
  }

  function WriteMembers(ms: Members): seq<byte>
    decreases |ms.ho|
  {
    if ms.ho == [] || ms.o == [] then []
    else WriteHeader(ms.ho[0]) + ms.o[0] + WriteMembers(Members(ms.ho[1..], ms.o[1..]))
  }

  predicate MembersOk(ms: Members)
    decreases |ms.ho|
  {
    && |ms.ho| == |ms.o|
    && (ms.ho != [] ==>
          && HeaderOk(ms.ho[0]) && MembersOk(Members(ms.ho[1..], ms.o[1..]))
          && (if |ms.ho| == 1 then |ms.o[0]| <= ms.ho[0].size else |ms.o[0]| == ms.ho[0].size))
  }

  /** What follows the second linker member. */
  datatype Tail = Tail(hl: Option<Header>, longnames: seq<seq<byte>>, ms: Members)

  function ReadTail(s: seq<byte>): Parsed<Tail> {
    match ReadHeader(s)
    case Err(e) => Err(e)
    case Got(None, r) => Got(Tail(None, [], Members([], [])), r)
    case Got(Some(h), r) =>
      if h.name == LONGNAMES then
        match ReadLongnames(r, h.size)
        case Err(e) => Err(e)
        case Got(names, r2) =>
          match ReadMembers(r2)
          case Err(e) => Err(e)
          case Got(ms, r3) => Got(Tail(Some(h), names, ms), r3)
      else
        match ReadMember(h, r)
        case Err(e) => Err(e)
        case Got(ms, r2) => Got(Tail(None, [], ms), r2)
  }

  function WriteTail(t: Tail): seq<byte> {
    (if t.hl.Some? then WriteHeader(t.hl.value) + WriteStrings(t.longnames) else []) + WriteMembers(t.ms)
  }

  predicate TailOk(t: Tail) {
    && MembersOk(t.ms)
    && match t.hl
       case Some(h) => HeaderOk(h) && h.name == LONGNAMES && LongnamesOk(t.longnames, h.size)
       case None => t.longnames == [] && (t.ms.ho != [] ==> t.ms.ho[0].name != LONGNAMES)
  }

  /** A header that must be there, followed by a body of exactly the size it names. */
  function ReadSized<T>(s: seq<byte>, body: seq<byte> -> Parsed<T>): Parsed<(Header, T)> {
    match ReadHeader(s)
    case Err(e) => Err(e)
    case Got(None, _) => Err(Truncated)
    case Got(Some(h), r) =>
      match body(r)
      case Err(e) => Err(e)
      case Got(m, r2) => if |r| - |r2| == h.size then Got((h, m), r2) else Err(BadSize)
  }

  function ReadLib(s: seq<byte>): Parsed<Lib> {
    if Take(s, |MAGIC|) != MAGIC then Err(BadMagic)
    else match ReadSized(Drop(s, |MAGIC|), ReadFirst)
      case Err(e) => Err(e)
      case Got(first, r) =>
        match ReadSized(r, ReadSecond)
        case Err(e) => Err(e)
        case Got(second, r2) =>
          match ReadTail(r2)
          case Err(e) => Err(e)
          case Got(t, r3) =>
            Got(Lib(first.0, first.1, second.0, second.1, t.hl, t.longnames, t.ms.ho, t.ms.o), r3)
  }

  function TailOf(l: Lib): Tail { Tail(l.hl, l.longnames, Members(l.ho, l.o)) }

  function WriteLib(l: Lib): seq<byte> {
    MAGIC + WriteHeader(l.h1) + WriteFirst(l.m1) + WriteHeader(l.h2) + WriteSecond(l.m2) + WriteTail(TailOf(l))
  }

  /** A library that the format can represent. */
  predicate LibOk(l: Lib) {
    && HeaderOk(l.h1) && FirstOk(l.m1) && l.h1.size == |WriteFirst(l.m1)|
    && HeaderOk(l.h2) && SecondOk(l.m2) && l.h2.size == |WriteSecond(l.m2)|
    && TailOk(TailOf(l))
  }
}
