/** The domain name and cellular network elements of `cmd_ath_ap_anqpserver_start`, as hex text. */
module Anqp {
  import opened Bytes
  import opened CText
  import opened HexText

  const COMMA: Byte := 0x2c

  // ------------------------------------------------------------ number fields

  /** `%02x` of a number below 256. */
  function Hex2(v: nat): (r: seq<Byte>)
    requires v < 0x100
    ensures |r| == 2
  {
    [LowerDigit(v / 16), LowerDigit(v % 16)]
  }

  /** The macro LE16: the two low bytes change places. */
  function SwapLe16(v: nat): (w: nat)
    ensures w < 0x10000
  {
    0x100 * Low(v) as int + High(v) as int
  }

  lemma Halves(lo: Byte, hi: Byte)
    ensures (0x100 * hi as int + lo as int) / 0x100 == hi as int
    ensures (0x100 * hi as int + lo as int) % 0x100 == lo as int
  {}

  /** `%04x` of a number below 65536. */
  function Hex4(v: nat): seq<Byte>
    requires v < 0x10000
  {
    Hex2(v / 0x100) + Hex2(v % 0x100)
  }

  /** Bytes as hex text. */
  function HexOf(bytes: seq<Byte>): (r: seq<Byte>)
    ensures |r| == 2 * |bytes|
  {
    if bytes == [] then [] else Hex2(bytes[0]) + HexOf(bytes[1..])
  }

  lemma {:induction false} HexOfJoin(a: seq<Byte>, b: seq<Byte>)
    ensures HexOf(a + b) == HexOf(a) + HexOf(b)
  {
    if a == [] {
      assert a + b == b;
    } else {
      HexOfJoin(a[1..], b);
      RestOfJoined(a, b);
      Regroup(Hex2(a[0]), HexOf(a[1..]), HexOf(b));
    }
  }

  lemma {:induction false} ParsedHexOf(bytes: seq<Byte>, room: nat)
    requires |bytes| <= room
    ensures Parsed(HexOf(bytes), room) == bytes
  {
    if bytes != [] {
      ParsedHexOf(bytes[1..], room - 1);
      Behind(Hex2(bytes[0]), HexOf(bytes[1..]));
    }
  }

  /** A swapped number is the text of its two bytes, low byte first. */
  lemma SwappedIsLittleEndian(v: nat)
    ensures Hex4(SwapLe16(v)) == HexOf([Low(v), High(v)])
  {
    Halves(High(v), Low(v));
    TwoBytes(Low(v), High(v));
  }

  lemma TwoBytes(a: Byte, b: Byte)
    ensures HexOf([a, b]) == Hex2(a) + Hex2(b)
  {
    assert [a, b][1..] == [b];
    assert HexOf([b]) == Hex2(b) + [];
  }

  // -------------------------------------------------------------- domain names

  /** The names between the commas; an empty name at the very end is not seen. */
  function Names(s: seq<Byte>): seq<seq<Byte>>
    decreases |s|
  {
    if s == [] then [] else [s[..Break(s, COMMA)]] + LaterNames(s, Break(s, COMMA))
  }

  function LaterNames(s: seq<Byte>, k: nat): seq<seq<Byte>>
    requires k <= |s|
    decreases |s|, 0
  {
    if k == |s| then [] else Names(s[k + 1..])
  }

  /** Names with commas between them, and perhaps one behind the last. */
  function CommaJoined(names: seq<seq<Byte>>, ended: bool): seq<Byte> {
    if names == [] then []
    else if |names| == 1 then names[0] + if ended then [0x2c] else []
    else names[0] + ([0x2c] + CommaJoined(names[1..], ended))
  }

  predicate AreNames(names: seq<seq<Byte>>) {
    forall i :: 0 <= i < |names| ==> 0x2c !in names[i]
  }

  lemma BreaksAtComma(name: seq<Byte>, rest: seq<Byte>)
    requires 0x2c !in name
    ensures Names(name + ([0x2c] + rest)) == [name] + Names(rest)
    ensures name != [] ==> Names(name) == [name]
  {
    var s := name + ([0x2c] + rest);
    assert forall i :: 0 <= i < |name| ==> s[i] == name[i] && name[i] in name;
    assert s[|name|] == 0x2c && Break(s, COMMA) == |name|;
    assert s[..|name|] == name && s[|name| + 1..] == rest;
    assert Break(name, COMMA) == |name| && name[..|name|] == name;
  }

  /** Splitting gives back the names of every text that is made of them; an empty last name needs its comma. */
  lemma {:induction false} SplitsNames(names: seq<seq<Byte>>, ended: bool)
    requires AreNames(names) && (names != [] ==> ended || names[|names| - 1] != [])
    ensures Names(CommaJoined(names, ended)) == names
    decreases |names|
  {
    if |names| == 1 {
      BreaksAtComma(names[0], []);
      assert [0x2c] + [] == [0x2c] && names[0] + [] == names[0] && [names[0]] + [] == names;
    } else if names != [] {
      SplitsNames(names[1..], ended);
      BreaksAtComma(names[0], CommaJoined(names[1..], ended));
      assert [names[0]] + names[1..] == names;
    }
  }

  /** The text of one name: its length and its characters. */
  function Piece(name: seq<Byte>): seq<Byte>
    requires |name| < 0x100
  {
    Hex2(|name|) + Printed(name, false)
  }

  predicate Encodable(names: seq<seq<Byte>>) {
    forall i :: 0 <= i < |names| ==> |names[i]| < 0x100
  }

  function Emitted(names: seq<seq<Byte>>): seq<Byte>
    requires Encodable(names)
  {
    if names == [] then [] else Piece(names[0]) + Emitted(names[1..])
  }

  /** The bytes that the names stand for: each name behind its length. */
  function Payload(names: seq<seq<Byte>>): seq<Byte>
    requires Encodable(names)
  {
    if names == [] then [] else ([|names[0]|] + names[0]) + Payload(names[1..])
  }

  /** Every character is printed as two digits. */
  predicate Printable(s: seq<Byte>) {
    forall i :: 0 <= i < |s| ==> 0x10 <= s[i] < 0x80
  }

  predicate AllPrintable(names: seq<seq<Byte>>) {
    forall i :: 0 <= i < |names| ==> Printable(names[i])
  }

  predicate NoNul(s: seq<Byte>) {
    forall i :: 0 <= i < |s| ==> s[i] != 0
  }

  lemma {:induction false} PrintedSize(s: seq<Byte>)
    requires Printable(s)
    ensures |Printed(s, false)| == 2 * |s| && NoNul(Printed(s, false))
  {
    if s != [] { PrintedSize(s[1..]); }
  }

  lemma OneByte(b: Byte)
    ensures HexOf([b]) == Hex2(b)
  {
    assert [b][1..] == [];
  }

  lemma PieceReadBack(name: seq<Byte>, room: nat)
    requires Printable(name) && |name| < 0x100 && 1 + |name| <= room
    ensures |Piece(name)| == 2 + 2 * |name| && NoNul(Piece(name))
    ensures Parsed(Piece(name), room) == [|name|] + name
  {
    PrintedSize(name);
    OneByte(|name|);
    ParsedHexOf([|name|], room);
    ParsesPrinted(name, false, room - 1);
    ParsedPairs(Hex2(|name|), Printed(name, false), room);
  }

  lemma {:induction false} EmittedLast(names: seq<seq<Byte>>, name: seq<Byte>)
    requires Encodable(names) && |name| < 0x100
    ensures Encodable(names + [name]) && Emitted(names + [name]) == Emitted(names) + Piece(name)
  {
    if names == [] {
      assert [] + [name] == [name] && [name][1..] == [];
    } else {
      EmittedLast(names[1..], name);
      RestOfJoined(names, [name]);
      Regroup(Piece(names[0]), Emitted(names[1..]), Piece(name));
    }
  }

  lemma {:induction false} NamesSize(names: seq<seq<Byte>>)
    requires Encodable(names) && AllPrintable(names)
    ensures |Emitted(names)| == 2 * |Payload(names)| && NoNul(Emitted(names))
  {
    if names != [] {
      PieceReadBack(names[0], 1 + |names[0]|);
      NamesSize(names[1..]);
    }
  }

  /** Reading the text of the names gives their length-prefixed bytes. */
  lemma {:induction false} NamesReadBack(names: seq<seq<Byte>>, room: nat)
    requires Encodable(names) && AllPrintable(names) && |Payload(names)| <= room
    ensures Parsed(Emitted(names), room) == Payload(names)
  {
    if names != [] {
      var name, rest := names[0], names[1..];
      PieceReadBack(name, room);
      NamesReadBack(rest, room - 1 - |name|);
      ParsedPairs(Piece(name), Emitted(rest), room);
    }
  }

  /** Type and length in front of `len` digits. */
  function DomainFront(len: nat): (r: seq<Byte>)
    ensures |r| == 4
  {
    [0x0c, 0x01, Low(len), High(len)]
  }

  /** All that is written behind "domain_name=" for the text of the names. */
  function DomainElement(text: seq<Byte>): seq<Byte> {
    HexOf(DomainFront(|text|)) + text
  }

  function DomainText(names: seq<seq<Byte>>): seq<Byte>
    requires Encodable(names)
  {
    DomainElement(Emitted(names))
  }

  lemma DomainReadBack(names: seq<seq<Byte>>, room: nat)
    requires Encodable(names) && AllPrintable(names) && |Payload(names)| + 4 <= room
    ensures Parsed(DomainText(names), room) == DomainFront(2 * |Payload(names)|) + Payload(names)
  {
    NamesSize(names);
    NamesReadBack(names, room - 4);
    var front := DomainFront(|Emitted(names)|);
    ParsedPairs(HexOf(front), Emitted(names), room);
    ParsedHexOf(front, room);
  }

  /**
   The length field in front of the names counts hex digits, not bytes: it is twice
   the size of what it covers, and so right only for a list without any name.
   */
  lemma DomainLengthCountsDigits(names: seq<seq<Byte>>, room: nat)
    requires Encodable(names) && AllPrintable(names) && |Payload(names)| < 0x8000 && |Payload(names)| + 4 <= room
    ensures var bytes := Parsed(DomainText(names), room);
            && |bytes| == 4 + |Payload(names)| && bytes[0] == 0x0c && bytes[1] == 0x01 && bytes[4..] == Payload(names)
            && Le16(bytes[2], bytes[3]) == 2 * |bytes[4..]|
            && (Le16(bytes[2], bytes[3]) == |bytes[4..]| <==> names == [])
  {
    DomainReadBack(names, room);
    DomainFields(Payload(names));
    PayloadIsEmpty(names);
  }

  lemma PayloadIsEmpty(names: seq<seq<Byte>>)
    requires Encodable(names)
    ensures |Payload(names)| == 0 <==> names == []
  {}

  lemma DomainFields(payload: seq<Byte>)
    requires |payload| < 0x8000
    ensures var bytes := DomainFront(2 * |payload|) + payload;
            && bytes[0] == 0x0c && bytes[1] == 0x01 && Le16(bytes[2], bytes[3]) == 2 * |payload|
            && bytes[4..] == payload
  {
    LowAndHigh(2 * |payload|);
    Behind(DomainFront(2 * |payload|), payload);
  }

  /** `snprintf(buf + at, room, "%s", text)`: cut to the room, and terminated. */
  method Snprintf(buf: array<Byte>, at: nat, room: nat, text: seq<Byte>)
    requires 0 < room && at + room <= buf.Length
    modifies buf
    ensures forall j :: 0 <= j < at ==> buf[j] == old(buf[j])
    ensures var n := if |text| < room then |text| else room - 1;
            (forall j :: 0 <= j < n ==> buf[at + j] == text[j]) && buf[at + n] == 0
  {
    var n := if |text| < room then |text| else room - 1;
    for i := 0 to n
      invariant forall j :: 0 <= j < at ==> buf[j] == old(buf[j])
      invariant forall j :: 0 <= j < i ==> buf[at + j] == text[j]
    {
      buf[at + i] := text[i];
    }
    buf[at + n] := 0;
  }

  /** The same behind `front` when there is room for all of `text`. */
  method Append(buf: array<Byte>, ghost front: seq<Byte>, at: nat, room: nat, text: seq<Byte>)
    requires |text| < room && at + room <= buf.Length && buf[..at] == front
    modifies buf
    ensures buf[..at + |text|] == front + text && buf[at + |text|] == 0
  {
    Snprintf(buf, at, room, text);
    assert forall j :: at <= j < at + |text| ==> buf[j] == text[j - at] by {
      forall j | at <= j < at + |text| ensures buf[j] == text[j - at] { assert buf[at + (j - at)] == text[j - at]; }
    }
    assert forall j :: 0 <= j < at ==> buf[j] == front[j];
  }

  /** Text without a NUL and then a NUL is the string that the buffer holds. */
  lemma HeldString(buf: array<Byte>, at: nat)
    requires at < buf.Length && NoNul(buf[..at]) && buf[at] == 0
    ensures CString(buf[..]) == buf[..at]
  {
    CStringOf(buf[..at], buf[at + 1..]);
    assert buf[..] == buf[..at] + [0] + buf[at + 1..];
  }

  /** `%02x` of a number below 4096. */
  function HexNumber(v: nat): (r: seq<Byte>)
    requires v < 0x1000
    ensures 2 <= |r| <= 3 && NoNul(r)
  {
    if v < 0x100 then Hex2(v) else [LowerDigit(v / 0x100)] + Hex2(v % 0x100)
  }

  /** `"%02x%s"` of any name: its length and its hex string. */
  function AnyPiece(name: seq<Byte>, signed: bool): seq<Byte>
    requires |name| < 0x1000
  {
    HexNumber(|name|) + Printed(name, signed)
  }

  lemma {:induction false} PrintedBounds(s: seq<Byte>, signed: bool)
    ensures |Printed(s, signed)| <= 2 * |s| && NoNul(Printed(s, signed))
  {
    if s != [] { PrintedBounds(s[1..], signed); }
  }

  lemma PieceBounds(name: seq<Byte>, signed: bool)
    requires |name| < 0x1000
    ensures |AnyPiece(name, signed)| <= 3 + 2 * |name| && NoNul(AnyPiece(name, signed))
  {
    PrintedBounds(name, signed);
  }

  predicate AllShort(names: seq<seq<Byte>>) {
    forall i :: 0 <= i < |names| ==> |names[i]| < 0x1000
  }

  /**
   The string that the loop leaves for any names. It goes on two places for the length and two for each character
   further: a longer piece loses its end to the next one, and a shorter one ends the string.
   */
  function Written(names: seq<seq<Byte>>, signed: bool): seq<Byte>
    requires AllShort(names)
  {
    if names == [] then []
    else
      var piece, step := AnyPiece(names[0], signed), 2 + 2 * |names[0]|;
      if |names| == 1 || |piece| < step then piece else piece[..step] + Written(names[1..], signed)
  }

  lemma {:induction false} PrintedEither(s: seq<Byte>, signed: bool)
    requires Printable(s)
    ensures Printed(s, signed) == Printed(s, false)
  {
    if s != [] { PrintedEither(s[1..], signed); }
  }

  /** For names that can be encoded these are the pieces, one behind the other. */
  lemma {:induction false} WrittenIsEmitted(names: seq<seq<Byte>>, signed: bool)
    requires Encodable(names) && AllPrintable(names)
    ensures Written(names, signed) == Emitted(names)
  {
    if names != [] {
      var piece := Piece(names[0]);
      PrintedEither(names[0], signed);
      PrintedSize(names[0]);
      WrittenIsEmitted(names[1..], signed);
      assert piece[..2 + 2 * |names[0]|] == piece;
      if |names| == 1 { assert names[1..] == [] && piece + [] == piece; }
    }
  }

  /** The bytes of one name, printed into a string of its own. */
  method DomainPiece(start: seq<Byte>, signed: bool) returns (piece: seq<Byte>)
    requires IsText(start) && |start| < 0x1000
    ensures piece == AnyPiece(start, signed)
  {
    var hexstr := new Byte[2 * |start| + 1];
    Ascii2HexStr(start, signed, hexstr);
    PrintedIsHeld(start, signed);
    assert hexstr[..] == hexstr[..2 * |start| + 1];
    piece := HexNumber(|start|) + CString(hexstr[..]);
  }

  function FirstName(s: seq<Byte>): seq<Byte> {
    s[..Break(s, COMMA)]
  }

  /** What is left behind the first name of a text. */
  function NextText(s: seq<Byte>): seq<Byte>
    requires |s| > 0
  {
    var k := Break(s, COMMA);
    if k < |s| then s[k + 1..] else []
  }

  lemma NamesInTurn(s: seq<Byte>)
    requires |s| > 0 && |s| < 0x1000
    ensures Names(s) == [FirstName(s)] + Names(NextText(s))
    ensures AllShort(Names(s)) && AllShort(Names(NextText(s)))
  {
    FirstOfNames(s);
    NamesAreShort(s);
    NamesAreShort(NextText(s));
  }

  lemma FirstOfNames(s: seq<Byte>)
    requires |s| > 0
    ensures Names(s) == [FirstName(s)] + Names(NextText(s))
  {
    assert Break(s, COMMA) == |s| ==> NextText(s) == [] && Names(NextText(s)) == [];
  }

  lemma {:induction false} NamesAreShort(list: seq<Byte>)
    requires |list| < 0x1000
    ensures AllShort(Names(list))
    decreases |list|
  {
    if list != [] {
      var k := Break(list, COMMA);
      if k < |list| { NamesAreShort(list[k + 1..]); }
    }
  }

  /** A piece has been written at a place, with a NUL behind it, and nothing in front of it has changed. */
  ghost predicate HoldsPiece(before: seq<Byte>, now: seq<Byte>, at: nat, piece: seq<Byte>) {
    && |before| == |now| && at + |piece| < |now| && NoNul(piece)
    && now[..at + |piece|] == before[..at] + piece && now[at + |piece|] == 0
  }

  /** One turn of the loop: the piece of another name, and the text that is left, if there was a comma. */
  method EncodeName(buf: array<Byte>, at: nat, room: nat, unread: seq<Byte>, signed: bool)
      returns (at': nat, room': nat, next: seq<Byte>, more: bool)
    requires |unread| > 0 && IsText(unread) && |unread| < 0x1000
    requires at + room == buf.Length && room == 50 + 2 * |unread|
    modifies buf
    ensures var name := FirstName(unread);
            && |name| <= |unread| && at' == at + 2 + 2 * |name| && at' + room' == buf.Length
            && HoldsPiece(old(buf[..]), buf[..], at, AnyPiece(name, signed))
    ensures room' == if more then 50 + 2 * |next| else 48
    ensures next == NextText(unread) && IsText(next) && |next| < |unread| && (!more ==> |next| == 0)
  {
    var k := Break(unread, COMMA);
    var start := unread[..k];
    var piece := DomainPiece(start, signed);
    PieceBounds(start, signed);
    Append(buf, buf[..at], at, room, piece);
    at', room' := at + 2 + 2 * k, room - (2 + 2 * k);
    more := k < |unread|;
    next := if more then unread[k + 1..] else [];
  }

  /** The string of the buffer is complete, and ends in front of `at`. */
  ghost predicate Closed(buf: seq<Byte>, all: seq<Byte>, at: nat) {
    NoNul(all) && |all| < |buf| && |all| < at && buf[..|all|] == all && buf[|all|] == 0
  }

  /** What is in front of `at` is the beginning of the string, and the names that are left make the rest of it. */
  ghost predicate Open(buf: seq<Byte>, all: seq<Byte>, at: nat, names: seq<seq<Byte>>, signed: bool)
    requires AllShort(names)
  {
    at <= |buf| && NoNul(buf[..at]) && all == buf[..at] + Written(names, signed)
  }

  lemma WrittenTurn(name: seq<Byte>, later: seq<seq<Byte>>, signed: bool)
    requires |name| < 0x1000 && AllShort(later)
    ensures AllShort([name] + later)
    ensures var piece, step := AnyPiece(name, signed), 2 + 2 * |name|;
            Written([name] + later, signed) ==
            if later == [] || |piece| < step then piece else piece[..step] + Written(later, signed)
  {
    assert ([name] + later)[1..] == later;
  }

  lemma CutPiece(before: seq<Byte>, now: seq<Byte>, at: nat, piece: seq<Byte>, step: nat)
    requires HoldsPiece(before, now, at, piece) && step <= |piece|
    ensures now[..at + step] == before[..at] + piece[..step] && now[..at] == before[..at]
    ensures NoNul(before[..at]) ==> NoNul(now[..at + step])
  {
    assert now[..at + step] == now[..at + |piece|][..at + step];
  }

  /** How one turn goes on, or closes the string. */
  lemma NextPiece(before: seq<Byte>, now: seq<Byte>, all: seq<Byte>, at: nat, name: seq<Byte>,
                  later: seq<seq<Byte>>, signed: bool)
    requires AllShort([name] + later) && AllShort(later) && Open(before, all, at, [name] + later, signed)
    requires HoldsPiece(before, now, at, AnyPiece(name, signed))
    ensures var at', piece := at + 2 + 2 * |name|, AnyPiece(name, signed);
            if later == [] || |piece| < 2 + 2 * |name| then all == before[..at] + piece && NoNul(all)
            else Open(now, all, at', later, signed)
  {
    assert |([name] + later)[0]| < 0x1000;
    var piece, step := AnyPiece(name, signed), 2 + 2 * |name|;
    WrittenTurn(name, later, signed);
    if later != [] && |piece| >= step {
      GoesOn(before, now, all, at, piece, step, Written(later, signed));
    } else {
      LastPiece(before, now, all, at, piece);
    }
  }

  lemma GoesOn(before: seq<Byte>, now: seq<Byte>, all: seq<Byte>, at: nat, piece: seq<Byte>, step: nat,
               more: seq<Byte>)
    requires HoldsPiece(before, now, at, piece) && step <= |piece| && NoNul(before[..at])
    requires all == before[..at] + (piece[..step] + more)
    ensures at + step <= |now| && NoNul(now[..at + step]) && all == now[..at + step] + more
  {
    Regroup(before[..at], piece[..step], more);
    CutPiece(before, now, at, piece, step);
  }

  lemma LastPiece(before: seq<Byte>, now: seq<Byte>, all: seq<Byte>, at: nat, piece: seq<Byte>)
    requires HoldsPiece(before, now, at, piece) && NoNul(before[..at]) && all == before[..at] + piece
    ensures NoNul(all)
  {}

  lemma StaysClosed(before: seq<Byte>, now: seq<Byte>, all: seq<Byte>, at: nat)
    requires |before| == |now| && Closed(before, all, |before|) && |all| < at <= |now| && now[..at] == before[..at]
    ensures Closed(now, all, |now|)
  {
    assert now[..at][..|all|] == before[..at][..|all|];
    assert now[|all|] == now[..at][|all|] == before[..at][|all|];
  }

  /** The string ends with this piece. */
  lemma Closes(before: seq<Byte>, now: seq<Byte>, all: seq<Byte>, at: nat, piece: seq<Byte>)
    requires HoldsPiece(before, now, at, piece) && all == before[..at] + piece && NoNul(all)
    ensures Closed(now, all, |now|) && |all| == at + |piece|
  {
    assert now[..|all|] == all;
  }

  /** How far the string in the buffer is, with these names left to be written from `at` on. */
  ghost predicate Progress(buf: seq<Byte>, all: seq<Byte>, at: nat, names: seq<seq<Byte>>, closed: bool, signed: bool)
    requires AllShort(names)
  {
    if closed then Closed(buf, all, |buf|) && (names != [] ==> |all| < at)
    else names != [] && Open(buf, all, at, names, signed)
  }

  lemma Turn(before: seq<Byte>, now: seq<Byte>, all: seq<Byte>, at: nat, at': nat, name: seq<Byte>,
             later: seq<seq<Byte>>, closed: bool, signed: bool)
      returns (closed': bool)
    requires at' == at + 2 + 2 * |name|
    requires AllShort([name] + later) && AllShort(later) && Progress(before, all, at, [name] + later, closed, signed)
    requires HoldsPiece(before, now, at, AnyPiece(name, signed))
    ensures Progress(now, all, at', later, closed', signed)
  {
    closed' := true;
    var piece := AnyPiece(name, signed);
    if closed {
      CutPiece(before, now, at, piece, 0);
      StaysClosed(before, now, all, at);
    } else {
      NextPiece(before, now, all, at, name, later, signed);
      closed' := later == [] || |piece| < 2 + 2 * |name|;
      if closed' { Closes(before, now, all, at, piece); }
    }
  }

  lemma StartsOpen(buf: seq<Byte>, names: seq<seq<Byte>>, signed: bool)
    requires names != [] && AllShort(names)
    ensures Progress(buf, Written(names, signed), 0, names, false, signed)
  {
    assert buf[..0] + Written(names, signed) == Written(names, signed);
  }

  /** One turn, and how far the string then is. */
  method OneTurn(buf: array<Byte>, ghost all: seq<Byte>, at: nat, room: nat, unread: seq<Byte>,
                 ghost name: seq<Byte>, ghost later: seq<seq<Byte>>, ghost closed: bool, signed: bool)
      returns (at': nat, room': nat, next: seq<Byte>, more: bool, ghost closed': bool)
    requires |unread| > 0 && IsText(unread) && |unread| < 0x1000
    requires at + room == buf.Length && room == 50 + 2 * |unread|
    requires name == FirstName(unread) && AllShort(later) && AllShort([name] + later)
    requires Progress(buf[..], all, at, [name] + later, closed, signed)
    modifies buf
    ensures at' + room' == buf.Length && room' == if more then 50 + 2 * |next| else 48
    ensures next == NextText(unread) && IsText(next) && |next| < |unread| && (!more ==> |next| == 0)
    ensures Progress(buf[..], all, at', later, closed', signed)
  {
    ghost var before := buf[..];
    at', room', next, more := EncodeName(buf, at, room, unread, signed);
    ghost var now := buf[..];
    closed' := Turn(before, now, all, at, at', name, later, closed, signed);
    assert buf[..] == now;
  }

  /**
   The domain name loop. The buffer always has room for twice the unread text and 50 more (48 at the end),
   so no piece is cut.
   */
  method EncodeDomains(list: seq<Byte>, signed: bool) returns (anqpDn: array<Byte>)
    requires |list| > 0 && IsText(list) && |list| < 0x1000
    ensures fresh(anqpDn) && AllShort(Names(list)) && CString(anqpDn[..]) == Written(Names(list), signed)
  {
    NamesAreShort(list);
    ghost var all, closed := Written(Names(list), signed), false;
    var room := 50 + 2 * |list|;
    anqpDn := new Byte[room](_ => 0);
    var at, unread, more := 0, list, true;
    StartsOpen(anqpDn[..], Names(list), signed);
    while more && |unread| > 0
      invariant IsText(unread) && |unread| < 0x1000 && AllShort(Names(unread)) && (!more ==> |unread| == 0)
      invariant at + room == anqpDn.Length && room == if more then 50 + 2 * |unread| else 48
      invariant Progress(anqpDn[..], all, at, Names(unread), closed, signed)
      decreases |unread|
    {
      NamesInTurn(unread);
      at, room, unread, more, closed :=
        OneTurn(anqpDn, all, at, room, unread, FirstName(unread), Names(NextText(unread)), closed, signed);
    }
    HeldWhole(anqpDn[..], all);
  }

  lemma HeldWhole(buf: seq<Byte>, all: seq<Byte>)
    requires Closed(buf, all, |buf|)
    ensures CString(buf) == all
  {
    CStringOf(all, buf[|all| + 1..]);
    assert buf == all + [0] + buf[|all| + 1..];
  }

  /** The list can be encoded, as the loop splits it. */
  predicate ListFits(list: seq<Byte>) {
    AllPrintable(Names(list)) && Encodable(Names(list))
  }

  /** The element that is written for a domain name list of the configuration, which has room for 999 characters. */
  method WriteDomains(list: seq<Byte>, signed: bool) returns (text: seq<Byte>)
    requires IsText(list) && |list| < 1000
    ensures AllShort(Names(list))
    ensures text == if list == [] then [] else DomainElement(Written(Names(list), signed))
    ensures list != [] && ListFits(list) ==> text == DomainText(Names(list))
  {
    NamesAreShort(list);
    if list == [] { return []; }
    var anqpDn := EncodeDomains(list, signed);
    var dn := CString(anqpDn[..]);
    SwappedIsLittleEndian(|dn|);
    HexOfJoin([0x0c, 0x01], [Low(|dn|), High(|dn|)]);
    assert [0x0c, 0x01] + [Low(|dn|), High(|dn|)] == DomainFront(|dn|);
    text := HexOf([0x0c, 0x01]) + Hex4(SwapLe16(|dn|)) + dn;
    if ListFits(list) { WrittenIsEmitted(Names(list), signed); }
  }

  // --------------------------------------------------------- cellular networks

  /** Country and network code. */
  datatype Plmn = Plmn(mcc: seq<Byte>, mnc: seq<Byte>)

  /** What the configuration command takes: only the number of characters is checked. */
  predicate Sized(p: Plmn) {
    |p.mcc| == 3 && (|p.mnc| == 2 || |p.mnc| == 3) && NoNul(p.mcc) && NoNul(p.mnc)
  }

  predicate AllSized(ps: seq<Plmn>) { forall i :: 0 <= i < |ps| ==> Sized(ps[i]) }

  /** Its characters in the order of the digits of the element; 'f' stands in for a third network digit. */
  function Characters(p: Plmn): seq<Byte>
    requires Sized(p)
  {
    p.mcc + [if |p.mnc| == 2 then FILLER else p.mnc[2]] + p.mnc[..2]
  }

  /** The two characters of each pair change places. */
  function Swapped(s: seq<Byte>): (r: seq<Byte>)
    ensures |r| == |s|
  {
    if |s| < 2 then s else [s[1], s[0]] + Swapped(s[2..])
  }

  lemma {:induction false} SwappedTwice(s: seq<Byte>)
    ensures Swapped(Swapped(s)) == s
  {
    if |s| >= 2 {
      SwappedTwice(s[2..]);
      Behind([s[1], s[0]], Swapped(s[2..]));
    }
  }

  function CodeText(p: Plmn): (r: seq<Byte>)
    requires Sized(p)
    ensures |r| == 6
  {
    Swapped(Characters(p))
  }

  function AllTexts(ps: seq<Plmn>): (r: seq<Byte>)
    requires AllSized(ps)
    ensures |r| == 6 * |ps|
  {
    if ps == [] then [] else CodeText(ps[0]) + AllTexts(ps[1..])
  }

  /** The code that six swapped characters stand for. */
  function ReadText(text: seq<Byte>): Plmn
    requires |text| == 6
  {
    var s := Swapped(text);
    Plmn(s[..3], s[4..] + if s[3] == FILLER then [] else [s[3]])
  }

  /** The text gives the code back exactly if its third network character is not the filler itself. */
  lemma TextReadBack(p: Plmn)
    requires Sized(p)
    ensures ReadText(CodeText(p)) == p <==> |p.mnc| == 2 || p.mnc[2] != FILLER
  {
    var s := Characters(p);
    SwappedTwice(s);
    assert s[..3] == p.mcc && s[4..] == p.mnc[..2];
    if |p.mnc| == 3 { assert p.mnc[..2] + [p.mnc[2]] == p.mnc; }
  }

  lemma SixSwapped(s: seq<Byte>)
    requires |s| == 6
    ensures Swapped(s) == [s[1], s[0], s[3], s[2], s[5], s[4]]
  {
    assert s[4..][2..] == [] && s[2..][2..] == s[4..];
    assert Swapped(s[4..]) == [s[5], s[4]] + Swapped([]);
    assert Swapped(s[2..]) == [s[3], s[2]] + Swapped(s[4..]);
  }

  lemma TextParts(p: Plmn)
    requires Sized(p)
    ensures CodeText(p) == [p.mcc[1], p.mcc[0], if |p.mnc| == 2 then FILLER else p.mnc[2],
                            p.mcc[2], p.mnc[1], p.mnc[0]]
    ensures NoNul(CodeText(p))
  {
    SixSwapped(Characters(p));
  }

  lemma {:induction false} TextsLast(ps: seq<Plmn>, p: Plmn)
    requires AllSized(ps) && Sized(p)
    ensures AllSized(ps + [p]) && AllTexts(ps + [p]) == AllTexts(ps) + CodeText(p)
  {
    if ps == [] {
      assert [] + [p] == [p] && [p][1..] == [];
    } else {
      TextsLast(ps[1..], p);
      RestOfJoined(ps, [p]);
      Regroup(CodeText(ps[0]), AllTexts(ps[1..]), CodeText(p));
    }
  }

  lemma {:induction false} TextsHaveNoNul(ps: seq<Plmn>)
    requires AllSized(ps)
    ensures NoNul(AllTexts(ps))
  {
    if ps != [] {
      TextParts(ps[0]);
      TextsHaveNoNul(ps[1..]);
    }
  }

  predicate Decimal(s: seq<Byte>) { forall i :: 0 <= i < |s| ==> 0x30 <= s[i] <= 0x39 }

  predicate Valid(p: Plmn) {
    |p.mcc| == 3 && (|p.mnc| == 2 || |p.mnc| == 3) && Decimal(p.mcc) && Decimal(p.mnc)
  }

  predicate AllValid(ps: seq<Plmn>) { forall i :: 0 <= i < |ps| ==> Valid(ps[i]) }

  /** 'f' */
  const FILLER: Byte := 0x66

  predicate DigitOrFiller(c: Byte) { 0x30 <= c <= 0x39 || c == FILLER }

  /** The byte of two digits, the first one in its low half. */
  function Pair(low: Byte, high: Byte): Byte
    requires DigitOrFiller(low) && DigitOrFiller(high)
  {
    ParseDigit(low) + 16 * ParseDigit(high)
  }

  /** Its text has the two digits the other way round, and its halves are their values. */
  lemma PairText(low: Byte, high: Byte)
    requires DigitOrFiller(low) && DigitOrFiller(high)
    ensures Hex2(Pair(low, high)) == [high, low]
    ensures Pair(low, high) % 16 == ParseDigit(low) && Pair(low, high) / 16 == ParseDigit(high)
  {}

  /** The three bytes of one code; 15 takes the place of the third network digit when there is none. */
  function CodeBytes(p: Plmn): seq<Byte>
    requires Valid(p)
  {
    [Pair(p.mcc[0], p.mcc[1]), Pair(p.mcc[2], if |p.mnc| == 2 then FILLER else p.mnc[2]), Pair(p.mnc[0], p.mnc[1])]
  }

  function AllCodes(ps: seq<Plmn>): (r: seq<Byte>)
    requires AllValid(ps)
    ensures |r| == 3 * |ps|
  {
    if ps == [] then [] else CodeBytes(ps[0]) + AllCodes(ps[1..])
  }

  /** The text of a decimal code is the hex text of its three bytes. */
  lemma TextIsHex(p: Plmn)
    requires Valid(p)
    ensures Sized(p) && CodeText(p) == HexOf(CodeBytes(p))
  {
    TextParts(p);
    PairText(p.mcc[0], p.mcc[1]);
    PairText(p.mcc[2], if |p.mnc| == 2 then FILLER else p.mnc[2]);
    PairText(p.mnc[0], p.mnc[1]);
    var b := CodeBytes(p);
    TwoBytes(b[1], b[2]);
    assert b[1..] == [b[1], b[2]];
  }

  lemma {:induction false} TextsAreHex(ps: seq<Plmn>)
    requires AllValid(ps)
    ensures AllSized(ps) && AllTexts(ps) == HexOf(AllCodes(ps))
  {
    if ps != [] {
      TextIsHex(ps[0]);
      TextsAreHex(ps[1..]);
      HexOfJoin(CodeBytes(ps[0]), AllCodes(ps[1..]));
    }
  }

  function Digit(d: nat): Byte
    requires d < 16
  {
    0x30 + d
  }

  /** One code read from its three bytes, half a byte a digit, low half first. */
  function ReadCode(b0: Byte, b1: Byte, b2: Byte): Plmn {
    Plmn([Digit(b0 % 16), Digit(b0 / 16), Digit(b1 % 16)],
         [Digit(b2 % 16), Digit(b2 / 16)] + if b1 / 16 == 15 then [] else [Digit(b1 / 16)])
  }

  function ReadCodes(bytes: seq<Byte>): seq<Plmn> {
    if |bytes| < 3 then [] else [ReadCode(bytes[0], bytes[1], bytes[2])] + ReadCodes(bytes[3..])
  }

  lemma CodeReadBack(p: Plmn)
    requires Valid(p)
    ensures ReadCode(CodeBytes(p)[0], CodeBytes(p)[1], CodeBytes(p)[2]) == p
  {
    CountryReadBack(p);
    NetworkReadBack(p);
  }

  /** A digit comes back from its half of the byte, and the filler is the only one that reads as 15. */
  lemma HalvesReadBack(low: Byte, high: Byte)
    requires 0x30 <= low <= 0x39 && DigitOrFiller(high)
    ensures Digit(Pair(low, high) % 16) == low
    ensures Pair(low, high) / 16 == 15 <==> high == FILLER
    ensures high != FILLER ==> Digit(Pair(low, high) / 16) == high
  {
    PairText(low, high);
  }

  lemma CountryReadBack(p: Plmn)
    requires Valid(p)
    ensures ReadCode(CodeBytes(p)[0], CodeBytes(p)[1], CodeBytes(p)[2]).mcc == p.mcc
  {
    HalvesReadBack(p.mcc[0], p.mcc[1]);
    HalvesReadBack(p.mcc[2], if |p.mnc| == 2 then FILLER else p.mnc[2]);
    SameDigits(p.mcc, [p.mcc[0], p.mcc[1], p.mcc[2]]);
  }

  lemma NetworkReadBack(p: Plmn)
    requires Valid(p)
    ensures ReadCode(CodeBytes(p)[0], CodeBytes(p)[1], CodeBytes(p)[2]).mnc == p.mnc
  {
    HalvesReadBack(p.mnc[0], p.mnc[1]);
    HalvesReadBack(p.mcc[2], if |p.mnc| == 2 then FILLER else p.mnc[2]);
    SameDigits(p.mnc, [p.mnc[0], p.mnc[1]] + if |p.mnc| == 2 then [] else [p.mnc[2]]);
  }

  lemma SameDigits(s: seq<Byte>, t: seq<Byte>)
    requires |s| == |t| && forall i :: 0 <= i < |s| ==> s[i] == t[i]
    ensures s == t
  {}

  lemma ReadFirst(p: Plmn, rest: seq<Byte>)
    requires Valid(p)
    ensures ReadCodes(CodeBytes(p) + rest) == [p] + ReadCodes(rest)
  {
    CodeReadBack(p);
    Behind(CodeBytes(p), rest);
  }

  /** The codes decode, and only to the list that was encoded. */
  lemma {:induction false} CodesReadBack(ps: seq<Plmn>)
    requires AllValid(ps)
    ensures ReadCodes(AllCodes(ps)) == ps
  {
    if ps != [] {
      CodesReadBack(ps[1..]);
      ReadFirst(ps[0], AllCodes(ps[1..]));
    }
  }

  /** What comes in front of n codes: type, length, version, header length, list type, list length and count. */
  function CellularFront(n: nat): (r: seq<Byte>)
    requires n <= 84
    ensures |r| == 9
  {
    [0x08, 0x01, Low(3 * n + 5), High(3 * n + 5), 0, 3 * n + 3, 0, 3 * n + 1, n]
  }

  function CellularBytes(ps: seq<Plmn>): (r: seq<Byte>)
    requires AllValid(ps) && |ps| <= 84
    ensures |r| == 9 + 3 * |ps|
  {
    CellularFront(|ps|) + AllCodes(ps)
  }

  lemma ElementFields(n: nat, codes: seq<Byte>)
    requires n <= 84 && |codes| == 3 * n
    ensures var bytes := CellularFront(n) + codes;
            && Le16(bytes[2], bytes[3]) == 3 * n + 5 && bytes[5] as int == 3 * n + 3 && bytes[7] as int == 3 * n + 1
            && bytes[8] as int == n && bytes[9..] == codes && bytes[..2] == [0x08, 0x01] && bytes[4] == bytes[6] == 0
  {
    LowAndHigh(3 * n + 5);
    Behind(CellularFront(n), codes);
  }

  /** Each of the three nested lengths is the number of bytes behind it, and the codes are those of the list. */
  lemma CellularElement(ps: seq<Plmn>, room: nat)
    requires AllValid(ps) && |ps| <= 84 && room >= 9 + 3 * |ps|
    ensures var bytes := Parsed(HexOf(CellularBytes(ps)), room);
            && |bytes| == 9 + 3 * |ps| && bytes[..2] == [0x08, 0x01] && bytes[4] == bytes[6] == 0
            && Le16(bytes[2], bytes[3]) == |bytes[4..]|
            && bytes[5] as int == |bytes[6..]|
            && bytes[7] as int == |bytes[8..]|
            && bytes[8] as int == |ps|
            && ReadCodes(bytes[9..]) == ps
  {
    ParsedHexOf(CellularBytes(ps), room);
    CodesReadBack(ps);
    ElementFields(|ps|, AllCodes(ps));
  }

  /** A cell of `ap_plmn_mcc` or `ap_plmn_mnc`: NUL behind the digits. */
  function CellAt(s: seq<Byte>, k: nat): Byte {
    if k < |s| then s[k] else 0
  }

  predicate InUse(mcc: seq<seq<Byte>>, mnc: seq<seq<Byte>>, i: nat)
    requires i < |mcc| && i < |mnc|
  {
    |mcc[i]| > 0 && |mnc[i]| > 0
  }

  /** The codes in front of the first entry that is not in use. */
  function Listed(mcc: seq<seq<Byte>>, mnc: seq<seq<Byte>>): (ps: seq<Plmn>)
    requires |mcc| == |mnc|
    ensures |ps| <= |mcc| && forall i :: 0 <= i < |ps| ==> InUse(mcc, mnc, i) && ps[i] == Plmn(mcc[i], mnc[i])
    ensures |ps| < |mcc| ==> !InUse(mcc, mnc, |ps|)
  {
    if mcc == [] || !InUse(mcc, mnc, 0) then [] else [Plmn(mcc[0], mnc[0])] + Listed(mcc[1..], mnc[1..])
  }

  /** The scan stays inside the tables exactly if some entry is not in use. */
  lemma ScanStaysInside(mcc: seq<seq<Byte>>, mnc: seq<seq<Byte>>)
    requires |mcc| == |mnc|
    ensures |Listed(mcc, mnc)| < |mcc| <==> exists i :: 0 <= i < |mcc| && !InUse(mcc, mnc, i)
  {}

  /** `"%c%c%c%c%c%c"` of one code: pairs of digits change places, and 'f' fills a two-digit network code. */
  method PlmnText(p: Plmn) returns (code: seq<Byte>)
    requires Sized(p)
    ensures code == CodeText(p) && NoNul(code)
    ensures Valid(p) ==> code == HexOf(CodeBytes(p))
  {
    code := [CellAt(p.mcc, 1), CellAt(p.mcc, 0),
             if CellAt(p.mnc, 2) == 0 then 0x66 else CellAt(p.mnc, 2),
             CellAt(p.mcc, 2), CellAt(p.mnc, 1), CellAt(p.mnc, 0)];
    TextParts(p);
    if Valid(p) { TextIsHex(p); }
  }

  /** The buffer holds the text of the first i codes, and a NUL. */
  ghost predicate Holds(buf: array<Byte>, ps: seq<Plmn>, i: nat)
    requires AllSized(ps)
    reads buf
  {
    i <= |ps| && 6 * i < buf.Length && buf[..6 * i] == AllTexts(ps[..i]) && buf[6 * i] == 0
  }

  /** One turn of the loop: the text of the next code. */
  method EncodePlmn(buf: array<Byte>, ghost ps: seq<Plmn>, i: nat, p: Plmn)
    requires AllSized(ps) && i < |ps| && p == ps[i] && Holds(buf, ps, i) && 6 * i + 6 < buf.Length
    modifies buf
    ensures Holds(buf, ps, i + 1)
  {
    var code := PlmnText(p);
    TextsLast(ps[..i], p);
    assert ps[..i] + [p] == ps[..i + 1];
    Append(buf, AllTexts(ps[..i]), 6 * i, buf.Length - 6 * i, code);
  }

  lemma HeldCodes(buf: array<Byte>, ps: seq<Plmn>)
    requires AllSized(ps) && Holds(buf, ps, |ps|)
    ensures CString(buf[..]) == AllTexts(ps)
  {
    assert ps[..|ps|] == ps;
    TextsHaveNoNul(ps);
    HeldString(buf, 6 * |ps|);
  }

  /** The loop over the ten-entry tables: the text of the listed codes, or the report that it leaves the tables. */
  method EncodePlmns(mcc: seq<seq<Byte>>, mnc: seq<seq<Byte>>) returns (left: bool, i: nat, buf: array<Byte>)
    requires |mcc| == |mnc| == 10 && AllSized(Listed(mcc, mnc))
    ensures fresh(buf) && i == |Listed(mcc, mnc)|
    ensures left <==> forall k :: 0 <= k < 10 ==> InUse(mcc, mnc, k)
    ensures CString(buf[..]) == AllTexts(Listed(mcc, mnc))
    ensures AllValid(Listed(mcc, mnc)) ==> CString(buf[..]) == HexOf(AllCodes(Listed(mcc, mnc)))
  {
    ghost var ps := Listed(mcc, mnc);
    ScanStaysInside(mcc, mnc);
    left, i, buf := ScanTables(mcc, mnc, ps);
    if AllValid(ps) { TextsAreHex(ps); }
  }

  method ScanTables(mcc: seq<seq<Byte>>, mnc: seq<seq<Byte>>, ghost ps: seq<Plmn>)
      returns (left: bool, i: nat, buf: array<Byte>)
    requires |mcc| == |mnc| == 10 && |ps| <= 10 && AllSized(ps)
    requires forall k :: 0 <= k < |ps| ==> InUse(mcc, mnc, k) && ps[k] == Plmn(mcc[k], mnc[k])
    requires |ps| < 10 ==> !InUse(mcc, mnc, |ps|)
    ensures fresh(buf) && i == |ps| && left == (i == 10)
    ensures CString(buf[..]) == AllTexts(ps)
  {
    buf := new Byte[100](_ => 0);
    i := 0;
    while i < 10 && |mcc[i]| > 0 && |mnc[i]| > 0
      invariant i <= |ps| && buf.Length == 100 && Holds(buf, ps, i)
      decreases |ps| - i
    {
      EncodePlmn(buf, ps, i, Plmn(mcc[i], mnc[i]));
      i := i + 1;
    }
    left := i == 10;
    HeldCodes(buf, ps);
  }

  lemma HexOfThree(a: seq<Byte>, b: seq<Byte>, c: seq<Byte>)
    ensures HexOf(a + b + c) == HexOf(a) + HexOf(b) + HexOf(c)
  {
    HexOfJoin(a, b);
    HexOfJoin(a + b, c);
  }

  /** The two numbers of the ANQP id, and those behind the length. */
  function CellularId(): (r: seq<Byte>)
    ensures |r| == 2
  {
    [0x08, 0x01]
  }

  function ListHeader(n: nat): (r: seq<Byte>)
    requires n <= 84
    ensures |r| == 5
  {
    [0, n * 3 + 3, 0, n * 3 + 1, n]
  }

  lemma FrontParts(n: nat)
    requires n <= 84
    ensures CellularFront(n) == CellularId() + [Low(n * 3 + 5), High(n * 3 + 5)] + ListHeader(n)
  {}

  /** The numbers in front of the codes, as they are printed one after the other. */
  method WriteFront(n: nat) returns (text: seq<Byte>)
    requires n <= 84
    ensures text == HexOf(CellularFront(n))
  {
    var ieLen := n * 3 + 5;
    SwappedIsLittleEndian(ieLen);
    HexOfThree(CellularId(), [Low(ieLen), High(ieLen)], ListHeader(n));
    FrontParts(n);
    text := HexOf(CellularId()) + Hex4(SwapLe16(ieLen)) + HexOf(ListHeader(n));
  }

  /**
   The element that is written for the two tables; an empty list writes nothing. With all ten entries in use the scan
   reads on behind the tables, which None stands for.
   */
  method WritePlmns(mcc: seq<seq<Byte>>, mnc: seq<seq<Byte>>) returns (text: Option<seq<Byte>>)
    requires |mcc| == |mnc| == 10 && AllSized(Listed(mcc, mnc))
    ensures text.Some? <==> exists k :: 0 <= k < 10 && !InUse(mcc, mnc, k)
    ensures var ps := Listed(mcc, mnc);
            text.Some? ==>
              && text.value == (if ps == [] then [] else HexOf(CellularFront(|ps|)) + AllTexts(ps))
              && (AllValid(ps) && ps != [] ==> text.value == HexOf(CellularBytes(ps)))
  {
    var left, i, buf := EncodePlmns(mcc, mnc);
    if left { return None; }
    if i == 0 { return Some([]); }
    var front := WriteFront(i);
    if AllValid(Listed(mcc, mnc)) { HexOfJoin(CellularFront(i), AllCodes(Listed(mcc, mnc))); }
    return Some(front + CString(buf[..]));
  }
}
