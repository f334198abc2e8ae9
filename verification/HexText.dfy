/** `ascii2hexstr` of the access point code and `nan_parse_hex_string` of the NAN code: one undoes the other. */
module HexText {
  import opened Bytes

  /** `nan_parse_hex`: anything that is no digit counts as zero. */
  function ParseDigit(c: Byte): (d: Byte)
    ensures d < 16
  {
    if 0x30 <= c <= 0x39 then c - 0x30
    else if 0x61 <= c <= 0x66 then c - 0x61 + 10
    else if 0x41 <= c <= 0x46 then c - 0x41 + 10
    else 0
  }

  /** One digit as `%X` prints it. */
  function UpperDigit(d: Byte): (c: Byte)
    requires d < 16
    ensures c != 0 && ParseDigit(c) == d
  {
    if d < 10 then 0x30 + d else 0x41 + d - 10
  }

  /** One digit as `%x` prints it. */
  function LowerDigit(d: Byte): (c: Byte)
    requires d < 16
    ensures c != 0 && ParseDigit(c) == d
  {
    if d < 10 then 0x30 + d else 0x61 + d - 10
  }

  /** The digits in their order, as '0' to '9' and then 'a' to 'f' or 'A' to 'F'; nothing else counts. */
  lemma DigitsInOrder(c: Byte)
    ensures [LowerDigit(0), LowerDigit(9), LowerDigit(10), LowerDigit(15)] == [0x30, 0x39, 0x61, 0x66]
    ensures [UpperDigit(0), UpperDigit(9), UpperDigit(10), UpperDigit(15)] == [0x30, 0x39, 0x41, 0x46]
    ensures forall d: Byte :: d < 15 && d != 9 ==>
              LowerDigit(d + 1) == LowerDigit(d) + 1 && UpperDigit(d + 1) == UpperDigit(d) + 1
    ensures ParseDigit(c) != 0 ==> c == LowerDigit(ParseDigit(c)) || c == UpperDigit(ParseDigit(c))
  {}

  // ----------------------------------------------------------------- parsing

  /** The bytes that a text stands for, up to `room` of them; a last single digit is a byte of its own. */
  function Parsed(text: seq<Byte>, room: nat): seq<Byte>
    decreases |text|
  {
    if text == [] || room == 0 then []
    else if |text| == 1 then [ParseDigit(text[0])]
    else [ParseDigit(text[0]) * 16 + ParseDigit(text[1])] + Parsed(text[2..], room - 1)
  }

  /** The `k`th of these bytes. */
  function ByteAt(text: seq<Byte>, k: nat): Byte
    requires 2 * k < |text|
  {
    if 2 * k + 1 < |text| then ParseDigit(text[2 * k]) * 16 + ParseDigit(text[2 * k + 1]) else ParseDigit(text[2 * k])
  }

  lemma {:induction false} ParsedBytes(text: seq<Byte>, room: nat)
    ensures |Parsed(text, room)| == if room <= |text| / 2 then room else (|text| + 1) / 2
    ensures forall k :: 0 <= k < |Parsed(text, room)| ==> Parsed(text, room)[k] == ByteAt(text, k)
    decreases |text|
  {
    if |text| > 1 && room > 0 {
      var rest := text[2..];
      ParsedBytes(rest, room - 1);
      forall k | 1 <= k < |Parsed(text, room)| ensures Parsed(text, room)[k] == ByteAt(text, k) {
        assert Parsed(text, room)[k] == Parsed(rest, room - 1)[k - 1];
        assert ByteAt(rest, k - 1) == ByteAt(text, k);
      }
    }
  }

  /** `nan_parse_hex_string` */
  method ParseHexString(input: seq<Byte>, output: array<Byte>, room: nat) returns (len: nat)
    requires room <= output.Length
    modifies output
    ensures len == |Parsed(input, room)| <= room
    ensures output[..len] == Parsed(input, room)
    ensures forall k :: len <= k < output.Length ==> output[k] == old(output[k])
  {
    var i := 0;
    len := 0;
    while i < |input| && len < room
      invariant len <= room && i == 2 * len && i <= |input| + 1
      invariant forall k :: 0 <= k < len ==> output[k] == ByteAt(input, k)
      invariant forall k :: len <= k < output.Length ==> output[k] == old(output[k])
    {
      output[len] := ParseDigit(input[i]);
      if i + 1 < |input| {
        output[len] := output[len] * 16 + ParseDigit(input[i + 1]);
      }
      len := len + 1;
      i := i + 2;
    }
    ParsedBytes(input, room);
  }

  /** Pairs of digits are parsed one after the other. */
  lemma {:induction false} ParsedPairs(a: seq<Byte>, b: seq<Byte>, room: nat)
    requires |a| % 2 == 0 && |a| / 2 <= room
    ensures Parsed(a + b, room) == Parsed(a, room) + Parsed(b, room - |a| / 2)
    ensures |Parsed(a, room)| == |a| / 2
    decreases |a|
  {
    if a == [] {
      assert a + b == b;
    } else {
      assert (a + b)[2..] == a[2..] + b;
      ParsedPairs(a[2..], b, room - 1);
      Regroup([ByteAt(a, 0)], Parsed(a[2..], room - 1), Parsed(b, room - |a| / 2));
    }
  }

  // ---------------------------------------------------------------- printing

  /** The characters of a C string. */
  predicate IsText(str: seq<Byte>) { forall i :: 0 <= i < |str| ==> str[i] != 0 }

  /**
   What `snprintf(hex, 3, "%X", c)` leaves in its first two cells. Where `char` is signed, a character from 0x80 on is a
   negative number, of whose eight digits the first two remain.
   */
  function Cells(c: Byte, signed: bool): (r: seq<Byte>)
    ensures |r| == 2
  {
    if c < 16 then [UpperDigit(c), 0]
    else if c >= 0x80 && signed then [UpperDigit(15), UpperDigit(15)]
    else [UpperDigit(c / 16), UpperDigit(c % 16)]
  }

  function AllCells(str: seq<Byte>, signed: bool): (r: seq<Byte>)
    ensures |r| == 2 * |str|
  {
    if str == [] then [] else AllCells(str[..|str| - 1], signed) + Cells(str[|str| - 1], signed)
  }

  /** One turn of the loop. */
  method PrintChar(c: Byte, signed: bool, hex: array<Byte>, at: nat)
    requires at + 2 < hex.Length
    modifies hex
    ensures hex[..at + 2] == old(hex[..at]) + Cells(c, signed)
  {
    ghost var cells := Cells(c, signed);
    if c < 16 {
      hex[at], hex[at + 1] := UpperDigit(c), 0;
    } else {
      var high, low := c / 16, c % 16;
      if c >= 0x80 && signed { high, low := 15, 15; }
      hex[at], hex[at + 1], hex[at + 2] := UpperDigit(high), UpperDigit(low), 0;
    }
    assert hex[at] == cells[0] && hex[at + 1] == cells[1];
    assert hex[..at + 2] == hex[..at] + cells;
  }

  /** `ascii2hexstr`; its buffer has room for two digits a character and the terminator. */
  method Ascii2HexStr(str: seq<Byte>, signed: bool, hex: array<Byte>)
    requires hex.Length >= 2 * |str| + 1
    modifies hex
    ensures hex[..2 * |str| + 1] == AllCells(str, signed) + [0]
  {
    var i := 0;
    while i < |str|
      invariant 0 <= i <= |str| && hex[..2 * i] == AllCells(str[..i], signed)
    {
      PrintChar(str[i], signed, hex, 2 * i);
      assert str[..i + 1][..i] == str[..i];
      i := i + 1;
    }
    assert str[..i] == str;
    hex[2 * |str|] := 0;
    assert hex[..2 * |str| + 1] == hex[..2 * |str|] + [0];
  }

  /** The string that the buffer then holds: it ends behind the first character below 0x10. */
  function Printed(str: seq<Byte>, signed: bool): seq<Byte> {
    if str == [] then []
    else if str[0] < 16 then [UpperDigit(str[0])]
    else Cells(str[0], signed) + Printed(str[1..], signed)
  }

  lemma {:induction false} AllCellsFirst(str: seq<Byte>, signed: bool)
    requires str != []
    ensures AllCells(str, signed) == Cells(str[0], signed) + AllCells(str[1..], signed)
  {
    var n := |str| - 1;
    if n == 0 {
      assert str[..0] == [] && str[1..] == [];
    } else {
      AllCellsFirst(str[..n], signed);
      assert str[..n][1..] == str[1..][..n - 1];
      Regroup(Cells(str[0], signed), AllCells(str[1..][..n - 1], signed), Cells(str[n], signed));
    }
  }

  lemma {:induction false} PrintedIsHeld(str: seq<Byte>, signed: bool)
    requires IsText(str)
    ensures CString(AllCells(str, signed) + [0]) == Printed(str, signed)
  {
    if str != [] {
      AllCellsFirst(str, signed);
      var rest := AllCells(str[1..], signed) + [0];
      PrintedIsHeld(str[1..], signed);
      assert AllCells(str, signed) + [0] == Cells(str[0], signed) + rest;
      HeldCells(str[0], signed, rest);
    }
  }

  lemma HeldCells(c: Byte, signed: bool, rest: seq<Byte>)
    requires c != 0
    ensures CString(Cells(c, signed) + rest) == if c < 16 then [UpperDigit(c)] else Cells(c, signed) + CString(rest)
  {
    var cells := Cells(c, signed) + rest;
    assert cells[1..] == [Cells(c, signed)[1]] + rest && cells[1..][1..] == rest;
  }

  /** Every character but the last needs two digits. */
  predicate TwoDigits(str: seq<Byte>) {
    forall i :: 0 <= i < |str| - 1 ==> str[i] >= 0x10
  }

  /** The two cells say which character it was. */
  predicate Tells(c: Byte, signed: bool) {
    c < 0x80 || !signed || c == 0xFF
  }

  predicate AllTell(str: seq<Byte>, signed: bool) {
    forall i :: 0 <= i < |str| ==> Tells(str[i], signed)
  }

  lemma ParsedCells(c: Byte, signed: bool, rest: seq<Byte>, room: nat)
    requires c >= 16 && room > 0
    ensures Parsed(Cells(c, signed) + rest, room) == [if Tells(c, signed) then c else 0xFF] + Parsed(rest, room - 1)
  {
    Behind(Cells(c, signed), rest);
  }

  /**
   Parsing undoes printing exactly if no character in front of the last is below 0x10 and every character
   prints as itself.
   */
  lemma {:induction false} ParsesPrinted(str: seq<Byte>, signed: bool, room: nat)
    requires IsText(str) && |str| <= room
    ensures Parsed(Printed(str, signed), room) == str <==> TwoDigits(str) && AllTell(str, signed)
  {
    if str != [] {
      var c, rest := str[0], str[1..];
      assert str == [c] + rest;
      if c >= 16 {
        ParsesPrinted(rest, signed, room - 1);
        ParsedCells(c, signed, Printed(rest, signed), room);
        TellsOneByOne(c, rest, signed);
        SameRest(if Tells(c, signed) then c else 0xFF, c, Parsed(Printed(rest, signed), room - 1), rest);
      } else {
        ParsedSmall(c, signed, rest, room);
      }
    }
  }

  /** A character of one digit ends the string, and the digit is read alone. */
  lemma ParsedSmall(c: Byte, signed: bool, rest: seq<Byte>, room: nat)
    requires c < 16 && room > 0
    ensures Parsed([UpperDigit(c)], room) == [c] + rest <==> TwoDigits([c] + rest) && AllTell([c] + rest, signed)
  {
    assert Parsed([UpperDigit(c)], room) == [c];
    assert ([c] + rest)[0] == c;
  }

  lemma SameRest(a: Byte, b: Byte, s: seq<Byte>, t: seq<Byte>)
    ensures [a] + s == [b] + t <==> a == b && s == t
  {
    assert ([a] + s)[0] == a && ([b] + t)[0] == b;
    Behind([a], s);
    Behind([b], t);
  }

  lemma TellsOneByOne(c: Byte, rest: seq<Byte>, signed: bool)
    requires c >= 16
    ensures TwoDigits([c] + rest) && AllTell([c] + rest, signed)
       <==> Tells(c, signed) && TwoDigits(rest) && AllTell(rest, signed)
  {
    var str := [c] + rest;
    assert str[0] == c && forall i :: 0 <= i < |rest| ==> rest[i] == str[i + 1];
    assert forall i :: 1 <= i < |str| ==> str[i] == rest[i - 1];
  }
}
