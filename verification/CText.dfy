/** The C string routines the control daemon leans on, as total functions on strings. */
module CText {

  datatype Option<+T> = None | Some(value: T)

  predicate StartsAt(s: string, i: nat, t: string) {
    i + |t| <= |s| && s[i..i + |t|] == t
  }

  /** `strstr(s, t) != NULL` */
  predicate Contains(s: string, t: string) {
    exists i :: 0 <= i <= |s| && StartsAt(s, i, t)
  }

  /** `strstr(s, t)`, as an index */
  function Find(s: string, t: string): (r: Option<nat>)
    ensures r.Some? ==> StartsAt(s, r.value, t)
  {
    if t <= s then Some(0)
    else if s == [] then None
    else match Find(s[1..], t)
      case None => None
      case Some(k) => StartsLater(s, k, t); Some(k + 1)
  }

  lemma StartsLater(s: string, k: nat, t: string)
    requires s != "" && StartsAt(s[1..], k, t)
    ensures StartsAt(s, k + 1, t)
  {
    var x, y := s[k + 1..k + 1 + |t|], s[1..][k..k + |t|];
    assert |x| == |y| && forall i :: 0 <= i < |x| ==> x[i] == y[i];
  }

  lemma {:induction false} FindIsContains(s: string, t: string)
    ensures Find(s, t).Some? <==> Contains(s, t)
    ensures Find(s, t).Some? ==> forall i: nat :: i < Find(s, t).value ==> !StartsAt(s, i, t)
  {
    if t <= s {
      assert StartsAt(s, 0, t);
    } else if s != [] {
      FindIsContains(s[1..], t);
      forall i: nat | 0 < i ensures StartsAt(s, i, t) <==> StartsAt(s[1..], i - 1, t) {
        if i + |t| <= |s| { assert s[i..i + |t|] == s[1..][i - 1..i - 1 + |t|]; }
      }
      assert !StartsAt(s, 0, t);
    }
  }

  /** `strchr(s, c)`, as an index */
  function IndexOf(s: string, c: char): (r: Option<nat>)
    ensures r.Some? ==> r.value < |s| && s[r.value] == c
  {
    if s == [] then None
    else if s[0] == c then Some(0)
    else match IndexOf(s[1..], c)
      case None => None
      case Some(k) => Some(k + 1)
  }

  lemma IndexOfIsFirst(s: string, c: char)
    ensures IndexOf(s, c).None? <==> c !in s
    ensures IndexOf(s, c).Some? ==> c !in s[..IndexOf(s, c).value]
  {
    if s != [] && s[0] != c {
      IndexOfIsFirst(s[1..], c);
      if IndexOf(s[1..], c).Some? {
        var k := IndexOf(s[1..], c).value;
        assert s[..k + 1] == [s[0]] + s[1..][..k];
      }
    }
  }

  lemma FirstIsIndexOf(s: string, c: char, k: nat)
    requires k < |s| && s[k] == c && forall i :: 0 <= i < k ==> s[i] != c
    ensures IndexOf(s, c) == Some(k)
  {
    if k > 0 { FirstIsIndexOf(s[1..], c, k - 1); }
  }

  /** The text behind the first blank of an event line, if there is a blank. */
  function Argument(line: string): Option<string>
  {
    match IndexOf(line, ' ')
    case None => None
    case Some(k) => Some(line[k + 1..])
  }

  /** It is indeed the first blank, and the text is all that is behind it. */
  lemma ArgumentIsBehindFirstBlank(line: string)
    ensures Argument(line).None? <==> ' ' !in line
    ensures Argument(line).Some? ==>
              exists k :: 0 <= k < |line| && ' ' !in line[..k] && line == line[..k] + [' '] + Argument(line).value
  {
    IndexOfIsFirst(line, ' ');
    if Argument(line).Some? {
      var k := IndexOf(line, ' ').value;
      assert line == line[..k] + [' '] + line[k + 1..];
    }
  }

  /** What a C string routine takes for the whole string: the text in front of the first NUL. */
  function UpToNul(s: string): string {
    match IndexOf(s, '\0')
    case None => s
    case Some(k) => s[..k]
  }

  lemma UpToNulIsText(s: string)
    ensures UpToNul(s) <= s && '\0' !in UpToNul(s)
    ensures UpToNul(s) != s ==> s[|UpToNul(s)|] == '\0'
  {
    IndexOfIsFirst(s, '\0');
  }

  function Lower(c: char): char {
    if 'A' <= c <= 'Z' then (c as int - 'A' as int + 'a' as int) as char else c
  }

  /** `strcasecmp(s, t) == 0` */
  predicate EqualsIgnoreCase(s: string, t: string) {
    |s| == |t| && forall i :: 0 <= i < |s| ==> Lower(s[i]) == Lower(t[i])
  }

  predicate IsDigit(c: char) { '0' <= c <= '9' }

  /** `isspace` */
  predicate IsSpace(c: char) { c == ' ' || '\t' <= c <= '\r' }

  /** `atoi` without its undefined overflow: white space, a sign, then the leading digits. */
  function Atoi(s: string): int {
    if s == [] then 0
    else if IsSpace(s[0]) then Atoi(s[1..])
    else if s[0] == '-' then 0 - Digits(s[1..], 0)
    else if s[0] == '+' then Digits(s[1..], 0)
    else Digits(s, 0)
  }

  function Digits(s: string, acc: nat): nat {
    if s == [] || !IsDigit(s[0]) then acc
    else Digits(s[1..], acc * 10 + (s[0] as int - '0' as int))
  }

  function DigitChar(d: nat): (c: char)
    requires d < 10
    ensures IsDigit(c) && c as int - '0' as int == d
  {
    '0' + d as char
  }

  function Decimal(n: nat): (s: string)
    ensures s != "" && forall i :: 0 <= i < |s| ==> IsDigit(s[i])
  {
    if n < 10 then [DigitChar(n)] else Decimal(n / 10) + [DigitChar(n % 10)]
  }

  lemma {:induction false} DigitsJoined(a: string, b: string, acc: nat)
    requires forall i :: 0 <= i < |a| ==> IsDigit(a[i])
    ensures Digits(a + b, acc) == Digits(b, Digits(a, acc))
  {
    if a == "" {
      assert a + b == b;
    } else {
      assert (a + b)[1..] == a[1..] + b && IsDigit(a[0]);
      DigitsJoined(a[1..], b, acc * 10 + (a[0] as int - '0' as int));
    }
  }

  lemma {:induction false} DigitsOfDecimal(n: nat)
    ensures Digits(Decimal(n), 0) == n
  {
    if n < 10 {
      assert Decimal(n)[1..] == "";
    } else {
      DigitsOfDecimal(n / 10);
      DigitsJoined(Decimal(n / 10), [DigitChar(n % 10)], 0);
      assert [DigitChar(n % 10)][1..] == "";
      assert Digits([DigitChar(n % 10)], n / 10) == Digits("", n / 10 * 10 + n % 10);
    }
  }

  /** A printed number is read back, with a sign and white space in front, up to the first other character. */
  lemma AtoiReadsDecimal(n: nat, rest: string, space: char)
    requires (rest != "" ==> !IsDigit(rest[0])) && IsSpace(space)
    ensures Atoi(Decimal(n) + rest) == n && Atoi("-" + (Decimal(n) + rest)) == 0 - n
    ensures Atoi([space] + (Decimal(n) + rest)) == n
  {
    var s := Decimal(n) + rest;
    DigitsOfDecimal(n);
    DigitsJoined(Decimal(n), rest, 0);
    assert s[0] == Decimal(n)[0] && IsDigit(s[0]);
    assert ("-" + s)[1..] == s && ([space] + s)[1..] == s;
  }

  function HexDigit(c: char): (r: Option<nat>)
    ensures r.Some? ==> r.value < 16
  {
    if '0' <= c <= '9' then Some(c as int - '0' as int)
    else if 'a' <= c <= 'f' then Some(c as int - 'a' as int + 10)
    else if 'A' <= c <= 'F' then Some(c as int - 'A' as int + 10)
    else None
  }

  /** `parse_hexstr(hex, buf, room)`: at most `room` characters, None for the -1 return. */
  function ParseHexstr(hex: string, room: nat): (r: Option<string>)
    ensures r.Some? ==> |r.value| <= room && (|r.value| < room ==> |hex| == 2 * |r.value|)
  {
    if room == 0 || hex == [] then Some([])
    else if |hex| == 1 || HexDigit(hex[0]).None? || HexDigit(hex[1]).None? then None
    else
      match ParseHexstr(hex[2..], room - 1)
      case None => None
      case Some(rest) => Some([(HexDigit(hex[0]).value * 16 + HexDigit(hex[1]).value) as char] + rest)
  }

  function HexChar(d: nat): (c: char)
    requires d < 16
    ensures HexDigit(c) == Some(d)
  {
    if d < 10 then '0' + d as char else 'a' + (d - 10) as char
  }

  predicate IsBytes(s: string) {
    forall i :: 0 <= i < |s| ==> s[i] as int < 256
  }

  /** Two digits for every character, the upper half first. */
  function HexString(s: string): (hex: string)
    requires IsBytes(s)
    ensures |hex| == 2 * |s|
  {
    if s == "" then "" else [HexChar(s[0] as int / 16), HexChar(s[0] as int % 16)] + HexString(s[1..])
  }

  /** Printed characters are parsed back, as many as there is room for. */
  lemma {:induction false} ParsesHexString(s: string, room: nat)
    requires IsBytes(s)
    ensures ParseHexstr(HexString(s), room) == Some(if |s| <= room then s else s[..room])
  {
    if s != "" && room > 0 {
      var hex := HexString(s);
      ParsesHexString(s[1..], room - 1);
      assert hex[2..] == HexString(s[1..]) && HexDigit(hex[0]) == Some(s[0] as int / 16);
      assert s == [s[0]] + s[1..];
      if |s| > room { assert s[..room] == [s[0]] + s[1..][..room - 1]; }
    }
  }
}
