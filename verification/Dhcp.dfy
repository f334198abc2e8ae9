/** The option scanner of the DHCP acknowledgement listener, and what it decides. */
module Dhcp {
  import opened Bytes
  import opened CText

  const SUBNET_MASK: Byte := 1
  const ROUTER: Byte := 3
  const MSG_TYPE: Byte := 53
  const ACK: Byte := 5

  // --------------------------------------------------------------- lists of options

  datatype Opt = Opt(code: Byte, value: seq<Byte>)

  predicate Encodable(opts: seq<Opt>) {
    forall i :: 0 <= i < |opts| ==> |opts[i].value| < 0x100
  }

  function EncodedOpt(opt: Opt): (r: seq<Byte>)
    requires |opt.value| < 0x100
    ensures |r| == 2 + |opt.value|
  {
    [opt.code, |opt.value|] + opt.value
  }

  /** Type, length and value of every option, one after the other. */
  function Encoded(opts: seq<Opt>): seq<Byte>
    requires Encodable(opts)
  {
    if opts == [] then [] else EncodedOpt(opts[0]) + Encoded(opts[1..])
  }

  /** A whole option is in front. */
  predicate Whole(bytes: seq<Byte>) {
    |bytes| >= 2 && 2 + bytes[1] <= |bytes|
  }

  function Size(bytes: seq<Byte>): (n: nat)
    requires Whole(bytes)
    ensures 2 <= n <= |bytes|
  {
    bytes[1] as int + 2
  }

  function FirstOpt(bytes: seq<Byte>): (opt: Opt)
    requires Whole(bytes)
    ensures |opt.value| < 0x100
  {
    Opt(bytes[0], bytes[2..Size(bytes)])
  }

  /** The options in the longest well-formed prefix. */
  function Decoded(bytes: seq<Byte>): seq<Opt> {
    if Whole(bytes) then [FirstOpt(bytes)] + Decoded(bytes[Size(bytes)..]) else []
  }

  /** What is left behind them. */
  function Rest(bytes: seq<Byte>): seq<Byte> {
    if Whole(bytes) then Rest(bytes[Size(bytes)..]) else bytes
  }

  lemma WholeIsEncoded(bytes: seq<Byte>)
    requires Whole(bytes)
    ensures EncodedOpt(FirstOpt(bytes)) + bytes[Size(bytes)..] == bytes
  {}

  lemma EncodedIsWhole(opt: Opt, rest: seq<Byte>)
    requires |opt.value| < 0x100
    ensures var bytes := EncodedOpt(opt) + rest;
            Whole(bytes) && FirstOpt(bytes) == opt && bytes[Size(bytes)..] == rest
  {
    Behind(EncodedOpt(opt), rest);
  }

  /** Decoding takes all whole options, and what it takes is their encoding. */
  lemma {:induction false} DecodedIsPrefix(bytes: seq<Byte>)
    ensures Encodable(Decoded(bytes)) && Encoded(Decoded(bytes)) + Rest(bytes) == bytes && !Whole(Rest(bytes))
    decreases |bytes|
  {
    if Whole(bytes) {
      var opt, more := FirstOpt(bytes), bytes[Size(bytes)..];
      DecodedIsPrefix(more);
      Regroup(EncodedOpt(opt), Encoded(Decoded(more)), Rest(more));
      WholeIsEncoded(bytes);
      assert Decoded(bytes)[0] == opt && Decoded(bytes)[1..] == Decoded(more);
    }
  }

  /** An encoded list in front of anything that is no whole option decodes to that list. */
  lemma {:induction false} EncodedIsDecoded(opts: seq<Opt>, rest: seq<Byte>)
    requires Encodable(opts) && !Whole(rest)
    ensures Decoded(Encoded(opts) + rest) == opts && Rest(Encoded(opts) + rest) == rest
  {
    if opts == [] {
      assert [] + rest == rest;
    } else {
      var more := Encoded(opts[1..]) + rest;
      Regroup(EncodedOpt(opts[0]), Encoded(opts[1..]), rest);
      EncodedIsDecoded(opts[1..], rest);
      EncodedIsWhole(opts[0], more);
    }
  }

  // ------------------------------------------------------------------- the scanner

  /** The value of the first option of a type in a list. */
  function Lookup(opts: seq<Opt>, code: Byte): (v: Option<seq<Byte>>)
    ensures v.None? <==> forall i :: 0 <= i < |opts| ==> opts[i].code != code
    ensures v.Some? ==> Opt(code, v.value) in opts
  {
    if opts == [] then None
    else if opts[0].code == code then Some(opts[0].value)
    else Lookup(opts[1..], code)
  }

  /** What the whole options in front of `end` say about a type. */
  function Scanned(bytes: seq<Byte>, code: Byte): Option<seq<Byte>> {
    Lookup(Decoded(bytes), code)
  }

  lemma ScanFirst(bytes: seq<Byte>, code: Byte)
    ensures Scanned(bytes, code) ==
            if !Whole(bytes) then None
            else if bytes[0] == code then Some(bytes[2..Size(bytes)])
            else Scanned(bytes[Size(bytes)..], code)
  {
    if Whole(bytes) {
      Behind([FirstOpt(bytes)], Decoded(bytes[Size(bytes)..]));
    }
  }

  /** On an encoded list the scan is list lookup. */
  lemma ScanIsLookup(opts: seq<Opt>, rest: seq<Byte>, code: Byte)
    requires Encodable(opts) && !Whole(rest)
    ensures Scanned(Encoded(opts) + rest, code) == Lookup(opts, code)
  {
    EncodedIsDecoded(opts, rest);
  }

  /** A whole option lies between two places of a buffer. */
  predicate WholeAt(buf: seq<Byte>, pos: nat, end: nat) {
    end <= |buf| && pos + 2 <= end && pos + 2 + buf[pos + 1] as int <= end
  }

  function NextAt(buf: seq<Byte>, pos: nat, end: nat): (next: nat)
    requires WholeAt(buf, pos, end)
    ensures pos + 2 <= next <= end
  {
    pos + 2 + buf[pos + 1] as int
  }

  /** Where the first option of a type starts, among the whole ones between two places. */
  function Position(buf: seq<Byte>, pos: nat, end: nat, code: Byte): (at: Option<nat>)
    ensures at.Some? ==> pos <= at.value && WholeAt(buf, at.value, end) && buf[at.value] == code
    decreases end - pos
  {
    if !WholeAt(buf, pos, end) then None
    else if buf[pos] == code then Some(pos)
    else Position(buf, NextAt(buf, pos, end), end, code)
  }

  function ValueAt(buf: seq<Byte>, at: nat, end: nat): seq<Byte>
    requires WholeAt(buf, at, end)
  {
    buf[at + 2..NextAt(buf, at, end)]
  }

  lemma SliceAt(buf: seq<Byte>, pos: nat, end: nat)
    requires pos <= end <= |buf|
    ensures Whole(buf[pos..end]) <==> WholeAt(buf, pos, end)
    ensures Whole(buf[pos..end]) ==>
            var bytes := buf[pos..end];
            && bytes[0] == buf[pos] && bytes[2..Size(bytes)] == ValueAt(buf, pos, end)
            && bytes[Size(bytes)..] == buf[NextAt(buf, pos, end)..end]
  {
    if WholeAt(buf, pos, end) {
      var n := NextAt(buf, pos, end) - pos;
      SliceOfSlice(buf, pos, end, 2, n);
      assert buf[pos..end][n..] == buf[pos + n..end];
    }
  }

  /** There lies what the list has first for the type; without a position the list has nothing. */
  lemma {:induction false} PositionIsLookup(buf: seq<Byte>, pos: nat, end: nat, code: Byte)
    requires pos <= end <= |buf|
    ensures Scanned(buf[pos..end], code) ==
            match Position(buf, pos, end, code) case None => None case Some(at) => Some(ValueAt(buf, at, end))
    decreases end - pos
  {
    ScanFirst(buf[pos..end], code);
    SliceAt(buf, pos, end);
    if WholeAt(buf, pos, end) && buf[pos] != code {
      PositionIsLookup(buf, NextAt(buf, pos, end), end, code);
    }
  }

  /** `get_dhcp_option` */
  method GetDhcpOption(buf: array<Byte>, options: nat, code: Byte, len: nat) returns (at: Option<nat>)
    requires options + len <= buf.Length
    ensures at == Position(buf[..], options, options + len, code)
  {
    var pos, end := options, options + len;
    while pos < end && pos + 1 < end && pos + 2 + buf[pos + 1] <= end
      invariant options <= pos <= end
      invariant Position(buf[..], pos, end, code) == Position(buf[..], options, end, code)
      decreases end - pos
    {
      if buf[pos] == code { return Some(pos); }
      pos := pos + 2 + buf[pos + 1];
    }
    return None;
  }

  // --------------------------------------------------------------- acknowledgements

  /** Where the options and the offered address are in a received frame. */
  const OPTIONS: nat := 282
  const YOUR_IP: nat := 58

  /** What is shorter is ignored. */
  const SHORTEST: nat := 314

  /** `memcpy` of an option value to an address: what is not written keeps its octets. */
  function Overlaid(ip: seq<Byte>, value: seq<Byte>): (r: seq<Byte>)
    requires |value| <= |ip| == 4
    ensures |r| == 4 && r[..|value|] == value && r[|value|..] == ip[|value|..]
    ensures |value| == 4 ==> r == value
  {
    value + ip[|value|..]
  }

  /** Address, netmask and router to be set. */
  datatype Configuration = Configuration(ip: seq<Byte>, mask: seq<Byte>, router: seq<Byte>)

  /** What a frame leads to; Overrun is a copy of more octets than an address has, or a read behind a full buffer. */
  datatype Outcome = Ignored | Overrun | Taken(configuration: Configuration)

  /** Copying the value of one option over an address. */
  datatype Copied = Missing | TooLong | Copied(address: seq<Byte>)

  function Copy(ip: seq<Byte>, value: Option<seq<Byte>>): (c: Copied)
    requires |ip| == 4
    ensures c.Copied? ==> |c.address| == 4
  {
    match value
    case None => Missing
    case Some(v) => if |v| > 4 then TooLong else Copied.Copied(Overlaid(ip, v))
  }

  /** The message type option has no value and is the last thing that fits the buffer. */
  predicate TypeIsOutside(buf: seq<Byte>, end: nat) {
    var at := Position(buf, OPTIONS, end, MSG_TYPE);
    at.Some? && at.value + 2 == |buf|
  }

  /** The octet that is read as the message type: it is behind the option if that has no value. */
  function MessageType(buf: seq<Byte>, end: nat): Option<Byte>
    requires !TypeIsOutside(buf, end)
  {
    match Position(buf, OPTIONS, end, MSG_TYPE) case None => None case Some(at) => Some(buf[at + 2])
  }

  /** It is the first octet of the value, if there is one; only without one can it be outside of a full buffer. */
  lemma MessageTypeIsValue(buf: seq<Byte>, end: nat)
    requires OPTIONS <= end <= |buf|
    ensures var value := Scanned(buf[OPTIONS..end], MSG_TYPE);
            && (TypeIsOutside(buf, end) ==> value == Some([]) && end == |buf|)
            && (!TypeIsOutside(buf, end) ==> (value.None? <==> MessageType(buf, end).None?))
            && (value.Some? && |value.value| > 0 ==>
                  !TypeIsOutside(buf, end) && MessageType(buf, end) == Some(value.value[0]))
  {
    PositionIsLookup(buf, OPTIONS, end, MSG_TYPE);
  }

  /** The address of one option, written over another address. */
  method ReadAddress(buf: array<Byte>, len: nat, code: Byte, ip: seq<Byte>) returns (r: Copied)
    requires OPTIONS + len <= buf.Length && |ip| == 4
    ensures r == Copy(ip, Scanned(buf[..][OPTIONS..OPTIONS + len], code))
  {
    var at := GetDhcpOption(buf, OPTIONS, code, len);
    PositionIsLookup(buf[..], OPTIONS, OPTIONS + len, code);
    if at.None? { return Missing; }
    if buf[at.value + 1] > 4 { return TooLong; }
    var value := buf[at.value + 2..at.value + 2 + buf[at.value + 1]];
    assert value == ValueAt(buf[..], at.value, OPTIONS + len);
    return Copied.Copied(Overlaid(ip, value));
  }

  /** What a frame leads to that ends at `end` of the buffer. */
  function OutcomeOf(buf: seq<Byte>, end: nat): Outcome
    requires SHORTEST <= end <= |buf|
  {
    var ip := buf[YOUR_IP..YOUR_IP + 4];
    if TypeIsOutside(buf, end) then Overrun
    else if MessageType(buf, end) != Some(ACK) then Ignored
    else
      match Copy(ip, Scanned(buf[OPTIONS..end], SUBNET_MASK))
      case Missing => Ignored
      case TooLong => Overrun
      case Copied(mask) =>
        match Copy(mask, Scanned(buf[OPTIONS..end], ROUTER))
        case Missing => Ignored
        case TooLong => Overrun
        case Copied(router) => Taken(Configuration(ip, mask, router))
  }

  /** One turn of the listening loop of `process_dhcp_ack`, for a frame of nbytes. */
  method ProcessMessage(buf: array<Byte>, nbytes: nat) returns (r: Outcome)
    requires nbytes <= buf.Length
    ensures r == if nbytes < SHORTEST then Ignored else OutcomeOf(buf[..], nbytes)
  {
    if nbytes < SHORTEST { return Ignored; }
    var len := nbytes - OPTIONS;
    var msgType := GetDhcpOption(buf, OPTIONS, MSG_TYPE, len);
    if msgType.None? { return Ignored; }
    if msgType.value + 2 == buf.Length { return Overrun; }
    if buf[msgType.value + 2] != ACK { return Ignored; }
    var ip := buf[..][YOUR_IP..YOUR_IP + 4];
    var mask := ReadAddress(buf, len, SUBNET_MASK, ip);
    if !mask.Copied? { return if mask.Missing? then Ignored else Overrun; }
    var router := ReadAddress(buf, len, ROUTER, mask.address);
    if !router.Copied? { return if router.Missing? then Ignored else Overrun; }
    return Taken(Configuration(ip, mask.address, router.address));
  }

  /** The value of the first option of a type, if there is one, is no longer than an address. */
  predicate FitsAddress(value: Option<seq<Byte>>) {
    value.Some? ==> |value.value| <= 4
  }

  /**
   The copies of an acknowledgement stay inside the address exactly if the first netmask has at most four
   octets, and the first router as well, which is copied if there is a netmask.
   */
  lemma CopiesStayInside(buf: seq<Byte>, end: nat)
    requires SHORTEST <= end <= |buf| && !TypeIsOutside(buf, end) && MessageType(buf, end) == Some(ACK)
    ensures var mask, router := Scanned(buf[OPTIONS..end], SUBNET_MASK), Scanned(buf[OPTIONS..end], ROUTER);
            && (!OutcomeOf(buf, end).Overrun? <==> FitsAddress(mask) && (mask.Some? ==> FitsAddress(router)))
            && (OutcomeOf(buf, end).Taken? <==> mask.Some? && router.Some? && FitsAddress(mask) && FitsAddress(router))
  {}

  /** An acknowledgement as a server encodes it, with four-octet addresses, gives just these addresses. */
  lemma AcknowledgementIsTaken(buf: seq<Byte>, end: nat, opts: seq<Opt>, rest: seq<Byte>)
    requires 314 <= end <= |buf| && Encodable(opts) && !Whole(rest) && buf[282..end] == Encoded(opts) + rest
    requires var t, m, r := Lookup(opts, 53), Lookup(opts, 1), Lookup(opts, 3);
             t.Some? && |t.value| == 1 && m.Some? && |m.value| == 4 && r.Some? && |r.value| == 4
    ensures OutcomeOf(buf, end) ==
            if Lookup(opts, 53).value[0] == 5
            then Taken(Configuration(buf[58..62], Lookup(opts, 1).value, Lookup(opts, 3).value)) else Ignored
  {
    ScanIsLookup(opts, rest, MSG_TYPE);
    ScanIsLookup(opts, rest, SUBNET_MASK);
    ScanIsLookup(opts, rest, ROUTER);
    MessageTypeIsValue(buf, end);
  }
}
