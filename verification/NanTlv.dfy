/** The type-length-value data that NAN data paths carry, and the receiver of the address in it. */
module NanTlv {
  import opened Buffers
  import opened Bytes

  const IPV6_LINK_LOCAL: Byte := 0x00
  const SERVICE_INFO: Byte := 0x01
  const PROTO_GENERIC: Byte := 0x02
  const TRANS_PORT: Byte := 0x00
  const TRANS_PROTO: Byte := 0x01
  const WFA_OUI: seq<Byte> := [0x50, 0x6f, 0x9a]
  const HEADER_SIZE := 3
  const INTF_ID_LEN := 8
  const LINK_LOCAL_MSB: seq<Byte> := [0xFE, 0x80, 0x00, 0x00, 0x00, 0x00, 0x00, 0x00]

  // ------------------------------------------------------ the format on values

  datatype Tlv = Tlv(kind: Byte, value: seq<Byte>)

  predicate Fits(t: Tlv) { |t.value| < 0x10000 }

  predicate AllFit(ts: seq<Tlv>) { forall i :: 0 <= i < |ts| ==> Fits(ts[i]) }

  function Encode(t: Tlv): (r: seq<Byte>)
    requires Fits(t)
    ensures |r| == HEADER_SIZE + |t.value|
  {
    [t.kind, Low(|t.value|), High(|t.value|)] + t.value
  }

  function EncodeAll(ts: seq<Tlv>): seq<Byte>
    requires AllFit(ts)
  {
    if ts == [] then [] else Encode(ts[0]) + EncodeAll(ts[1..])
  }

  datatype Decoded = Malformed | Elements(tlvs: seq<Tlv>)

  /** A whole element is in front. */
  predicate Headed(bytes: seq<Byte>) {
    |bytes| >= HEADER_SIZE && HEADER_SIZE + Le16(bytes[1], bytes[2]) <= |bytes|
  }

  function Head(bytes: seq<Byte>): Tlv
    requires Headed(bytes)
  {
    Tlv(bytes[0], bytes[HEADER_SIZE..HEADER_SIZE + Le16(bytes[1], bytes[2])])
  }

  function Tail(bytes: seq<Byte>): (r: seq<Byte>)
    requires Headed(bytes)
    ensures |r| < |bytes|
  {
    bytes[HEADER_SIZE + Le16(bytes[1], bytes[2])..]
  }

  function Prepend(t: Tlv, d: Decoded): Decoded {
    match d case Malformed => Malformed case Elements(ts) => Elements([t] + ts)
  }

  /** A generic reader of such data: headers and lengths, nothing else. */
  function DecodeAll(bytes: seq<Byte>): Decoded
    decreases |bytes|
  {
    if bytes == [] then Elements([])
    else if !Headed(bytes) then Malformed
    else Prepend(Head(bytes), DecodeAll(Tail(bytes)))
  }

  lemma DecodesFirst(t: Tlv, rest: seq<Byte>)
    requires Fits(t)
    ensures DecodeAll(Encode(t) + rest) == Prepend(t, DecodeAll(rest))
  {
    var bytes := Encode(t) + rest;
    LowAndHigh(|t.value|);
    assert Tail(bytes) == rest;
    assert Head(bytes).value == t.value;
  }

  lemma EncodesHead(bytes: seq<Byte>)
    requires Headed(bytes)
    ensures Fits(Head(bytes)) && Encode(Head(bytes)) + Tail(bytes) == bytes
  {
    var t := Head(bytes);
    LowAndHigh(|t.value|);
    SameNumber(bytes[1], bytes[2], Low(|t.value|), High(|t.value|));
  }

  lemma SameNumber(lo: Byte, hi: Byte, lo': Byte, hi': Byte)
    requires Le16(lo, hi) == Le16(lo', hi')
    ensures lo == lo' && hi == hi'
  {}

  /** Reading gives back what was written. */
  lemma {:induction false} DecodesEncoded(ts: seq<Tlv>)
    requires AllFit(ts)
    ensures DecodeAll(EncodeAll(ts)) == Elements(ts)
  {
    if ts != [] {
      DecodesEncoded(ts[1..]);
      DecodesFirst(ts[0], EncodeAll(ts[1..]));
      assert [ts[0]] + ts[1..] == ts;
    }
  }

  /** What can be read is what would be written for it. */
  lemma {:induction false} EncodesDecoded(bytes: seq<Byte>)
    requires DecodeAll(bytes).Elements?
    ensures AllFit(DecodeAll(bytes).tlvs) && EncodeAll(DecodeAll(bytes).tlvs) == bytes
    decreases |bytes|
  {
    if bytes != [] {
      EncodesDecoded(Tail(bytes));
      EncodesHead(bytes);
      EncodeFirst(Head(bytes), DecodeAll(Tail(bytes)).tlvs);
    }
  }

  lemma EncodeFirst(t: Tlv, ts: seq<Tlv>)
    requires Fits(t) && AllFit(ts)
    ensures AllFit([t] + ts) && EncodeAll([t] + ts) == Encode(t) + EncodeAll(ts)
  {
    assert ([t] + ts)[1..] == ts;
  }

  lemma EncodeTwo(a: Tlv, b: Tlv)
    requires Fits(a) && Fits(b)
    ensures EncodeAll([a]) == Encode(a) && EncodeAll([a, b]) == Encode(a) + Encode(b)
  {
    assert [a, b][1..] == [b] && [b][1..] == [] && [a][1..] == [];
  }

  // ---------------------------------------------------------- service info

  /** The optional port and protocol of `NdpIpTransParams`, in the host's byte order. */
  datatype TransParams = TransParams(port: seq<Byte>, hasPort: bool, proto: seq<Byte>, hasProto: bool)

  function SubAttrs(p: TransParams): seq<Tlv> {
    (if p.hasPort then [Tlv(TRANS_PORT, p.port)] else []) + (if p.hasProto then [Tlv(TRANS_PROTO, p.proto)] else [])
  }

  /** The size of the attribute's value: OUI, protocol type and sub-attributes. */
  function BodySize(p: TransParams): nat {
    |WFA_OUI| + 1
    + (if p.hasPort then HEADER_SIZE + |p.port| else 0)
    + (if p.hasProto then HEADER_SIZE + |p.proto| else 0)
  }

  function ServiceInfo(p: TransParams): Tlv
    requires AllFit(SubAttrs(p))
  {
    Tlv(SERVICE_INFO, WFA_OUI + [PROTO_GENERIC] + EncodeAll(SubAttrs(p)))
  }

  lemma BodySizeIsSize(p: TransParams)
    ensures BodySize(p) < 0x10000 ==> AllFit(SubAttrs(p))
    ensures AllFit(SubAttrs(p)) ==> |ServiceInfo(p).value| == BodySize(p)
  {
    if BodySize(p) < 0x10000 {
      assert forall t :: t in SubAttrs(p) ==> Fits(t);
    }
    if AllFit(SubAttrs(p)) {
      SubAttrsEncoded(p);
    }
  }

  datatype Service = NoService | Service(oui: seq<Byte>, protocol: Byte, subAttrs: seq<Tlv>)

  /** A reader of the service info value, with the generic reader for what is nested in it. */
  function ReadService(value: seq<Byte>): Service {
    if |value| < 4 then NoService
    else
      match DecodeAll(value[4..])
      case Malformed => NoService
      case Elements(subs) => Service(value[..3], value[3], subs)
  }

  // ---------------------------------------------------------------- writers

  /** `nan_build_service_info_tlv_sub_attr` */
  method BuildSubAttr(buf: array<Byte>, at: nat, value: seq<Byte>, id: Byte) returns (size: nat)
    requires |value| < 0x10000 && at + HEADER_SIZE + |value| <= buf.Length
    modifies buf
    ensures buf[..] == Put(old(buf[..]), at, Encode(Tlv(id, value)))
    ensures size == HEADER_SIZE + |value|
  {
    buf[at] := id;
    buf[at + 1] := |value| % 0x100;
    buf[at + 2] := |value| / 0x100;
    ghost var header := [id, Low(|value|), High(|value|)];
    assert buf[..] == Put(old(buf[..]), at, header);
    CopyIn(buf, at + 3, value);
    PutNext(old(buf[..]), at, header, value);
    size := |value| + HEADER_SIZE;
  }

  /** `nan_build_ipv6_link_local_tlv`: only the interface id of the address is sent. */
  method BuildLinkLocal(buf: array<Byte>, at: nat, addr: seq<Byte>) returns (size: nat)
    requires |addr| == 16 && at + HEADER_SIZE + INTF_ID_LEN <= buf.Length
    modifies buf
    ensures buf[..] == Put(old(buf[..]), at, Encode(Tlv(IPV6_LINK_LOCAL, addr[8..])))
    ensures size == HEADER_SIZE + INTF_ID_LEN
  {
    size := BuildSubAttr(buf, at, addr[INTF_ID_LEN..], IPV6_LINK_LOCAL);
  }

  /** The size the builder reports, in its 16-bit arithmetic. */
  function ReportedSize(p: TransParams): nat {
    if p.hasPort || p.hasProto then (BodySize(p) + HEADER_SIZE) % 0x10000 else 0
  }

  /**
   `nan_build_service_info_tlv`, for a value that fits the length field: the attribute
   is complete and its back-patched length is right.
   */
  method BuildServiceInfo(buf: array<Byte>, at: nat, p: TransParams) returns (size: nat)
    requires BodySize(p) < 0x10000 && at + HEADER_SIZE + BodySize(p) <= buf.Length
    modifies buf
    ensures size == ReportedSize(p)
    ensures Fits(ServiceInfo(p)) && |ServiceInfo(p).value| == BodySize(p)
    ensures buf[..] == if p.hasPort || p.hasProto then Put(old(buf[..]), at, Encode(ServiceInfo(p))) else old(buf[..])
  {
    BodySizeIsSize(p);
    if !p.hasPort && !p.hasProto { return 0; }
    ghost var s0 := buf[..];
    var tlvLen := WriteBody(buf, at, p);
    ghost var body := ServiceInfo(p).value;
    ghost var gap := [s0[at + 1], s0[at + 2]];
    ghost var length := [Low(tlvLen), High(tlvLen)];
    ghost var filled := buf[..];
    PatchLength(buf, at + 1, tlvLen);
    assert buf[..] == Put(filled, at + 1, length);
    PutInside(s0, at, [SERVICE_INFO], gap, length, body);
    assert Encode(ServiceInfo(p)) == [SERVICE_INFO] + length + body;
    size := (tlvLen + HEADER_SIZE) % 0x10000;
  }

  /** Two octets, low one first. */
  method PatchLength(buf: array<Byte>, at: nat, len: nat)
    requires len < 0x10000 && at + 2 <= buf.Length
    modifies buf
    ensures buf[..] == Put(old(buf[..]), at, [Low(len), High(len)])
  {
    buf[at] := len % 0x100;
    buf[at + 1] := len / 0x100;
  }

  /** Everything but the length field, which is left as it was. */
  method WriteBody(buf: array<Byte>, at: nat, p: TransParams) returns (tlvLen: nat)
    requires p.hasPort || p.hasProto
    requires BodySize(p) < 0x10000 && at + HEADER_SIZE + BodySize(p) <= buf.Length
    modifies buf
    ensures tlvLen == BodySize(p) == |ServiceInfo(p).value|
    ensures buf[..] == Put(old(buf[..]), at,
                           [SERVICE_INFO] + [old(buf[at + 1]), old(buf[at + 2])] + ServiceInfo(p).value)
  {
    ghost var s0 := buf[..];
    ghost var gap := [s0[at + 1], s0[at + 2]];
    ghost var front := [SERVICE_INFO] + gap + WFA_OUI + [PROTO_GENERIC];
    tlvLen := WriteFront(buf, at);
    BodySizeIsSize(p);
    ghost var subs := EncodeAll(SubAttrs(p));
    var len := AppendSubAttrs(buf, at + 7, p);
    PutNext(s0, at, front, subs);
    BodyBehindFront(gap, subs);
    tlvLen := tlvLen + len;
  }

  lemma BodyBehindFront(gap: seq<Byte>, subs: seq<Byte>)
    ensures [SERVICE_INFO] + gap + WFA_OUI + [PROTO_GENERIC] + subs ==
            [SERVICE_INFO] + gap + (WFA_OUI + [PROTO_GENERIC] + subs)
  {}

  /** Attribute id, OUI and protocol type; counts what belongs to the value. */
  method WriteFront(buf: array<Byte>, at: nat) returns (tlvLen: nat)
    requires at + 7 <= buf.Length
    modifies buf
    ensures tlvLen == |WFA_OUI| + 1
    ensures buf[..] == Put(old(buf[..]), at,
                           [SERVICE_INFO] + [old(buf[at + 1]), old(buf[at + 2])] + WFA_OUI + [PROTO_GENERIC])
  {
    ghost var s0 := buf[..];
    ghost var gap := [s0[at + 1], s0[at + 2]];
    buf[at] := SERVICE_INFO;
    assert buf[..] == Put(s0, at, [SERVICE_INFO] + gap);
    CopyIn(buf, at + 3, WFA_OUI);
    PutNext(s0, at, [SERVICE_INFO] + gap, WFA_OUI);
    ghost var s1 := buf[..];
    buf[at + 6] := PROTO_GENERIC;
    assert buf[..] == Put(s1, at + 6, [PROTO_GENERIC]);
    PutNext(s0, at, [SERVICE_INFO] + gap + WFA_OUI, [PROTO_GENERIC]);
    tlvLen := |WFA_OUI| + 1;
  }

  /** The two optional sub-attributes, one behind the other. */
  method AppendSubAttrs(buf: array<Byte>, at: nat, p: TransParams) returns (size: nat)
    requires BodySize(p) < 0x10000 && at + BodySize(p) - 4 <= buf.Length
    modifies buf
    ensures size == BodySize(p) - 4 == |EncodeAll(SubAttrs(p))|
    ensures buf[..] == Put(old(buf[..]), at, EncodeAll(SubAttrs(p)))
  {
    ghost var s0 := buf[..];
    BodySizeIsSize(p);
    SubAttrsEncoded(p);
    var len := AppendIf(buf, at, p.hasPort, p.port, TRANS_PORT);
    size := len;
    len := AppendIf(buf, at + size, p.hasProto, p.proto, TRANS_PROTO);
    size := size + len;
    PutNext(s0, at, EncodedIf(p.hasPort, p.port, TRANS_PORT), EncodedIf(p.hasProto, p.proto, TRANS_PROTO));
  }

  function EncodedIf(present: bool, value: seq<Byte>, id: Byte): seq<Byte>
    requires present ==> |value| < 0x10000
  {
    if present then Encode(Tlv(id, value)) else []
  }

  method AppendIf(buf: array<Byte>, at: nat, present: bool, value: seq<Byte>, id: Byte) returns (size: nat)
    requires present ==> |value| < 0x10000 && at + HEADER_SIZE + |value| <= buf.Length
    requires at <= buf.Length
    modifies buf
    ensures size == |EncodedIf(present, value, id)|
    ensures at + size <= buf.Length && buf[..] == Put(old(buf[..]), at, EncodedIf(present, value, id))
  {
    size := 0;
    if present {
      size := BuildSubAttr(buf, at, value, id);
    }
  }

  lemma SubAttrsEncoded(p: TransParams)
    requires AllFit(SubAttrs(p))
    ensures p.hasPort ==> |p.port| < 0x10000
    ensures p.hasProto ==> |p.proto| < 0x10000
    ensures EncodeAll(SubAttrs(p)) ==
            EncodedIf(p.hasPort, p.port, TRANS_PORT) + EncodedIf(p.hasProto, p.proto, TRANS_PROTO)
  {
    var a, b := Tlv(TRANS_PORT, p.port), Tlv(TRANS_PROTO, p.proto);
    if p.hasPort && p.hasProto {
      assert SubAttrs(p)[0] == a && SubAttrs(p)[1] == b && SubAttrs(p) == [a, b];
      EncodeTwo(a, b);
    } else if p.hasPort {
      assert SubAttrs(p)[0] == a && SubAttrs(p) == [a];
      EncodeTwo(a, a);
    } else if p.hasProto {
      assert SubAttrs(p)[0] == b && SubAttrs(p) == [b];
      EncodeTwo(b, b);
    }
  }

  /** The reported size is that of the attribute exactly while the sum with the header stays a 16-bit number. */
  lemma ReportedSizeIsWritten(p: TransParams)
    requires (p.hasPort || p.hasProto) && AllFit(SubAttrs(p)) && Fits(ServiceInfo(p))
    ensures ReportedSize(p) == |Encode(ServiceInfo(p))| <==> BodySize(p) + HEADER_SIZE < 0x10000
  {
    BodySizeIsSize(p);
  }

  lemma OneElement(t: Tlv)
    requires Fits(t)
    ensures DecodeAll(Encode(t)) == Elements([t])
  {
    EncodeTwo(t, t);
    DecodesEncoded([t]);
  }

  lemma ReadsService(subs: seq<Tlv>)
    requires AllFit(subs)
    ensures ReadService(WFA_OUI + [PROTO_GENERIC] + EncodeAll(subs)) == Service(WFA_OUI, PROTO_GENERIC, subs)
  {
    var front := WFA_OUI + [PROTO_GENERIC];
    DecodesEncoded(subs);
    Behind(front, EncodeAll(subs));
    assert (front + EncodeAll(subs))[..3] == WFA_OUI;
  }

  /** The readers recover everything from what the builder writes. */
  lemma ServiceInfoReadBack(p: TransParams)
    requires AllFit(SubAttrs(p)) && Fits(ServiceInfo(p))
    ensures DecodeAll(Encode(ServiceInfo(p))) == Elements([Tlv(0x01, ServiceInfo(p).value)])
    ensures ReadService(ServiceInfo(p).value) ==
            Service([0x50, 0x6f, 0x9a], 0x02,
                    (if p.hasPort then [Tlv(0x00, p.port)] else []) + if p.hasProto then [Tlv(0x01, p.proto)] else [])
  {
    OneElement(ServiceInfo(p));
    ReadsService(SubAttrs(p));
  }

  /** The octets for a port and a protocol, one by one. */
  lemma ServiceInfoOctets(port: seq<Byte>, proto: Byte)
    requires |port| == 2
    ensures var p := TransParams(port, true, [proto], true);
            && AllFit(SubAttrs(p)) && Fits(ServiceInfo(p))
            && Encode(ServiceInfo(p)) == [0x01, 13, 0, 0x50, 0x6f, 0x9a, 0x02, 0x00, 2, 0, port[0], port[1],
                                          0x01, 1, 0, proto]
  {
    var p := TransParams(port, true, [proto], true);
    BodySizeIsSize(p);
    SubAttrsEncoded(p);
  }

  // ---------------------------------------------------------------- receiver

  function Zeros(n: nat): (r: seq<Byte>)
    ensures |r| == n && forall i :: 0 <= i < n ==> r[i] == 0
  {
    if n == 0 then [] else [0] + Zeros(n - 1)
  }

  /** The address and its length that the receiver keeps, for the first `len` bytes of application info. */
  function Indicated(app: seq<Byte>, len: nat): (r: (seq<Byte>, nat))
    requires |app| >= HEADER_SIZE + INTF_ID_LEN
    ensures |r.0| == 16
  {
    if len == 0 || app[0] != IPV6_LINK_LOCAL then (Zeros(16), 0)
    else
      var n := Le16(app[1], app[2]);
      if 0 < n <= INTF_ID_LEN
      then (LINK_LOCAL_MSB + app[HEADER_SIZE..HEADER_SIZE + n] + Zeros(INTF_ID_LEN - n), INTF_ID_LEN + n)
      else (LINK_LOCAL_MSB + Zeros(INTF_ID_LEN), INTF_ID_LEN)
  }

  /** The globals that the receive callback fills. */
  class Receiver {
    const ipv6Addr: array<Byte>
    var ipv6Len: nat

    constructor ()
      ensures ipv6Addr.Length == 16 && fresh(ipv6Addr)
    {
      ipv6Addr := new Byte[16](_ => 0);
      ipv6Len := 0;
    }

    /** The address part of `ndp_event_data_indication`. */
    method DataIndication(app: array<Byte>, len: nat)
      requires ipv6Addr.Length == 16 && app != ipv6Addr
      requires app.Length >= HEADER_SIZE + INTF_ID_LEN
      modifies this, ipv6Addr
      ensures (ipv6Addr[..], ipv6Len) == Indicated(app[..], len)
    {
      for i := 0 to 16
        invariant forall j :: 0 <= j < i ==> ipv6Addr[j] == 0
      {
        ipv6Addr[i] := 0;
      }
      ipv6Len := 0;
      assert ipv6Addr[..] == Zeros(16);
      if len > 0 && app[0] == IPV6_LINK_LOCAL {
        var n := Le16(app[1], app[2]);
        ghost var zero := ipv6Addr[..];
        CopyIn(ipv6Addr, 0, LINK_LOCAL_MSB);
        ipv6Len := INTF_ID_LEN;
        assert ipv6Addr[..] == LINK_LOCAL_MSB + Zeros(INTF_ID_LEN);
        if 0 < n <= INTF_ID_LEN {
          CopyIn(ipv6Addr, INTF_ID_LEN, app[HEADER_SIZE..HEADER_SIZE + n]);
          assert ipv6Addr[..] ==
                 LINK_LOCAL_MSB + app[HEADER_SIZE..HEADER_SIZE + n] + Zeros(INTF_ID_LEN - n);
          ipv6Len := ipv6Len + n;
        }
      }
    }
  }

  lemma ValueOfEncoded(t: Tlv, rest: seq<Byte>)
    requires Fits(t)
    ensures var bytes := Encode(t) + rest;
            && bytes[0] == t.kind && Le16(bytes[1], bytes[2]) == |t.value|
            && bytes[HEADER_SIZE..HEADER_SIZE + |t.value|] == t.value
  {
    LowAndHigh(|t.value|);
  }

  lemma PrefixDecides(addr: seq<Byte>, prefix: seq<Byte>, n: nat)
    requires |prefix| == n <= |addr|
    ensures prefix + addr[n..] == addr <==> addr[..n] == prefix
  {
    assert addr == addr[..n] + addr[n..];
    assert (prefix + addr[n..])[..n] == prefix;
  }

  lemma WholeIdIndicated(app: seq<Byte>, len: nat, id: seq<Byte>)
    requires |app| >= HEADER_SIZE + INTF_ID_LEN && len > 0 && |id| == INTF_ID_LEN
    requires app[0] == IPV6_LINK_LOCAL && Le16(app[1], app[2]) == |id| && app[HEADER_SIZE..HEADER_SIZE + |id|] == id
    ensures Indicated(app, len) == (LINK_LOCAL_MSB + id, 16)
  {
    assert LINK_LOCAL_MSB + id + Zeros(0) == LINK_LOCAL_MSB + id;
  }

  /** Whatever follows the link-local attribute, the receiver ends up with the fe80 prefix and the interface id. */
  lemma LinkLocalReceived(addr: seq<Byte>, rest: seq<Byte>, len: nat)
    requires |addr| == 16 && len > 0
    ensures Indicated(Encode(Tlv(IPV6_LINK_LOCAL, addr[8..])) + rest, len) == (LINK_LOCAL_MSB + addr[8..], 16)
  {
    var t := Tlv(IPV6_LINK_LOCAL, addr[8..]);
    ValueOfEncoded(t, rest);
    WholeIdIndicated(Encode(t) + rest, len, t.value);
  }

  /** So the address itself is received exactly if it is link-local. */
  lemma OnlyLinkLocalArrives(addr: seq<Byte>, rest: seq<Byte>, len: nat)
    requires |addr| == 16 && len > 0
    ensures Arrives(addr, rest, len) <==> addr[..8] == [0xFE, 0x80, 0, 0, 0, 0, 0, 0]
  {
    LinkLocalReceived(addr, rest, len);
    PrefixDecides(addr, LINK_LOCAL_MSB, 8);
  }

  /** What is sent of an address makes the receiver keep that address. */
  predicate Arrives(addr: seq<Byte>, rest: seq<Byte>, len: nat)
    requires |addr| == 16
  {
    Indicated(Encode(Tlv(IPV6_LINK_LOCAL, addr[8..])) + rest, len) == (addr, 16)
  }

  /** The blob of a publisher: the address attribute, then the service info. */
  method BuildBlob(buf: array<Byte>, addr: seq<Byte>, p: TransParams) returns (size: nat)
    requires |addr| == 16
    requires p.hasPort && p.hasProto && BodySize(p) + HEADER_SIZE < 0x10000
    requires HEADER_SIZE + INTF_ID_LEN + HEADER_SIZE + BodySize(p) <= buf.Length
    modifies buf
    ensures Fits(ServiceInfo(p)) && size <= buf.Length
    ensures buf[..size] == Encode(Tlv(IPV6_LINK_LOCAL, addr[8..])) + Encode(ServiceInfo(p))
  {
    ghost var s0 := buf[..];
    BodySizeIsSize(p);
    ReportedSizeIsWritten(p);
    var len := BuildLinkLocal(buf, 0, addr);
    size := len;
    len := BuildServiceInfo(buf, size, p);
    size := size + len;
    PutTwo(s0, Encode(Tlv(IPV6_LINK_LOCAL, addr[8..])), Encode(ServiceInfo(p)));
  }

  /** The generic reader finds the two elements of a blob, whatever they are. */
  lemma BlobReadBack(a: Tlv, b: Tlv)
    requires Fits(a) && Fits(b)
    ensures DecodeAll(Encode(a) + Encode(b)) == Elements([a, b])
  {
    EncodeTwo(a, b);
    DecodesEncoded([a, b]);
  }
}
