/** Event lines of the monitor interface, and everything the DPP commands can tell about one. */
module DppLines {
  import opened CText

  /** Event names of the monitor interface. */
  datatype Event =
    | AuthSuccess | AuthInitFailed | NotCompatible | ResponsePending | ScanPeerQrCode | AuthDirection
    | ConfReceived | ConfSent | ConfFailed | MudUrl | ConfReqRx
    | PmksaCacheAdded | Connected_
    | Tx | TxStatus | Rx | GasQueryStart | GasQueryDone
    | ConfobjAkm | ConfobjSsid | Connector | ConfobjPass | ConfobjPsk | CSignKey | NetAccessKey
    | Csr | ConnStatusResult | ConfiguratorId | NetworkId | ApEnabled
  {
    function Text(): string {
      match this
      case AuthSuccess => "DPP-AUTH-SUCCESS"
      case AuthInitFailed => "DPP-AUTH-INIT-FAILED"
      case NotCompatible => "DPP-NOT-COMPATIBLE"
      case ResponsePending => "DPP-RESPONSE-PENDING"
      case ScanPeerQrCode => "DPP-SCAN-PEER-QR-CODE"
      case AuthDirection => "DPP-AUTH-DIRECTION"
      case ConfReceived => "DPP-CONF-RECEIVED"
      case ConfSent => "DPP-CONF-SENT"
      case ConfFailed => "DPP-CONF-FAILED"
      case MudUrl => "DPP-MUD-URL"
      case ConfReqRx => "DPP-CONF-REQ-RX"
      case PmksaCacheAdded => "PMKSA-CACHE-ADDED"
      case Connected_ => "CTRL-EVENT-CONNECTED"
      case Tx => "DPP-TX"
      case TxStatus => "DPP-TX-STATUS"
      case Rx => "DPP-RX"
      case GasQueryStart => "GAS-QUERY-START"
      case GasQueryDone => "GAS-QUERY-DONE"
      case ConfobjAkm => "DPP-CONFOBJ-AKM"
      case ConfobjSsid => "DPP-CONFOBJ-SSID"
      case Connector => "DPP-CONNECTOR"
      case ConfobjPass => "DPP-CONFOBJ-PASS"
      case ConfobjPsk => "DPP-CONFOBJ-PSK"
      case CSignKey => "DPP-C-SIGN-KEY"
      case NetAccessKey => "DPP-NET-ACCESS-KEY"
      case Csr => "DPP-CSR"
      case ConnStatusResult => "DPP-CONN-STATUS-RESULT"
      case ConfiguratorId => "DPP-CONFIGURATOR-ID"
      case NetworkId => "DPP-NETWORK-ID"
      case ApEnabled => "AP-ENABLED"
    }
  }

  /** `strstr(text, event) != NULL` */
  predicate Mentions(text: string, e: Event) {
    Contains(text, e.Text())
  }

  /** The event name stands right behind the first '>': how the monitor recognises a line. */
  predicate StartsWithEvent(text: string, e: Event) {
    match IndexOf(text, '>')
    case None => false
    case Some(k) => StartsAt(text, k + 1, e.Text())
  }

  /**
   A received line: the events it is recognised as, the ones it mentions, and
   whether it mentions DPP-MUD-URL with a blank behind it.
   */
  datatype RawLine = RawLine(heads: set<Event>, says: set<Event>, hasUrl: bool, text: string)

  type Line = l: RawLine | l.heads <= l.says && (l.hasUrl ==> MudUrl in l.says) witness RawLine({}, {}, false, "")

  const MUD_URL_BLANK := "DPP-MUD-URL "

  /** Every string is such a line: what it starts with it also mentions. */
  function Read(text: string): (l: Line)
    ensures forall e :: e in l.heads <==> StartsWithEvent(text, e)
    ensures forall e :: e in l.says <==> Mentions(text, e)
    ensures l.hasUrl <==> Contains(text, MUD_URL_BLANK)
    ensures l.text == text
  {
    var heads := set e: Event | StartsWithEvent(text, e);
    var says := set e: Event | Mentions(text, e);
    assert heads <= says by {
      forall e | e in heads ensures e in says {
        StartMentions(text, e);
      }
    }
    assert Contains(text, MUD_URL_BLANK) ==> MudUrl in says by {
      if Contains(text, MUD_URL_BLANK) { ShorterIsContained(text, MUD_URL_BLANK, MudUrl.Text()); }
    }
    RawLine(heads, says, Contains(text, MUD_URL_BLANK), text)
  }

  lemma ShorterIsContained(s: string, long: string, short: string)
    requires Contains(s, long) && short <= long
    ensures Contains(s, short)
  {
    var i :| 0 <= i <= |s| && StartsAt(s, i, long);
    assert s[i..i + |short|] == s[i..i + |long|][..|short|];
    assert StartsAt(s, i, short);
  }

  lemma StartMentions(text: string, e: Event)
    requires StartsWithEvent(text, e)
    ensures Mentions(text, e)
  {
    var k := IndexOf(text, '>').value;
    assert StartsAt(text, k + 1, e.Text());
  }

  /** `strstr(line, event)`: how the commands look at a line they have received. */
  predicate Says(line: Line, e: Event) {
    e in line.says
  }

  predicate Headed(line: Line, e: Event) {
    e in line.heads
  }

  /** The lists of event names that callers wait for. */
  datatype Names =
    | Only(e: Event) | AuthEvents | ConfEvents | ConnEvents | ConfDataEvents | TxRxEvents
    | ReceivedOrFailed | SentOrFailed
  {
    predicate Has(e: Event) {
      match this
      case Only(only) => e == only
      case AuthEvents =>
        e.AuthSuccess? || e.AuthInitFailed? || e.NotCompatible? || e.ResponsePending?
        || e.ScanPeerQrCode? || e.AuthDirection?
      case ConfEvents => e.ConfReceived? || e.ConfSent? || e.ConfFailed? || e.MudUrl?
      case ConnEvents => e.PmksaCacheAdded? || e.Connected_?
      case ConfDataEvents =>
        e.Connector? || e.ConfobjPass? || e.ConfobjPsk? || e.CSignKey? || e.NetAccessKey?
      case TxRxEvents => e.Tx? || e.Rx?
      case ReceivedOrFailed => e.ConfReceived? || e.ConfFailed?
      case SentOrFailed => e.ConfSent? || e.ConfFailed?
    }
  }

  predicate Recognised(line: Line, names: Names) {
    exists e :: names.Has(e) && Headed(line, e)
  }

  /** `parse_hexstr` into `pass[64]`, which must leave room for the terminator. */
  function Passphrase(hex: string): Option<string> {
    match ParseHexstr(hex, 64)
    case None => None
    case Some(p) => if |p| >= 64 then None else Some(p)
  }

  /** A line of a Config Object that does not carry what it should. */
  predicate Malformed(line: Line) {
    match Argument(line.text)
    case None => Headed(line, ConfobjAkm) || Headed(line, ConfobjSsid) || Recognised(line, ConfDataEvents)
    case Some(arg) => Recognised(line, ConfDataEvents) && Says(line, ConfobjPass) && Passphrase(arg).None?
  }

  predicate LacksCsr(line: Line) {
    !Contains(line.text, " peer=") || !Contains(line.text, " csr=")
  }
}
