/** A received DPP Config Object: what is kept of its lines, and what an access point makes of it. */
module DppConfObject {
  import opened CText
  import opened DppLines
  import opened DppMonitor

  /** What the event loop has collected; an empty passphrase stands for `pass_len == 0`. */
  datatype ConfObject = ConfObject(
    connector: Option<string>, csign: Option<string>, netKey: Option<string>, pass: string, psk: Option<string>)

  const EMPTY := ConfObject(None, None, None, "", None)

  /** The kind of a data line, in the order of the `strstr` chain. */
  function Kind(line: Line): Option<Event> {
    if Says(line, Connector) then Some(Connector)
    else if Says(line, CSignKey) then Some(CSignKey)
    else if Says(line, NetAccessKey) then Some(NetAccessKey)
    else if Says(line, ConfobjPass) then Some(ConfobjPass)
    else if Says(line, ConfobjPsk) then Some(ConfobjPsk)
    else None
  }

  function Keep(have: Option<string>, arg: string): Option<string> {
    if have.Some? then have else Some(arg)
  }

  /** One round of the event loop; None is the -2 exit on a malformed line. */
  function Absorb(g: ConfObject, line: Line): Option<ConfObject> {
    match Kind(line)
    case None => Some(g)
    case Some(kind) =>
      match Argument(line.text)
      case None => None
      case Some(arg) =>
        match kind
        case Connector => Some(g.(connector := Keep(g.connector, arg)))
        case CSignKey => Some(g.(csign := Keep(g.csign, arg)))
        case NetAccessKey => Some(g.(netKey := Keep(g.netKey, arg)))
        case ConfobjPsk => Some(g.(psk := Keep(g.psk, arg)))
        case _ => (match Passphrase(arg) case None => None case Some(p) => Some(g.(pass := p)))
  }

  function AbsorbAll(lines: Log): Option<ConfObject> {
    match lines
    case Opened => Some(EMPTY)
    case Then(before, line) =>
      (match AbsorbAll(before)
       case None => None
       case Some(g) => Absorb(g, line))
    case Quiet(before, _) => AbsorbAll(before)
  }

  /** What the driver takes from the AKM list of the Config Object. */
  datatype Akm = Akm(dpp: bool, legacy: bool)

  function ReadAkm(text: string): Akm {
    Akm(Contains(text, "dpp"), Contains(text, "psk") || Contains(text, "sae"))
  }

  /** Everything that the AKM list calls for has arrived. */
  predicate Suffices(akm: Akm, g: ConfObject) {
    && (akm.dpp ==> g.connector.Some? && g.csign.Some? && g.netKey.Some?)
    && (akm.legacy ==> g.pass != "" || g.psk.Some?)
  }

  // ------------------------------------ reference reading of the data lines

  /** A line is of one kind if it mentions that event and none of those that are looked for before. */
  ghost predicate IsOf(line: Line, kind: Event) {
    && (kind == Connector || kind == CSignKey || kind == NetAccessKey || kind == ConfobjPass || kind == ConfobjPsk)
    && Says(line, kind)
    && (kind != Connector ==> !Says(line, Connector))
    && (kind != Connector && kind != CSignKey ==> !Says(line, CSignKey))
    && (kind == ConfobjPass || kind == ConfobjPsk ==> !Says(line, NetAccessKey))
    && (kind == ConfobjPsk ==> !Says(line, ConfobjPass))
  }

  lemma KindIsOf(line: Line, kind: Event)
    ensures Kind(line) == Some(kind) <==> IsOf(line, kind)
  {}

  ghost predicate IsKind(lines: seq<Line>, i: int, kind: Event) {
    0 <= i < |lines| && IsOf(lines[i], kind)
  }

  /** `have` is the argument of the first line of a kind, or None without such a line. */
  ghost predicate IsFirst(lines: seq<Line>, kind: Event, have: Option<string>) {
    match have
    case None => forall i :: !IsKind(lines, i, kind)
    case Some(arg) =>
      exists i ::
        IsKind(lines, i, kind) && Argument(lines[i].text) == Some(arg) && forall j :: j < i ==> !IsKind(lines, j, kind)
  }

  /** `pass` is what the last passphrase line carries, or empty without such a line. */
  ghost predicate IsLastPass(lines: seq<Line>, pass: string) {
    || (pass == "" && forall i :: !IsKind(lines, i, ConfobjPass))
    || (exists i ::
          && IsKind(lines, i, ConfobjPass)
          && Argument(lines[i].text).Some? && Passphrase(Argument(lines[i].text).value) == Some(pass)
          && forall j :: i < j ==> !IsKind(lines, j, ConfobjPass))
  }

  lemma FirstOfLonger(lines: seq<Line>, line: Line, kind: Event, have: Option<string>)
    requires IsFirst(lines, kind, have)
    requires IsOf(line, kind) ==> Argument(line.text).Some?
    ensures IsFirst(lines + [line], kind, if IsOf(line, kind) then Keep(have, Argument(line.text).value) else have)
  {
    var longer := lines + [line];
    assert forall i :: IsKind(longer, i, kind) <==> IsKind(lines, i, kind) || (i == |lines| && IsOf(line, kind));
    if have.Some? {
      var i :|
        IsKind(lines, i, kind) && Argument(lines[i].text) == have && forall j :: j < i ==> !IsKind(lines, j, kind);
      assert longer[i] == lines[i] && IsKind(longer, i, kind);
    } else if IsOf(line, kind) {
      assert IsKind(longer, |lines|, kind);
    }
  }

  lemma LastPassOfLonger(lines: seq<Line>, line: Line, pass: string)
    requires IsLastPass(lines, pass) && !IsOf(line, ConfobjPass)
    ensures IsLastPass(lines + [line], pass)
  {
    var longer := lines + [line];
    assert forall i :: IsKind(longer, i, ConfobjPass) <==> IsKind(lines, i, ConfobjPass);
    if i :|
      && IsKind(lines, i, ConfobjPass)
      && Argument(lines[i].text).Some? && Passphrase(Argument(lines[i].text).value) == Some(pass)
      && forall j :: i < j ==> !IsKind(lines, j, ConfobjPass) {
      assert longer[i] == lines[i] && IsKind(longer, i, ConfobjPass);
    }
  }

  /** What the loop keeps of the kinds of which it wants the first. */
  function Kept(g: ConfObject, kind: Event): Option<string> {
    match kind
    case Connector => g.connector
    case CSignKey => g.csign
    case NetAccessKey => g.netKey
    case ConfobjPsk => g.psk
    case _ => None
  }

  predicate FirstWins(kind: Event) {
    kind == Connector || kind == CSignKey || kind == NetAccessKey || kind == ConfobjPsk
  }

  lemma AbsorbKeeps(g: ConfObject, line: Line, kind: Event)
    requires Absorb(g, line).Some? && FirstWins(kind)
    ensures IsOf(line, kind) ==> Argument(line.text).Some?
    ensures Kept(Absorb(g, line).value, kind) ==
            if IsOf(line, kind) then Keep(Kept(g, kind), Argument(line.text).value) else Kept(g, kind)
  {
    KindIsOf(line, kind);
  }

  /** The first connector, keys and PSK are kept. */
  lemma {:induction false} KeepsFirst(log: Log, kind: Event)
    requires AbsorbAll(log).Some? && FirstWins(kind)
    ensures IsFirst(log.Lines(), kind, Kept(AbsorbAll(log).value, kind))
  {
    if log.Then? {
      KeepsFirst(log.before, kind);
      AbsorbKeeps(AbsorbAll(log.before).value, log.line, kind);
      FirstOfLonger(log.before.Lines(), log.line, kind, Kept(AbsorbAll(log.before).value, kind));
    } else if log.Quiet? {
      KeepsFirst(log.before, kind);
    }
  }

  lemma LastPassIsThis(lines: seq<Line>, line: Line, pass: string)
    requires IsOf(line, ConfobjPass)
    requires Argument(line.text).Some? && Passphrase(Argument(line.text).value) == Some(pass)
    ensures IsLastPass(lines + [line], pass)
  {
    assert IsKind(lines + [line], |lines|, ConfobjPass);
  }

  lemma AbsorbPass(g: ConfObject, line: Line)
    requires Absorb(g, line).Some?
    ensures IsOf(line, ConfobjPass) ==>
              && Argument(line.text).Some?
              && Passphrase(Argument(line.text).value) == Some(Absorb(g, line).value.pass)
    ensures !IsOf(line, ConfobjPass) ==> Absorb(g, line).value.pass == g.pass
  {
    KindIsOf(line, ConfobjPass);
  }

  /** The last passphrase is kept. */
  lemma {:induction false} KeepsLastPass(log: Log)
    requires AbsorbAll(log).Some?
    ensures IsLastPass(log.Lines(), AbsorbAll(log).value.pass)
  {
    if log.Then? {
      KeepsLastPass(log.before);
      AbsorbPass(AbsorbAll(log.before).value, log.line);
      if IsOf(log.line, ConfobjPass) {
        LastPassIsThis(log.before.Lines(), log.line, AbsorbAll(log).value.pass);
      } else {
        LastPassOfLonger(log.before.Lines(), log.line, AbsorbAll(log.before).value.pass);
      }
    } else if log.Quiet? {
      KeepsLastPass(log.before);
    }
  }

  /** The access point's key management: a matter of the AKM list alone. */
  function KeyMgmt(akm: Akm): string {
    if !akm.dpp then "WPA-PSK"
    else if akm.legacy then "DPP WPA-PSK"
    else "DPP"
  }

  /** `config` holds what the object says, and the object lacks nothing that was needed. */
  predicate Configures(config: ApConfig, akm: Akm, ssid: string, g: ConfObject) {
    && HasDefaults(config)
    && config.wpaKeyMgmt == Some(KeyMgmt(akm))
    && config.ssid == Some(ssid) && config.utf8Ssid == Some("1")
    && Suffices(akm, g)
    && HasCredentials(config, g)
    && HasKeys(config, g)
  }

  predicate HasDefaults(config: ApConfig) {
    config.wpa == Some("2") && config.ieee80211w == Some("1") && config.rsnPairwise == Some("CCMP")
  }

  predicate HasCredentials(config: ApConfig, g: ConfObject) {
    && (g.pass != "" ==> config.wpaPassphrase == Some(UpToNul(g.pass)))
    && (g.pass == "" && g.psk.Some? ==> config.wpaPsk == g.psk)
  }

  predicate HasKeys(config: ApConfig, g: ConfObject) {
    && (g.connector.Some? ==> config.dppConnector == g.connector)
    && (g.csign.Some? ==> config.dppCsign == g.csign)
    && (g.netKey.Some? ==>
          match IndexOf(g.netKey.value, ' ')
          case None => config.dppNetAccessKey == g.netKey
          case Some(k) => config.dppNetAccessKey == Some(g.netKey.value[..k]) &&
                          config.dppNetAccessKeyExpiry == Some(g.netKey.value[k + 1..]))
  }

  // ---------------------------------- the same on plain lines, by the event they start with

  ghost predicate AllAre(lines: seq<Line>, names: Names) {
    forall i :: 0 <= i < |lines| ==> Recognised(lines[i], names) && Plain(lines[i])
  }

  /** The first line of an event. */
  ghost predicate IsFirstHeaded(lines: seq<Line>, i: int, e: Event) {
    0 <= i < |lines| && Headed(lines[i], e) && forall j :: 0 <= j < i ==> !Headed(lines[j], e)
  }

  ghost predicate IsLastHeaded(lines: seq<Line>, i: int, e: Event) {
    0 <= i < |lines| && Headed(lines[i], e) && forall j :: i < j < |lines| ==> !Headed(lines[j], e)
  }

  lemma PlainIsHeaded(line: Line, kind: Event)
    requires Recognised(line, ConfDataEvents) && Plain(line) && ConfDataEvents.Has(kind)
    ensures IsOf(line, kind) <==> Headed(line, kind)
  {
    var e :| ConfDataEvents.Has(e) && Headed(line, e);
    assert Says(line, e);
  }

  lemma ConfDataHas(kind: Event)
    requires FirstWins(kind)
    ensures ConfDataEvents.Has(kind)
  {}

  lemma ItemIsCarried(log: Log, kind: Event)
    requires AbsorbAll(log).Some? && AllAre(log.Lines(), ConfDataEvents) && FirstWins(kind)
    ensures CarriedFirst(log.Lines(), kind, Kept(AbsorbAll(log).value, kind))
  {
    KeepsFirst(log, kind);
    FirstIsHeaded(log.Lines(), kind, Kept(AbsorbAll(log).value, kind));
  }

  /** `have` is what the first line of the event carries; without one there is none. */
  ghost predicate CarriedFirst(lines: seq<Line>, e: Event, have: Option<string>) {
    && (forall i :: IsFirstHeaded(lines, i, e) ==> have.Some? && Argument(lines[i].text) == have)
    && (have.Some? ==> exists i :: IsFirstHeaded(lines, i, e))
  }

  lemma FirstIsHeaded(lines: seq<Line>, kind: Event, have: Option<string>)
    requires AllAre(lines, ConfDataEvents) && FirstWins(kind) && IsFirst(lines, kind, have)
    ensures CarriedFirst(lines, kind, have)
  {
    ConfDataHas(kind);
    forall i | 0 <= i < |lines| ensures IsKind(lines, i, kind) <==> Headed(lines[i], kind) {
      PlainIsHeaded(lines[i], kind);
    }
    if have.Some? {
      var i :|
        IsKind(lines, i, kind) && Argument(lines[i].text) == have && forall j :: j < i ==> !IsKind(lines, j, kind);
      assert forall j :: 0 <= j < i ==> !IsKind(lines, j, kind);
      assert IsFirstHeaded(lines, i, kind);
      assert forall j :: IsFirstHeaded(lines, j, kind) ==> j == i;
    } else {
      assert forall j :: IsFirstHeaded(lines, j, kind) ==> IsKind(lines, j, kind);
    }
  }

  /** `pass` is what the last passphrase line carries. */
  ghost predicate CarriedLast(lines: seq<Line>, pass: string) {
    && (forall i :: IsLastHeaded(lines, i, ConfobjPass) ==>
          Argument(lines[i].text).Some? && Passphrase(Argument(lines[i].text).value) == Some(pass))
    && (pass != "" ==> exists i :: IsLastHeaded(lines, i, ConfobjPass))
  }

  lemma LastIsHeaded(lines: seq<Line>, pass: string)
    requires AllAre(lines, ConfDataEvents) && IsLastPass(lines, pass)
    ensures CarriedLast(lines, pass)
  {
    forall i | 0 <= i < |lines| ensures IsKind(lines, i, ConfobjPass) <==> Headed(lines[i], ConfobjPass) {
      PlainIsHeaded(lines[i], ConfobjPass);
    }
    if i :|
      && IsKind(lines, i, ConfobjPass)
      && Argument(lines[i].text).Some? && Passphrase(Argument(lines[i].text).value) == Some(pass)
      && forall j :: i < j ==> !IsKind(lines, j, ConfobjPass) {
      assert forall j :: i < j < |lines| ==> !IsKind(lines, j, ConfobjPass);
      assert IsLastHeaded(lines, i, ConfobjPass);
      assert forall j :: IsLastHeaded(lines, j, ConfobjPass) ==> j == i;
    } else {
      assert forall j :: IsLastHeaded(lines, j, ConfobjPass) ==> IsKind(lines, j, ConfobjPass);
    }
  }

  /** What has been collected is, item by item, what the lines of its event carry. */
  lemma CollectedIsCarried(log: Log)
    requires AbsorbAll(log).Some? && AllAre(log.Lines(), ConfDataEvents)
    ensures var g, lines := AbsorbAll(log).value, log.Lines();
            && CarriedFirst(lines, Connector, g.connector) && CarriedFirst(lines, CSignKey, g.csign)
            && CarriedFirst(lines, NetAccessKey, g.netKey) && CarriedFirst(lines, ConfobjPsk, g.psk)
            && CarriedLast(lines, g.pass)
  {
    ItemIsCarried(log, Connector);
    ItemIsCarried(log, CSignKey);
    ItemIsCarried(log, NetAccessKey);
    ItemIsCarried(log, ConfobjPsk);
    KeepsLastPass(log);
    LastIsHeaded(log.Lines(), AbsorbAll(log).value.pass);
  }

  /** The access key, and behind its first blank the expiry. */
  ghost predicate SplitsKey(arg: string, key: Option<string>, expiry: Option<string>) {
    && key.Some? && ' ' !in key.value
    && if ' ' in arg then expiry.Some? && arg == key.value + [' '] + expiry.value else key == Some(arg)
  }

  /** The configuration holds, variable by variable, what the AKM list, the SSID and the data lines say. */
  ghost predicate TakenOver(config: ApConfig, akm: string, ssid: string, lines: seq<Line>) {
    && config.ssid == Some(ssid)
    && config.wpaKeyMgmt == Some(if !Contains(akm, "dpp") then "WPA-PSK"
                                 else if Contains(akm, "psk") || Contains(akm, "sae") then "DPP WPA-PSK" else "DPP")
    && KeysTakenOver(config, akm, lines)
    && CredentialsTakenOver(config, akm, lines)
  }

  ghost predicate KeysTakenOver(config: ApConfig, akm: string, lines: seq<Line>) {
    && (forall i :: IsFirstHeaded(lines, i, Connector) ==>
          config.dppConnector.Some? && Argument(lines[i].text) == config.dppConnector)
    && (forall i :: IsFirstHeaded(lines, i, CSignKey) ==>
          config.dppCsign.Some? && Argument(lines[i].text) == config.dppCsign)
    && (forall i :: IsFirstHeaded(lines, i, NetAccessKey) ==>
          && Argument(lines[i].text).Some?
          && SplitsKey(Argument(lines[i].text).value, config.dppNetAccessKey, config.dppNetAccessKeyExpiry))
    && (Contains(akm, "dpp") ==>
          exists i, j, k :: IsFirstHeaded(lines, i, Connector) && IsFirstHeaded(lines, j, CSignKey) &&
                            IsFirstHeaded(lines, k, NetAccessKey))
  }

  /** A passphrase that is not empty goes before a PSK; one of them is needed for the AKMs that use it. */
  ghost predicate CredentialsTakenOver(config: ApConfig, akm: string, lines: seq<Line>) {
    && (forall i :: IsLastHeaded(lines, i, ConfobjPass) && HexOfPass(lines[i]) != "" ==>
          config.wpaPassphrase == Some(UpToNul(HexOfPass(lines[i]))))
    && (forall i :: IsFirstHeaded(lines, i, ConfobjPsk) && NoPass(lines) ==>
          config.wpaPsk.Some? && Argument(lines[i].text) == config.wpaPsk)
    && (Contains(akm, "psk") || Contains(akm, "sae") ==>
          !NoPass(lines) || exists i :: IsFirstHeaded(lines, i, ConfobjPsk))
  }

  /** What the line carries, decoded, or nothing. */
  function HexOfPass(line: Line): string {
    match Argument(line.text)
    case None => ""
    case Some(hex) => match ParseHexstr(hex, 64) case None => "" case Some(p) => if |p| < 64 then p else ""
  }

  ghost predicate NoPass(lines: seq<Line>) {
    forall i :: IsLastHeaded(lines, i, ConfobjPass) ==> HexOfPass(lines[i]) == ""
  }

  /** The configuration that the update leaves is that of the lines. */
  lemma UpdateIsTakenOver(config: ApConfig, akm: string, ssid: string, log: Log)
    requires AbsorbAll(log).Some? && AllAre(log.Lines(), ConfDataEvents)
    requires Configures(config, ReadAkm(akm), ssid, AbsorbAll(log).value)
    ensures TakenOver(config, akm, ssid, log.Lines())
  {
    CollectedIsCarried(log);
    KeysAreTakenOver(config, akm, ssid, log.Lines(), AbsorbAll(log).value);
    CredentialsAreTakenOver(config, akm, ssid, log.Lines(), AbsorbAll(log).value);
  }

  /** The lines hold everything that the AKM list calls for. */
  ghost predicate HoldAll(akm: string, lines: seq<Line>) {
    && (Contains(akm, "dpp") ==>
          && (exists i :: IsFirstHeaded(lines, i, Connector)) && (exists i :: IsFirstHeaded(lines, i, CSignKey))
          && (exists i :: IsFirstHeaded(lines, i, NetAccessKey)))
    && (Contains(akm, "psk") || Contains(akm, "sae") ==>
          !NoPass(lines) || exists i :: IsFirstHeaded(lines, i, ConfobjPsk))
  }

  /** The loop is content exactly when they do. */
  lemma SufficesIsAll(akm: string, log: Log)
    requires AbsorbAll(log).Some? && AllAre(log.Lines(), ConfDataEvents)
    ensures Suffices(ReadAkm(akm), AbsorbAll(log).value) <==> HoldAll(akm, log.Lines())
  {
    var g, lines := AbsorbAll(log).value, log.Lines();
    CollectedIsCarried(log);
    PassIsCarried(lines, g.pass);
    if g.pass != "" {
      var i :| IsLastHeaded(lines, i, ConfobjPass);
      assert !NoPass(lines);
    }
    assert g.connector.Some? <==> exists i :: IsFirstHeaded(lines, i, Connector);
    assert g.csign.Some? <==> exists i :: IsFirstHeaded(lines, i, CSignKey);
    assert g.netKey.Some? <==> exists i :: IsFirstHeaded(lines, i, NetAccessKey);
    assert g.psk.Some? <==> exists i :: IsFirstHeaded(lines, i, ConfobjPsk);
  }

  lemma KeysAreTakenOver(config: ApConfig, akm: string, ssid: string, lines: seq<Line>, g: ConfObject)
    requires CarriedFirst(lines, Connector, g.connector) && CarriedFirst(lines, CSignKey, g.csign)
    requires CarriedFirst(lines, NetAccessKey, g.netKey) && Configures(config, ReadAkm(akm), ssid, g)
    ensures KeysTakenOver(config, akm, lines)
  {
    if g.netKey.Some? { KeyIsSplit(config, g); }
  }

  lemma KeyIsSplit(config: ApConfig, g: ConfObject)
    requires HasKeys(config, g) && g.netKey.Some?
    ensures SplitsKey(g.netKey.value, config.dppNetAccessKey, config.dppNetAccessKeyExpiry)
  {
    var arg := g.netKey.value;
    IndexOfIsFirst(arg, ' ');
    match IndexOf(arg, ' ') {
      case None =>
      case Some(k) => assert arg == arg[..k] + [' '] + arg[k + 1..];
    }
  }

  lemma CredentialsAreTakenOver(config: ApConfig, akm: string, ssid: string, lines: seq<Line>, g: ConfObject)
    requires CarriedFirst(lines, ConfobjPsk, g.psk) && CarriedLast(lines, g.pass)
    requires Configures(config, ReadAkm(akm), ssid, g)
    ensures CredentialsTakenOver(config, akm, lines)
  {
    PassIsCarried(lines, g.pass);
    if g.pass != "" {
      var i :| IsLastHeaded(lines, i, ConfobjPass);
      assert !NoPass(lines);
    }
  }

  lemma PassIsCarried(lines: seq<Line>, pass: string)
    requires CarriedLast(lines, pass)
    ensures forall i :: IsLastHeaded(lines, i, ConfobjPass) ==> HexOfPass(lines[i]) == pass
    ensures pass == "" ==> NoPass(lines)
  {
    forall i | IsLastHeaded(lines, i, ConfobjPass) ensures HexOfPass(lines[i]) == pass {
      HexIsPass(lines[i], pass);
    }
  }

  lemma HexIsPass(line: Line, pass: string)
    requires Argument(line.text).Some? && Passphrase(Argument(line.text).value) == Some(pass)
    ensures HexOfPass(line) == pass
  {}
}
