/** `dpp_hostapd_conf_update`: turning a received DPP Config Object into access point settings. */
module DppHostapdUpdate {
  import opened CText
  import opened DppLines
  import opened DppMonitor
  import opened DppConfObject

  /** Return codes 0, -2 and 1. */
  datatype UpdateResult = AlreadyAnswered | MalformedEvent | Updated

  /** SET one variable or answer with the given error. */
  method SetOrFail(dut: Dut, f: ApField, v: string, c: RefusedCommand) returns (ok: bool)
    modifies dut`nextReply, dut`issued, dut`apConfig, dut`sent, dut`evidence
    ensures ok ==> dut.apConfig == old(dut.apConfig).With(f, v) && dut.sent == old(dut.sent)
    ensures !ok ==> dut.apConfig == old(dut.apConfig)
    ensures !ok ==> FailedFor(dut, old(dut.sent))
  {
    ok := dut.WpaCommand(Set(f, v));
    if !ok {
      dut.Fail(Refusal(c));
    }
  }

  /** The four SETs in front of the events. */
  method SetSecurityDefaults(dut: Dut) returns (ok: bool)
    modifies dut`nextReply, dut`issued, dut`apConfig, dut`sent, dut`evidence
    ensures ok ==> dut.sent == old(dut.sent)
    ensures ok ==> HasDefaults(dut.apConfig) && dut.apConfig.wpaKeyMgmt == Some("DPP")
    ensures !ok ==> FailedFor(dut, old(dut.sent))
  {
    ok := SetOrFail(dut, Wpa, "2", ApSecurity);
    if !ok { return; }
    ok := SetOrFail(dut, WpaKeyMgmt, "DPP", ApSecurity);
    if !ok { return; }
    ok := SetOrFail(dut, Ieee80211w, "1", ApSecurity);
    if !ok { return; }
    ok := SetOrFail(dut, RsnPairwise, "CCMP", ApSecurity);
  }

  /** All lines of a log are recognised as one of the names. */
  ghost predicate AllRecognised(log: Log, names: Names) {
    match log
    case Opened => true
    case Then(before, line) => AllRecognised(before, names) && Recognised(line, names)
    case Quiet(before, _) => AllRecognised(before, names)
  }

  lemma {:induction false} PlainLines(log: Log, names: Names)
    requires AllRecognised(log, names) && AllPlain(log)
    ensures AllAre(log.Lines(), names)
  {
    if !log.Opened? { PlainLines(log.before, names); }
  }

  lemma {:induction false} PlainAppended(a: Log, b: Log)
    ensures AllPlain(a.Append(b)) <==> AllPlain(a) && AllPlain(b)
  {
    if !b.Opened? { PlainAppended(a, b.before); }
  }

  ghost predicate EndsMalformed(log: Log) {
    log.Then? && Malformed(log.line)
  }

  lemma MalformedIsNotAbsorbed(g: ConfObject, line: Line)
    requires Recognised(line, ConfDataEvents) && Absorb(g, line).None?
    ensures Malformed(line)
  {}

  /** The event loop. */
  method CollectConfObject(dut: Dut, akm: Akm)
    returns (r: UpdateResult, g: ConfObject, ghost lines: Log)
    requires dut.exchange == Provisioning
    modifies dut`future, dut`log, dut`sent, dut`evidence
    ensures Idle(dut.exchange, old(dut.log), dut.log)
    ensures dut.log == old(dut.log).Append(lines)
    ensures r.Updated? ==> dut.sent == old(dut.sent) && AbsorbAll(lines) == Some(g) && Suffices(akm, g)
    ensures AllRecognised(lines, ConfDataEvents)
    ensures r.AlreadyAnswered? ==> FailedFor(dut, old(dut.sent))
    ensures r.AlreadyAnswered? ==> AbsorbAll(lines).Some? && !Suffices(akm, AbsorbAll(lines).value)
    ensures r.MalformedEvent? ==> dut.sent == old(dut.sent) && AbsorbAll(lines).None? && EndsMalformed(dut.log)
  {
    g, lines := EMPTY, Opened;
    while !Suffices(akm, g)
      invariant Idle(dut.exchange, old(dut.log), dut.log)
      invariant dut.log == old(dut.log).Append(lines) && dut.sent == old(dut.sent)
      invariant AbsorbAll(lines) == Some(g) && AllRecognised(lines, ConfDataEvents)
      decreases dut.future
    {
      var got := dut.AwaitOrFail(ConfDataEvents);
      if got.None? {
        lines := Quiet(lines, ConfDataEvents);
        r := AlreadyAnswered;
        return;
      }
      lines := Then(lines, got.value);
      match Absorb(g, got.value) {
        case None =>
          MalformedIsNotAbsorbed(g, got.value);
          r := MalformedEvent;
          return;
        case Some(g') => g := g';
      }
    }
    r := Updated;
  }

  /** The SETs that carry the collected object over into the configuration. */
  method ApplyConfObject(dut: Dut, akm: Akm, ssid: string, g: ConfObject) returns (ok: bool)
    requires Suffices(akm, g)
    requires HasDefaults(dut.apConfig) && dut.apConfig.wpaKeyMgmt == Some("DPP")
    requires dut.apConfig.ssid == Some(ssid) && dut.apConfig.utf8Ssid == Some("1")
    modifies dut`nextReply, dut`issued, dut`apConfig, dut`sent, dut`evidence
    ensures ok ==> dut.sent == old(dut.sent) && Configures(dut.apConfig, akm, ssid, g)
    ensures !ok ==> FailedFor(dut, old(dut.sent))
  {
    if g.connector.None? || !akm.dpp {
      ok := SetOrFail(dut, WpaKeyMgmt, "WPA-PSK", ApSecurity);
      if !ok { return; }
    }
    if g.connector.Some? && akm.dpp && akm.legacy {
      ok := SetOrFail(dut, WpaKeyMgmt, "DPP WPA-PSK", ApSecurity);
      if !ok { return; }
    }
    ok := ApplyCredentials(dut, g);
    if !ok { return; }
    ok := ApplyKeys(dut, g);
  }

  method ApplyCredentials(dut: Dut, g: ConfObject) returns (ok: bool)
    modifies dut`nextReply, dut`issued, dut`apConfig, dut`sent, dut`evidence
    ensures dut.apConfig ==
            old(dut.apConfig).(wpaPassphrase := dut.apConfig.wpaPassphrase, wpaPsk := dut.apConfig.wpaPsk)
    ensures ok ==> dut.sent == old(dut.sent) && HasCredentials(dut.apConfig, g)
    ensures !ok ==> FailedFor(dut, old(dut.sent))
  {
    ok := true;
    if g.pass != "" {
      ok := SetOrFail(dut, WpaPassphrase, UpToNul(g.pass), PassphraseNotSet);
    } else if g.psk.Some? {
      ok := SetOrFail(dut, WpaPsk, g.psk.value, PskNotSet);
    }
  }

  method ApplyKeys(dut: Dut, g: ConfObject) returns (ok: bool)
    modifies dut`nextReply, dut`issued, dut`apConfig, dut`sent, dut`evidence
    ensures dut.apConfig == old(dut.apConfig).(
                              dppConnector := dut.apConfig.dppConnector, dppCsign := dut.apConfig.dppCsign,
                              dppNetAccessKey := dut.apConfig.dppNetAccessKey,
                              dppNetAccessKeyExpiry := dut.apConfig.dppNetAccessKeyExpiry)
    ensures ok ==> dut.sent == old(dut.sent) && HasKeys(dut.apConfig, g)
    ensures !ok ==> FailedFor(dut, old(dut.sent))
  {
    ok := true;
    if g.connector.Some? {
      ok := SetOrFail(dut, DppConnector, g.connector.value, ApConnector);
      if !ok { return; }
    }
    if g.csign.Some? {
      ok := SetOrFail(dut, DppCsign, g.csign.value, ApCsign);
      if !ok { return; }
    }
    if g.netKey.Some? {
      match IndexOf(g.netKey.value, ' ') {
        case None =>
          ok := SetOrFail(dut, DppNetAccessKey, g.netKey.value, ApNetAccessKey);
        case Some(k) =>
          ok := SetOrFail(dut, DppNetAccessKey, g.netKey.value[..k], ApNetAccessKey);
          if !ok { return; }
          ok := SetOrFail(dut, DppNetAccessKeyExpiry, g.netKey.value[k + 1..], ApNetAccessKeyExpiry);
      }
    }
  }

  method ClearStartDisabled(dut: Dut) returns (ok: bool)
    modifies dut`nextReply, dut`issued, dut`apConfig, dut`sent, dut`evidence, dut`apStartDisabled
    ensures dut.apConfig == old(dut.apConfig) || dut.apConfig == old(dut.apConfig).(startDisabled := Some("0"))
    ensures ok ==> dut.sent == old(dut.sent) && !dut.apStartDisabled
    ensures ok && old(dut.apStartDisabled) ==> dut.apConfig.startDisabled == Some("0")
    ensures !ok ==> FailedFor(dut, old(dut.sent))
  {
    ok := dut.WpaCommand(Set(StartDisabled, "0"));
    if !ok && dut.apStartDisabled {
      dut.Fail(Refusal(ApSecurity));
      return;
    }
    dut.apStartDisabled := false;
    ok := true;
  }

  /** Wait up to a second for a Configuration Result to go out. */
  method AwaitTxStatus(dut: Dut) returns (ghost tail: Log)
    requires dut.exchange == Provisioning
    modifies dut`defaultTimeout, dut`future, dut`log
    ensures Idle(dut.exchange, old(dut.log), dut.log) && dut.log == old(dut.log).Append(tail)
    ensures dut.defaultTimeout == old(dut.defaultTimeout)
  {
    var oldTimeout := dut.defaultTimeout;
    dut.defaultTimeout := 1;
    var status := dut.GetOther(Only(TxStatus));
    tail := if status.Some? then Then(Opened, status.value) else Quiet(Opened, Only(TxStatus));
    dut.defaultTimeout := oldTimeout;
  }

  method CycleInterface(dut: Dut) returns (ok: bool, ghost tail: Log)
    requires dut.exchange == Provisioning
    modifies dut`nextReply, dut`issued, dut`apConfig, dut`sent, dut`evidence, dut`future, dut`log
    ensures Idle(dut.exchange, old(dut.log), dut.log) && dut.log == old(dut.log).Append(tail)
    ensures dut.apConfig == old(dut.apConfig)
    ensures if ok then dut.sent == old(dut.sent) else FailedFor(dut, old(dut.sent))
  {
    tail := Opened;
    ok := DisableAndEnable(dut);
    if !ok { return; }
    var up := dut.AwaitOrFail(Only(ApEnabled));
    ok := up.Some?;
    tail := if ok then Then(tail, up.value) else Quiet(tail, Only(ApEnabled));
  }

  method DisableAndEnable(dut: Dut) returns (ok: bool)
    modifies dut`nextReply, dut`issued, dut`apConfig, dut`sent, dut`evidence
    ensures dut.apConfig == old(dut.apConfig)
    ensures if ok then dut.sent == old(dut.sent) else FailedFor(dut, old(dut.sent))
  {
    if dut.apOperChn {
      var _ := dut.WpaCommand(Request(SetChannel));
    }
    ok := dut.WpaCommand(Request(Disable));
    if ok {
      ok := dut.WpaCommand(Request(Enable));
    }
    if !ok {
      dut.Fail(Refusal(ApConfiguration));
    }
  }

  lemma AppendAssoc(a: Log, b: Log, c: Log)
    ensures a.Append(b).Append(c) == a.Append(b.Append(c))
  {
  }

  /** Leave the unconfigured state and bring the interface up again; `tail` is what was heard on the way. */
  method RestartInterface(dut: Dut) returns (ok: bool, ghost tail: Log)
    requires dut.exchange == Provisioning
    modifies dut`nextReply, dut`issued, dut`apConfig, dut`sent, dut`evidence
    modifies dut`apStartDisabled, dut`defaultTimeout, dut`future, dut`log
    ensures Idle(dut.exchange, old(dut.log), dut.log) && dut.log == old(dut.log).Append(tail)
    ensures dut.defaultTimeout == old(dut.defaultTimeout)
    ensures dut.apConfig == old(dut.apConfig) || dut.apConfig == old(dut.apConfig).(startDisabled := Some("0"))
    ensures ok ==> dut.sent == old(dut.sent) && !dut.apStartDisabled
    ensures ok && old(dut.apStartDisabled) ==> dut.apConfig.startDisabled == Some("0")
    ensures !ok ==> FailedFor(dut, old(dut.sent))
  {
    ok := ClearStartDisabled(dut);
    if !ok { return ok, Opened; }
    tail := AwaitTxStatus(dut);
    ghost var more;
    ok, more := CycleInterface(dut);
    AppendAssoc(old(dut.log), tail, more);
    tail := tail.Append(more);
  }

  /** What the monitor delivered for a completed update. */
  datatype Heard = Heard(akm: Line, ssid: Line, data: Log, tail: Log)

  method HostapdConfUpdate(dut: Dut) returns (r: UpdateResult, ghost heard: Option<Heard>)
    requires dut.exchange == Provisioning
    modifies dut`nextReply, dut`issued, dut`apConfig, dut`sent, dut`evidence
    modifies dut`apStartDisabled, dut`defaultTimeout, dut`future, dut`log
    ensures Idle(dut.exchange, old(dut.log), dut.log)
    ensures dut.defaultTimeout == old(dut.defaultTimeout)
    ensures r.AlreadyAnswered? ==> FailedFor(dut, old(dut.sent))
    ensures !r.AlreadyAnswered? ==> dut.sent == old(dut.sent)
    ensures r.MalformedEvent? ==> EndsMalformed(dut.log)
    ensures r.Updated? ==> heard.Some? && UpdateFrom(heard.value, old(dut.log), dut.log, dut.apConfig)
    ensures r.Updated? && AllPlain(dut.log) ==> TakenFrom(heard.value, dut.apConfig)
    ensures r.Updated? ==> !dut.apStartDisabled
  {
    heard := None;
    var ok := SetSecurityDefaults(dut);
    if !ok { return AlreadyAnswered, heard; }
    var akmLine := AwaitLine(dut, ConfobjAkm);
    if akmLine.None? { return AlreadyAnswered, heard; }
    var akm := Argument(akmLine.value.text);
    if akm.None? { return MalformedEvent, heard; }
    var ssidLine := AwaitLine(dut, ConfobjSsid);
    if ssidLine.None? { return AlreadyAnswered, heard; }
    var ssid := Argument(ssidLine.value.text);
    if ssid.None? { return MalformedEvent, heard; }

    ghost var data; ghost var tail;
    ghost var before := dut.log;
    r, data, tail := UpdateWith(dut, ReadAkm(akm.value), ssid.value);
    heard := Some(Heard(akmLine.value, ssidLine.value, data, tail));
    if r.Updated? && AllPlain(dut.log) {
      PlainAppended(before.Append(data), tail);
      PlainAppended(before, data);
      PlainLines(data, ConfDataEvents);
      UpdateIsTakenOver(dut.apConfig, akm.value, ssid.value, data);
    }
  }

  /** The configuration is that of the lines that were heard. */
  ghost predicate TakenFrom(heard: Heard, config: ApConfig) {
    && Argument(heard.akm.text).Some? && Argument(heard.ssid.text).Some?
    && TakenOver(config, Argument(heard.akm.text).value, Argument(heard.ssid.text).value, heard.data.Lines())
  }

  /** Wait for a line of one event. */
  method AwaitLine(dut: Dut, e: Event) returns (got: Option<Line>)
    requires !dut.exchange.Marks(e) && !e.MudUrl?
    modifies dut`future, dut`log, dut`sent, dut`evidence
    ensures Idle(dut.exchange, old(dut.log), dut.log)
    ensures got.Some? ==> dut.sent == old(dut.sent) && dut.log == Then(old(dut.log), got.value) && Headed(got.value, e)
    ensures got.None? ==> FailedFor(dut, old(dut.sent))
  {
    got := dut.AwaitOrFail(Only(e));
    if got.Some? { OnlyHeads(got.value, e); }
  }

  /** `log` is `before` and the heard lines, and `config` is what they call for. */
  ghost predicate UpdateFrom(heard: Heard, before: Log, log: Log, config: ApConfig) {
    && log == Then(Then(before, heard.akm), heard.ssid).Append(heard.data).Append(heard.tail)
    && Headed(heard.akm, ConfobjAkm) && Headed(heard.ssid, ConfobjSsid)
    && Argument(heard.akm.text).Some? && Argument(heard.ssid.text).Some? && AbsorbAll(heard.data).Some?
    && Configures(config, ReadAkm(Argument(heard.akm.text).value), Argument(heard.ssid.text).value,
                  AbsorbAll(heard.data).value)
  }

  /** The update once the AKM list and the SSID are known. */
  method UpdateWith(dut: Dut, akm: Akm, ssid: string) returns (r: UpdateResult, ghost data: Log, ghost tail: Log)
    requires dut.exchange == Provisioning
    requires HasDefaults(dut.apConfig) && dut.apConfig.wpaKeyMgmt == Some("DPP")
    modifies dut`nextReply, dut`issued, dut`apConfig, dut`sent, dut`evidence
    modifies dut`apStartDisabled, dut`defaultTimeout, dut`future, dut`log
    ensures Idle(dut.exchange, old(dut.log), dut.log)
    ensures dut.defaultTimeout == old(dut.defaultTimeout)
    ensures r.AlreadyAnswered? ==> FailedFor(dut, old(dut.sent))
    ensures !r.AlreadyAnswered? ==> dut.sent == old(dut.sent)
    ensures r.MalformedEvent? ==> EndsMalformed(dut.log)
    ensures r.Updated? ==> AllRecognised(data, ConfDataEvents)
    ensures r.Updated? ==>
              && dut.log == old(dut.log).Append(data).Append(tail)
              && !dut.apStartDisabled
              && AbsorbAll(data).Some? && Configures(dut.apConfig, akm, ssid, AbsorbAll(data).value)
  {
    data, tail := Opened, Opened;
    var ok := SetOrFail(dut, Ssid, ssid, ApSsid);
    if !ok { return AlreadyAnswered, data, tail; }
    ok := SetOrFail(dut, Utf8Ssid, "1", ApUtf8Ssid);
    if !ok { return AlreadyAnswered, data, tail; }

    var g;
    r, g, data := CollectConfObject(dut, akm);
    if !r.Updated? { return; }
    ok := ApplyConfObject(dut, akm, ssid, g);
    if !ok { return AlreadyAnswered, data, tail; }
    ok, tail := RestartInterface(dut);
    if !ok { return AlreadyAnswered, data, tail; }
    r := Updated;
  }
}
