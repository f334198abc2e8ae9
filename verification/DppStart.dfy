/** `dpp_automatic_dpp` up to the point where the exchange with the peer is under way. */
module DppStart {
  import opened CText
  import opened DppLines
  import opened DppMonitor
  import opened DppHostapdUpdate
  import opened DppAutomatic
  import O = DppOrder

  /** The channel after hostapd has been started, unless it runs already: 11 if none was asked for. */
  function RunChannel(running: bool, operChn: bool, channel: int): int {
    if running || operChn then channel else 11
  }

  /** `dpp_hostapd_run` */
  method HostapdRun(dut: Dut) returns (ok: bool)
    modifies dut`apChannel, dut`apStartDisabled, dut`nextTrial
    ensures ok == (dut.hostapdRunning || dut.trials(old(dut.nextTrial)))
    ensures dut.nextTrial == old(dut.nextTrial) + if dut.hostapdRunning then 0 else 1
    ensures dut.apChannel == RunChannel(dut.hostapdRunning, dut.apOperChn, old(dut.apChannel))
    ensures dut.apStartDisabled == (old(dut.apStartDisabled) || (!dut.hostapdRunning && !dut.hasDppConf))
  {
    if dut.hostapdRunning { return true; }
    if !dut.apOperChn { dut.apChannel := 11; }
    if !dut.hasDppConf { dut.apStartDisabled := true; }
    ok := dut.Try();
  }

  /** `dpp_hostapd_beacon` */
  method HostapdBeacon(dut: Dut) returns (ok: bool)
    modifies dut`apStartDisabled, dut`nextReply, dut`issued, dut`apConfig
    ensures !ok ==> !dut.hasHostapdIfname || Refused(dut, Evidence(dut.nextReply, dut.nextTrial))
  {
    if !dut.apStartDisabled { return true; }
    if !dut.hasHostapdIfname { return false; }
    ok := dut.WpaCommand(Set(StartDisabled, "0"));
    if !ok { return; }
    ok := dut.WpaCommand(Request(Disable));
    if !ok { return; }
    ok := dut.WpaCommand(Request(Enable));
    if !ok { return; }
    dut.apStartDisabled := false;
  }

  /** What is known of bootstrapping: the data of the peer, and own data. */
  datatype Known = Known(peer: bool, own: bool)

  function KnownTo(dut: Dut): Known
    reads dut`dppPeerUri, dut`dppLocalBootstrap
  {
    Known(dut.dppPeerUri.Some?, dut.dppLocalBootstrap >= 0)
  }

  /** The order asks for what cannot be, or lacks what it needs. */
  predicate Unmet(o: O.Order, known: Known, d: BadDemand) {
    match d
    case MissingProvisioningRole => o.prov.NoProv?
    case UnknownProvisioningRole => !o.IsConfigurator() && !o.prov.Enrollee?
    case UnsupportedNetworkRole => o.netrole.OtherNetRole?
    case InvalidStepCombination => o.step.NoStep? != o.frame.NoFrame?
    case MissingPkexCode => o.bs.Pkex? && !o.pkexCodeGiven
    case UnsupportedConfIndex => o.confIndex != -1 && (o.confIndex < 1 || o.confIndex > 11)
    case Dot1xForAp => o.confIndex == 11 && o.enrolleeAp
    case MissingConfIndex => o.IsConfigurator() && o.confIndex == -1 && !o.enrolleeConfigurator
    case SelfConfigureOnlyConfigurator => o.selfConf && !o.prov.Configurator?
    case UnsupportedNfcTag => o.manual && o.bs.Nfc? && o.tag.OtherTag?
    case MissingBs => o.bs.NoBs?
    case UnsupportedBs => !o.bs.Qr? && !o.bs.Nfc? && (o.manual || (o.Requests() && !o.chirp && !o.bs.Pkex?))
    case MissingPeerBootstrap =>
      && !known.peer
      && ((o.Requests() && (o.bs.Qr? || o.bs.Nfc?)) || (o.Selects() && o.bs.Nfc? && !o.handover.Static?))
    case MissingOwnBootstrap => o.bs.Nfc? && !o.handover.Static? && !known.own
    case MissingAuthRole => o.manual && o.authRole.NoRole?
    case UnknownAuthRole =>
      (!o.Requests() && !o.Selects()) || (o.manual && !o.authRole.Initiator? && !o.authRole.Responder?)
    case TimeoutInConfiguratorRole => o.step.TimeoutStep? && !o.prov.Enrollee?
    case _ => UnmetChannel(o, d)
  }

  predicate UnmetChannel(o: O.Order, d: BadDemand) {
    match d
    case InvalidSubsequentChannel =>
      o.Requests() && CheckSubsequentChannel(o.subsequentChannel) == Some(InvalidSubsequentChannel)
    case UnsupportedSubsequentChannel =>
      o.Requests() && CheckSubsequentChannel(o.subsequentChannel) == Some(UnsupportedSubsequentChannel)
    case UnsupportedChirpChannel =>
      o.Requests() && o.chirp && o.chirpChannel.Some? && !O.HasFrequency(Atoi(o.chirpChannel.value))
    case UnsupportedListenChannel =>
      o.Selects() && o.listenChannel.Some? && !O.HasFrequency(Atoi(o.listenChannel.value))
    case _ => false
  }

  /** The fault has its cause in what has just happened, or in the order. */
  ghost predicate Blamed(dut: Dut, o: O.Order, known: Known, f: Fault)
    reads dut`log, dut`evidence, dut`replies, dut`trials
  {
    if f.Demand? then Unmet(o, known, f.demand) else Caused(dut, dut.log, dut.evidence, f)
  }

  /** Nothing about the order itself is to blame. */
  ghost predicate Complies(o: O.Order, known: Known) {
    forall d :: !Unmet(o, known, d)
  }

  /** One more answer, and an error. */
  ghost predicate FailedOn(dut: Dut, o: O.Order, known: Known, before: Answers)
    reads dut`sent, dut`log, dut`evidence, dut`replies, dut`trials
  {
    FailedWith(before, dut.sent) && Blamed(dut, o, known, dut.sent.last.fault)
  }

  /** One more answer: a truthful report, or an error that has its cause. */
  ghost predicate ToldOn(dut: Dut, o: O.Order, known: Known, before: Answers)
    reads dut`sent, dut`log, dut`exchange, dut`evidence, dut`replies, dut`trials
  {
    && OneMore(before, dut.sent) && (dut.sent.last.Complete? || dut.sent.last.Error?)
    && Truthful(dut.exchange, dut.log, dut.sent.last)
    && (dut.sent.last.Error? ==> Blamed(dut, o, known, dut.sent.last.fault))
  }

  /** The same, and a report of what did not come about. */
  ghost predicate CutShortOn(dut: Dut, o: O.Order, known: Known, before: Answers)
    reads dut`sent, dut`log, dut`exchange, dut`evidence, dut`replies, dut`trials
  {
    ToldOn(dut, o, known, before) && (dut.sent.last.Complete? ==> Negative(dut.sent.last.report))
  }

  /** Nothing that is waited for is to blame. */
  predicate IsPrompt(f: Fault) {
    f.Refusal? || f.Unanswered? || f.Mishap? || f.Demand?
  }

  /** An access point without its interface, or something that has just failed. */
  ghost predicate Unable(dut: Dut)
    reads dut`nextReply, dut`nextTrial, dut`replies, dut`trials
  {
    (dut.isAp && !dut.hasHostapdIfname) || JustFailed(dut)
  }

  /** A command is turned away, with its answer or with a status that the caller answers. */
  ghost predicate TurnedAway(dut: Dut, o: O.Order, known: Known, before: Answers, r: CmdResult)
    reads dut`sent, dut`log, dut`evidence, dut`nextReply, dut`nextTrial, dut`replies, dut`trials
  {
    if r.StatusSentError? then FailedOn(dut, o, known, before) && IsPrompt(dut.sent.last.fault)
    else r.ErrorSendStatus? && dut.sent == before && Unable(dut)
  }

  function IssuedIf(issued: Issued, condition: bool, verb: Verb): Issued {
    if condition then Issue(issued, Request(verb)) else issued
  }

  /** PKEX on an access point tunes it to channel 6 first. */
  function PkexIssued(issued: Issued, tunes: bool): Issued {
    var tuned := IssuedIf(IssuedIf(IssuedIf(issued, tunes, SetChannel), tunes, Disable), tunes, Enable);
    Issue(tuned, Request(BootstrapGen))
  }

  /** The commands that an accepted order needs before its exchange, in their order. */
  function PrepareIssued(issued: Issued, o: O.Order, adds: bool, tunes: bool): Issued {
    var ready := IssuedIf(IssuedIf(issued, o.mudUrlGiven, SetMudUrl), o.IsConfigurator() && adds, ConfiguratorAdd);
    if o.bs.Pkex? then PkexIssued(ready, tunes) else ready
  }

  /** The checks and preparations before the monitor is opened. */
  method Prepare(dut: Dut, o: O.Order) returns (refusal: Option<CmdResult>)
    modifies dut`nextReply, dut`issued, dut`nextTrial, dut`sent, dut`evidence
    modifies dut`apChannel, dut`apStartDisabled, dut`apConfig, dut`dppConfId
    modifies dut`exchange, dut`log
    ensures refusal.Some? ==> TurnedAway(dut, o, old(KnownTo(dut)), old(dut.sent), refusal.value)
    ensures refusal.None? && dut.isAp ==> dut.hasHostapdIfname
    ensures refusal.None? ==> dut.sent == old(dut.sent) && dut.exchange.Provisioning? && dut.log == Opened
    ensures refusal.None? ==> CheckOrder(o).None? && (o.IsConfigurator() || o.prov.Enrollee?)
    ensures refusal.None? && o.bs.Pkex? ==> o.pkexCodeGiven
    ensures var channel := RunChannel(dut.hostapdRunning, dut.apOperChn, old(dut.apChannel));
            refusal.None? ==>
              dut.issued == PrepareIssued(old(dut.issued), o, old(dut.dppConfId) < 0, dut.isAp && channel != 6)
  {
    refusal := PrepareDevice(dut, o);
    if refusal.Some? { return; }
    refusal := PrepareExchange(dut, o);
    if refusal.Some? { return; }
    var attached := dut.OpenMonitor(Provisioning);
    refusal := if attached then None else Some(ErrorSendStatus);
  }

  method PrepareDevice(dut: Dut, o: O.Order) returns (refusal: Option<CmdResult>)
    modifies dut`nextReply, dut`issued, dut`nextTrial, dut`sent, dut`evidence
    modifies dut`apChannel, dut`apStartDisabled, dut`apConfig
    ensures refusal.Some? ==> TurnedAway(dut, o, old(KnownTo(dut)), old(dut.sent), refusal.value)
    ensures refusal.None? ==> dut.sent == old(dut.sent) && CheckOrder(o).None? && (dut.isAp ==> dut.hasHostapdIfname)
    ensures refusal.None? ==> dut.issued == IssuedIf(old(dut.issued), o.mudUrlGiven, SetMudUrl)
    ensures refusal.None? && dut.isAp ==>
              dut.apChannel == RunChannel(dut.hostapdRunning, dut.apOperChn, old(dut.apChannel))
  {
    refusal := TakeOrder(dut, o);
    if refusal.None? && dut.isAp {
      refusal := PrepareAp(dut, o);
    }
  }

  method PrepareExchange(dut: Dut, o: O.Order) returns (refusal: Option<CmdResult>)
    modifies dut`nextReply, dut`issued, dut`sent, dut`evidence, dut`apChannel, dut`apConfig, dut`dppConfId
    ensures refusal.Some? ==> TurnedAway(dut, o, old(KnownTo(dut)), old(dut.sent), refusal.value)
    ensures refusal.None? ==> dut.sent == old(dut.sent) && (o.IsConfigurator() || o.prov.Enrollee?)
    ensures refusal.None? && o.bs.Pkex? ==> o.pkexCodeGiven
    ensures refusal.None? ==>
              var ready := IssuedIf(old(dut.issued), o.IsConfigurator() && old(dut.dppConfId) < 0, ConfiguratorAdd);
              dut.issued == if o.bs.Pkex? then PkexIssued(ready, dut.isAp && old(dut.apChannel) != 6) else ready
  {
    refusal := PrepareRole(dut, o);
    if refusal.None? && o.bs.Pkex? {
      refusal := PreparePkex(dut, o);
    }
  }

  method TakeOrder(dut: Dut, o: O.Order) returns (refusal: Option<CmdResult>)
    modifies dut`nextReply, dut`issued, dut`sent, dut`evidence, dut`apConfig
    ensures refusal.Some? ==> TurnedAway(dut, o, old(KnownTo(dut)), old(dut.sent), refusal.value)
    ensures refusal.None? ==> dut.sent == old(dut.sent) && CheckOrder(o).None?
    ensures refusal.None? ==> dut.issued == IssuedIf(old(dut.issued), o.mudUrlGiven, SetMudUrl)
  {
    refusal := None;
    var demand := CheckOrder(o);
    if demand.Some? {
      dut.Refuse(demand.value);
      refusal := Some(StatusSentError);
    } else if o.mudUrlGiven {
      var ok := dut.WpaCommand(Request(SetMudUrl));
      if !ok {
        dut.Fail(Refusal(MudUrlNotSet));
        refusal := Some(StatusSentError);
      }
    }
  }

  method PrepareAp(dut: Dut, o: O.Order) returns (refusal: Option<CmdResult>)
    modifies dut`nextTrial, dut`sent, dut`evidence, dut`apChannel, dut`apStartDisabled
    requires dut.isAp
    ensures refusal.Some? ==> TurnedAway(dut, o, old(KnownTo(dut)), old(dut.sent), refusal.value)
    ensures refusal.None? ==> dut.sent == old(dut.sent) && dut.hasHostapdIfname
    ensures refusal.None? ==> dut.apChannel == RunChannel(dut.hostapdRunning, dut.apOperChn, old(dut.apChannel))
  {
    if !dut.hasHostapdIfname { return Some(ErrorSendStatus); }
    refusal := None;
    var ok := HostapdRun(dut);
    if !ok {
      dut.Fail(Mishap(HostapdNotStarted));
      refusal := Some(StatusSentError);
    }
  }

  function CheckOrder(o: O.Order): Option<BadDemand> {
    if o.prov.NoProv? then Some(MissingProvisioningRole)
    else if o.netrole.OtherNetRole? then Some(UnsupportedNetworkRole)
    else if o.step.NoStep? != o.frame.NoFrame? then Some(InvalidStepCombination)
    else None
  }

  method PrepareRole(dut: Dut, o: O.Order) returns (refusal: Option<CmdResult>)
    modifies dut`nextReply, dut`issued, dut`sent, dut`evidence, dut`dppConfId
    ensures refusal.Some? ==> TurnedAway(dut, o, old(KnownTo(dut)), old(dut.sent), refusal.value)
    ensures refusal.None? ==> dut.sent == old(dut.sent) && (o.IsConfigurator() || o.prov.Enrollee?)
    ensures refusal.None? ==>
              dut.issued == IssuedIf(old(dut.issued), o.IsConfigurator() && old(dut.dppConfId) < 0, ConfiguratorAdd)
  {
    if o.IsConfigurator() {
      if dut.dppConfId < 0 {
        var reply := dut.WpaCommandResp(ConfiguratorAdd);
        if reply.NoReply? {
          dut.Fail(Unanswered(ConfiguratorNotSetUp));
          return Some(StatusSentError);
        }
        dut.dppConfId := Atoi(reply.text);
      }
    } else if !o.prov.Enrollee? {
      dut.Refuse(UnknownProvisioningRole);
      return Some(StatusSentError);
    }
    refusal := None;
  }

  method TuneForPkex(dut: Dut) returns (ok: bool)
    modifies dut`nextReply, dut`issued, dut`sent, dut`evidence, dut`apChannel, dut`apConfig
    ensures if ok then dut.sent == old(dut.sent) else FailedFor(dut, old(dut.sent)) && dut.sent.last.fault.Refusal?
    ensures ok ==>
              dut.issued == Issue(Issue(Issue(old(dut.issued), Request(SetChannel)), Request(Disable)), Request(Enable))
  {
    dut.apChannel := 6;
    ok := dut.WpaCommand(Request(SetChannel));
    if ok { ok := dut.WpaCommand(Request(Disable)); }
    if ok { ok := dut.WpaCommand(Request(Enable)); }
    if !ok {
      dut.Fail(Refusal(ChannelNotUpdated));
    }
  }

  method PreparePkex(dut: Dut, o: O.Order) returns (refusal: Option<CmdResult>)
    requires o.bs.Pkex?
    modifies dut`nextReply, dut`issued, dut`sent, dut`evidence, dut`apChannel, dut`apConfig
    ensures refusal.Some? ==> TurnedAway(dut, o, old(KnownTo(dut)), old(dut.sent), refusal.value)
    ensures refusal.None? ==> dut.sent == old(dut.sent) && o.pkexCodeGiven
    ensures refusal.None? ==> dut.issued == PkexIssued(old(dut.issued), dut.isAp && old(dut.apChannel) != 6)
  {
    if dut.isAp && dut.apChannel != 6 {
      var tuned := TuneForPkex(dut);
      if !tuned { return Some(StatusSentError); }
    }
    if !o.pkexCodeGiven {
      dut.Refuse(MissingPkexCode);
      return Some(StatusSentError);
    }
    var reply := dut.WpaCommandResp(BootstrapGen);
    if reply.NoReply? {
      dut.Fail(Unanswered(PkexNotSetUp));
      return Some(StatusSentError);
    }
    refusal := None;
  }

  /** What DPPConfIndex selects, as far as the control flow depends on it. */
  datatype Profile = Profile(hasConfRole: bool, hasCsr: bool, forceGas: bool)

  function BadIndex(confIndex: int): BadDemand {
    if confIndex == 11 then Dot1xForAp else UnsupportedConfIndex
  }

  /** The profile switch; the constant SSIDs and passphrases always fit their buffers. */
  method SelectProfile(dut: Dut, confIndex: int, enrolleeAp: bool) returns (profile: Option<Profile>)
    modifies dut`nextTrial, dut`sent, dut`evidence
    ensures profile.None? ==>
              FailedFor(dut, old(dut.sent)) || dut.sent == Answer(old(dut.sent), Error(Demand(BadIndex(confIndex))))
    ensures profile.None? && !FailedFor(dut, old(dut.sent)) ==>
              confIndex < 1 || confIndex > 11 || (confIndex == 11 && enrolleeAp)
    ensures profile.Some? ==> dut.sent == old(dut.sent) && profile.value.hasConfRole && 1 <= confIndex <= 11
    ensures profile.Some? ==> (profile.value.hasCsr <==> confIndex == 11 && !enrolleeAp)
    ensures profile.Some? ==> (profile.value.forceGas <==> confIndex == 7)
  {
    if 1 <= confIndex <= 10 {
      return Some(Profile(true, false, confIndex == 7));
    }
    if confIndex != 11 {
      dut.Refuse(UnsupportedConfIndex);
      return None;
    }
    if enrolleeAp {
      dut.Refuse(Dot1xForAp);
      return None;
    }
    var file := dut.Try();
    if file {
      var fits := dut.Try();
      if !fits {
        dut.Fail(Mishap(NoRoomForCsrAttrs));
        return None;
      }
    }
    profile := Some(Profile(true, true, false));
  }

  /** The profile that an order has selected. */
  predicate Selected(o: O.Order, profile: Profile) {
    profile.hasConfRole == (o.confIndex != -1 || o.enrolleeConfigurator)
  }

  /** Test settings in front of the exchange. */
  method ApplyTestSettings(dut: Dut, o: O.Order, profile: Profile) returns (ok: bool)
    modifies dut`nextTrial, dut`nextReply, dut`issued, dut`apConfig, dut`sent, dut`evidence
    ensures if ok then dut.sent == old(dut.sent) else FailedFor(dut, old(dut.sent))
    ensures ok ==> dut.issued == Issue(if profile.forceGas then Issue(old(dut.issued), Request(SetDiscoveryOverride))
                                       else old(dut.issued), Request(SetDppTest))
  {
    if profile.forceGas {
      ok := dut.WpaCommand(Request(SetDiscoveryOverride));
      if !ok {
        dut.Fail(Refusal(DiscoveryOverride));
        return;
      }
    }
    if o.step.NoStep? {
      var _ := dut.WpaCommand(Request(SetDppTest));
      return true;
    }
    ok := dut.Try();            // the step, frame and attribute are in dpp_tests
    if !ok {
      dut.Fail(Mishap(UnsupportedTest));
      return;
    }
    ok := dut.WpaCommand(Request(SetDppTest));
    if !ok {
      dut.Fail(Refusal(DppTestNotSet));
    }
  }

  /** Where the exchange goes on after it has been started. */
  datatype Flow = Out | Exchange | UpdateAp | AwaitConnection

  method SetConfiguratorParameters(dut: Dut, profile: Profile) returns (ok: bool)
    modifies dut`nextReply, dut`issued, dut`apConfig, dut`sent, dut`evidence
    ensures ok ==> dut.sent == old(dut.sent)
    ensures !ok ==> if profile.hasConfRole then FailedFor(dut, old(dut.sent))
                    else dut.sent == Answer(old(dut.sent), Error(Demand(MissingConfIndex)))
  {
    if !profile.hasConfRole {
      dut.Refuse(MissingConfIndex);
      return false;
    }
    ok := dut.WpaCommand(Request(SetConfiguratorParams));
    if !ok {
      dut.Fail(Refusal(ConfiguratorParams));
    }
  }

  method SelfConfiguration(dut: Dut, o: O.Order, profile: Profile) returns (flow: Flow)
    requires o.selfConf && Selected(o, profile)
    modifies dut`nextReply, dut`issued, dut`apConfig, dut`sent, dut`evidence
    ensures flow.Out? ==> FailedOn(dut, o, old(KnownTo(dut)), old(dut.sent))
    ensures !flow.Out? ==> dut.sent == old(dut.sent) && flow == if dut.isAp then UpdateAp else AwaitConnection
    ensures !flow.Out? ==> dut.issued == Issue(old(dut.issued), Request(ConfiguratorSign))
  {
    if !o.prov.Configurator? {
      dut.Refuse(SelfConfigureOnlyConfigurator);
      return Out;
    }
    if !profile.hasConfRole {
      dut.Refuse(MissingConfIndex);
      return Out;
    }
    var ok := dut.WpaCommand(Request(ConfiguratorSign));
    if !ok {
      dut.Fail(Refusal(SelfSigning));
      return Out;
    }
    flow := if dut.isAp then UpdateAp else AwaitConnection;
  }

  /** The manual NFC operation; `saved` is the function's saved timeout, which the polling loop reuses. */
  method NfcOperation(dut: Dut, o: O.Order, profile: Profile, saved: nat) returns (out: bool, saved': nat)
    requires o.manual && o.bs.Nfc?
    requires dut.exchange.Provisioning? && Selected(o, profile)
    modifies dut`nextReply, dut`issued, dut`nextTrial, dut`apConfig, dut`sent, dut`evidence
    modifies dut`defaultTimeout, dut`future, dut`log
    ensures dut.defaultTimeout == old(dut.defaultTimeout)
    ensures saved' == saved || saved' == dut.defaultTimeout
    ensures Idle(dut.exchange, old(dut.log), dut.log)
    ensures if out then FailedOn(dut, o, old(KnownTo(dut)), old(dut.sent)) else dut.sent == old(dut.sent)
  {
    saved' := saved;
    if o.IsConfigurator() {
      var ok := SetConfiguratorParameters(dut, profile);
      if !ok { return true, saved'; }
    }
    if o.tag.OtherTag? {
      dut.Refuse(UnsupportedNfcTag);
      return true, saved';
    }
    out, saved' := RunNfcScript(dut, saved);
  }

  method RunNfcScript(dut: Dut, saved: nat) returns (out: bool, saved': nat)
    requires dut.exchange.Provisioning?
    modifies dut`nextTrial, dut`sent, dut`evidence, dut`defaultTimeout, dut`future, dut`log
    ensures dut.defaultTimeout == old(dut.defaultTimeout)
    ensures saved' == saved || saved' == dut.defaultTimeout
    ensures Idle(dut.exchange, old(dut.log), dut.log)
    ensures if out then FailedFor(dut, old(dut.sent)) else dut.sent == old(dut.sent)
  {
    var found := dut.Try();
    if !found {
      dut.Fail(Mishap(NfcScriptMissing));
      return true, saved;
    }
    var forked := dut.Try();
    if !forked {
      dut.Fail(Mishap(ForkFailed));
      return true, saved;
    }
    out, saved' := PollNfc(dut, saved);
  }

  /** The script is polled until it has ended well, or a frame event says that the exchange is under way. */
  method PollNfc(dut: Dut, saved: nat) returns (out: bool, saved': nat)
    requires dut.exchange.Provisioning?
    modifies dut`nextTrial, dut`sent, dut`evidence, dut`defaultTimeout, dut`future, dut`log
    ensures !out ==> (dut.nextTrial > 0 && dut.trials(dut.nextTrial - 1)) ||
                     (dut.log.Then? && Recognised(dut.log.line, TxRxEvents))
    ensures dut.defaultTimeout == old(dut.defaultTimeout)
    ensures saved' == saved || saved' == dut.defaultTimeout
    ensures Idle(dut.exchange, old(dut.log), dut.log)
    ensures if out then FailedFor(dut, old(dut.sent)) else dut.sent == old(dut.sent)
  {
    saved' := saved;
    var polls := dut.nfcPolls;
    while true
      invariant dut.defaultTimeout == old(dut.defaultTimeout)
      invariant saved' == saved || saved' == dut.defaultTimeout
      invariant Idle(dut.exchange, old(dut.log), dut.log) && dut.sent == old(dut.sent)
      decreases polls
    {
      var exited := dut.Try();
      if exited {
        var fine := dut.Try();  // exit status other than 1
        if !fine {
          dut.Fail(Mishap(NfcOperationFailed));
          return true, saved';
        }
        return false, saved';
      }
      if polls == 0 {
        dut.Fail(Mishap(NfcNotInTime));
        return true, saved';
      }
      polls := polls - 1;
      saved' := dut.defaultTimeout;
      dut.defaultTimeout := 2;
      var got := dut.GetOther(TxRxEvents);
      dut.defaultTimeout := saved';
      if got.Some? { return false, saved'; }
    }
  }

  // ------------------------------------------------------------ as initiator

  /** The frequency that DPPSubsequentChannel asks for can be used, if it asks for one. */
  function CheckSubsequentChannel(channel: Option<string>): Option<BadDemand> {
    match channel
    case None => None
    case Some(text) =>
      match IndexOf(text, '/')
      case None => Some(InvalidSubsequentChannel)
      case Some(k) =>
        if Atoi(text) == 0 then Some(InvalidSubsequentChannel)
        else if !O.HasFrequency(Atoi(text[k + 1..])) then Some(UnsupportedSubsequentChannel)
        else None
  }

  /** A class and a channel, printed with a slash between, are fine exactly if neither is nonsense. */
  lemma PrintedChannel(class_: nat, channel: nat)
    ensures CheckSubsequentChannel(Some(Decimal(class_) + ("/" + Decimal(channel)))).None?
       <==> class_ != 0 && (1 <= channel <= 14 || 36 <= channel <= 165)
  {
    var behind := "/" + Decimal(channel);
    var text := Decimal(class_) + behind;
    AtoiReadsDecimal(class_, behind, ' ');
    AtoiReadsDecimal(channel, "", ' ');
    assert Decimal(channel) + "" == Decimal(channel);
    assert forall i :: 0 <= i < |Decimal(class_)| ==> text[i] == Decimal(class_)[i];
    FirstIsIndexOf(text, '/', |Decimal(class_)|);
    assert text[|Decimal(class_)| + 1..] == Decimal(channel);
  }

  /** Hand the peer's bootstrapping information to the supplicant. */
  method UsePeerBootstrap(dut: Dut, o: O.Order) returns (ok: bool)
    requires o.Requests()
    modifies dut`nextReply, dut`issued, dut`sent, dut`evidence
    ensures if ok then dut.sent == old(dut.sent) else FailedOn(dut, o, old(KnownTo(dut)), old(dut.sent))
  {
    if !o.bs.Qr? && !o.bs.Nfc? { return true; }
    if dut.dppPeerUri.None? {
      dut.Refuse(MissingPeerBootstrap);
      return false;
    }
    if o.bs.Qr? {
      var reply := dut.WpaCommandResp(QrCode);
      if !reply.OkReply? {
        dut.Fail(Refusal(UriNotParsed));
        return false;
      }
    } else if o.handover.Static? {
      var reply := dut.WpaCommandResp(NfcUri);
      if !reply.OkReply? {
        dut.Fail(Refusal(NfcTagUri));
        return false;
      }
    } else {
      if dut.dppLocalBootstrap < 0 {
        dut.Refuse(MissingOwnBootstrap);
        return false;
      }
      var reply := dut.WpaCommandResp(NfcHandoverSel);
      if !reply.OkReply? {
        dut.Fail(Refusal(NfcHandoverSelect));
        return false;
      }
    }
    ok := true;
  }

  method InitiateChirp(dut: Dut, o: O.Order, profile: Profile) returns (verb: Option<Verb>)
    requires o.Requests()
    requires o.chirp && Selected(o, profile)
    ensures verb.Some? ==> verb.value == InitiatorVerb(o)
    modifies dut`nextReply, dut`issued, dut`apConfig, dut`sent, dut`evidence
    ensures if verb.Some? then dut.sent == old(dut.sent) else FailedOn(dut, o, old(KnownTo(dut)), old(dut.sent))
  {
    if o.chirpChannel.Some? && !O.HasFrequency(Atoi(o.chirpChannel.value)) {
      dut.Refuse(UnsupportedChirpChannel);
      return None;
    }
    if o.IsConfigurator() {
      var ok := SetConfiguratorParameters(dut, profile);
      if !ok { return None; }
    }
    if o.tcp {
      var _ := dut.WpaCommand(Request(StopListen));
      return Some(ControllerStart);
    }
    verb := Some(Listen);
  }

  /** The command that starts the exchange of an initiator, and of a responder. */
  function InitiatorVerb(o: O.Order): Verb {
    if o.chirp then if o.tcp then ControllerStart else Listen
    else if o.bs.Pkex? then PkexAdd else AuthInit
  }

  function ResponderVerb(o: O.Order): Verb {
    if o.chirp then Chirp_ else if o.tcp then ControllerStart else Listen
  }

  /** The last command that was issued. */
  ghost predicate JustIssued(issued: Issued, verb: Verb) {
    issued.Issue? && issued.last == Request(verb)
  }

  method Initiate(dut: Dut, o: O.Order, profile: Profile) returns (ok: bool)
    requires o.Requests()
    requires Selected(o, profile)
    modifies dut`nextReply, dut`issued, dut`apConfig, dut`sent, dut`evidence
    ensures if ok then dut.sent == old(dut.sent) else FailedOn(dut, o, old(KnownTo(dut)), old(dut.sent))
    ensures ok ==> JustIssued(dut.issued, InitiatorVerb(o)) && CheckSubsequentChannel(o.subsequentChannel).None?
  {
    var fault := CheckSubsequentChannel(o.subsequentChannel);
    if fault.Some? {
      dut.Refuse(fault.value);
      return false;
    }
    ok := UsePeerBootstrap(dut, o);
    if !ok { return; }
    var verb: Verb;
    if o.chirp {
      var chirped := InitiateChirp(dut, o, profile);
      if chirped.None? { return false; }
      verb := chirped.value;
    } else {
      if !o.bs.Qr? && !o.bs.Nfc? && !o.bs.Pkex? {
        dut.Refuse(UnsupportedBs);
        return false;
      }
      if o.IsConfigurator() && !profile.hasConfRole {
        dut.Refuse(MissingConfIndex);
        return false;
      }
      verb := if o.bs.Pkex? then PkexAdd else AuthInit;
    }
    ok := dut.WpaCommand(Request(verb));
    if !ok {
      dut.Fail(Refusal(AuthNotInitiated));
    }
  }

  // ------------------------------------------------------------ as responder

  method PrepareListen(dut: Dut, o: O.Order) returns (ok: bool)
    requires o.Selects()
    modifies dut`nextReply, dut`issued, dut`apConfig, dut`apStartDisabled, dut`sent, dut`evidence
    ensures if ok then dut.sent == old(dut.sent) else FailedOn(dut, o, old(KnownTo(dut)), old(dut.sent))
  {
    if o.listenChannel.Some? {
      if !O.HasFrequency(Atoi(o.listenChannel.value)) {
        dut.Refuse(UnsupportedListenChannel);
        return false;
      }
      if dut.isAp && !o.chirp && dut.apStartDisabled && Atoi(o.listenChannel.value) != dut.apChannel {
        var _ := dut.WpaCommand(Request(SetChannel));
      }
    }
    ok := true;
    if dut.isAp {
      ok := HostapdBeacon(dut);
      if !ok {
        dut.Fail(ApListenNotStarted);
      }
    }
  }

  /** The bootstrapping information that is used before listening. */
  method UseBootstrapForListen(dut: Dut, o: O.Order) returns (ok: bool)
    requires o.Selects()
    modifies dut`nextReply, dut`issued, dut`apConfig, dut`sent, dut`evidence
    ensures if ok then dut.sent == old(dut.sent) else FailedOn(dut, o, old(KnownTo(dut)), old(dut.sent))
  {
    ok := true;
    if o.bs.Nfc? && o.handover.Static? {
      return;
    }
    if o.bs.Nfc? {
      if dut.dppPeerUri.None? {
        dut.Refuse(MissingPeerBootstrap);
        return false;
      }
      if dut.dppLocalBootstrap < 0 {
        dut.Refuse(MissingOwnBootstrap);
        return false;
      }
      ok := dut.WpaCommand(Request(NfcHandoverReq));
      if !ok {
        dut.Fail(Refusal(NfcHandoverRequest));
        return;
      }
      var info := dut.WpaCommandResp(BootstrapInfo_);
      ok := info.OkReply?;
      if !ok {
        dut.Fail(Refusal(BootstrapInfo));
      }
    } else if !o.delayQrResponse && dut.dppPeerUri.Some? {
      ok := ParsePeerQrCode(dut);
    }
  }

  method ParsePeerQrCode(dut: Dut) returns (ok: bool)
    modifies dut`nextReply, dut`issued, dut`sent, dut`evidence
    ensures dut.issued == Issue(old(dut.issued), Request(QrCode))
    ensures if ok then dut.sent == old(dut.sent) else FailedFor(dut, old(dut.sent))
  {
    var reply := dut.WpaCommandResp(QrCode);
    ok := !reply.NoReply?;
    if !ok {
      dut.Fail(Refusal(UriNotParsed));
    }
  }

  method StartListening(dut: Dut, o: O.Order, profile: Profile) returns (ok: bool)
    requires o.Selects()
    requires Selected(o, profile)
    modifies dut`nextReply, dut`issued, dut`apConfig, dut`apStartDisabled, dut`sent, dut`evidence
    ensures if ok then dut.sent == old(dut.sent) else FailedOn(dut, o, old(KnownTo(dut)), old(dut.sent))
    ensures ok ==> JustIssued(dut.issued, ResponderVerb(o)) && (o.bs.Pkex? ==> JustIssued(dut.issued.before, PkexAdd))
  {
    ok := PrepareListen(dut, o);
    if !ok { return; }
    ok := UseBootstrapForListen(dut, o);
    if !ok { return; }
    if o.prov.Configurator? {
      ok := SetConfiguratorParameters(dut, profile);
      if !ok { return; }
    }
    if o.bs.Pkex? {
      ok := dut.WpaCommand(Request(PkexAdd));
      if !ok {
        dut.Fail(Refusal(PkexNotConfigured));
        return;
      }
    }
    ok := dut.WpaCommand(Request(if o.chirp then Chirp_ else if o.tcp then ControllerStart else Listen));
    if !ok {
      dut.Fail(Refusal(ListenNotStarted));
    }
  }

  /** `dpp_scan_peer_qrcode` */
  method ScanPeerQrcode(dut: Dut) returns (ok: bool)
    modifies dut`nextTrial, dut`dppPeerUri
    ensures ok == dut.trials(old(dut.nextTrial)) && dut.nextTrial == old(dut.nextTrial) + 1
    ensures dut.dppPeerUri == if ok then Some(dut.scannedUri) else old(dut.dppPeerUri)
  {
    ok := dut.Try();
    if ok {
      dut.dppPeerUri := Some(dut.scannedUri);
    }
  }

  /** Wait for the peer's QR Code to be asked for, where the command delays or scans it. */
  method AwaitScanRequest(dut: Dut, o: O.Order) returns (out: bool)
    requires dut.exchange.Provisioning? && AtStage(dut.exchange, dut.log, Nothing)
    modifies dut`nextReply, dut`issued, dut`nextTrial, dut`sent, dut`evidence, dut`dppPeerUri, dut`future, dut`log
    ensures out ==> CutShort(dut, old(dut.sent))
    ensures !out ==> dut.sent == old(dut.sent) && AtStage(dut.exchange, dut.log, Nothing)
    ensures dut.issued == old(dut.issued) || dut.issued == Issue(old(dut.issued), Request(QrCode))
    ensures dut.dppPeerUri == old(dut.dppPeerUri) || dut.dppPeerUri.Some?
    ensures !o.mutual ==> dut.log == old(dut.log) && dut.future == old(dut.future) && !out
  {
    var delayed := o.delayQrResponse && o.mutual && dut.dppPeerUri.Some?;
    if !delayed && !(o.mutual && o.manual) {
      return false;
    }
    var got := AwaitAuth(dut);
    if got.None? {
      Tell(dut, NOTHING_DONE.(auth := TimedOut));
      return true;
    }
    if !delayed && Says(got.value, NotCompatible) {
      Tell(dut, NOTHING_DONE.(auth := RolesNotCompatible));
      return true;
    }
    if !Says(got.value, ScanPeerQrCode) {
      dut.Fail(Deviation(NoScanRequest));
      return true;
    }
    if !delayed {
      var scanned := ScanPeerQrcode(dut);
      if !scanned {
        dut.Fail(Mishap(PeerQrCodeNotScanned));
        return true;
      }
    }
    var ok := ParsePeerQrCode(dut);
    out := !ok;
  }

  /** The exchange was started in its role; a responder may have parsed the peer's code since. */
  ghost predicate Started(issued: Issued, o: O.Order) {
    if o.Requests() then JustIssued(issued, InitiatorVerb(o))
    else o.Selects() && (JustIssued(issued, ResponderVerb(o)) ||
                         (JustIssued(issued, QrCode) && JustIssued(issued.before, ResponderVerb(o))))
  }

  /** Start the exchange in the role that the command asks for. */
  method StartExchange(dut: Dut, o: O.Order, profile: Profile, saved: nat)
    returns (flow: Flow, checkMutual: bool, saved': nat)
    requires dut.exchange.Provisioning? && AtStage(dut.exchange, dut.log, Nothing) && Selected(o, profile)
    modifies dut`nextReply, dut`issued, dut`nextTrial, dut`sent, dut`evidence
    modifies dut`apConfig, dut`apStartDisabled, dut`dppPeerUri
    modifies dut`defaultTimeout, dut`future, dut`log
    ensures dut.defaultTimeout == old(dut.defaultTimeout)
    ensures saved' == saved || (o.manual && o.bs.Nfc? && saved' == dut.defaultTimeout)
    ensures flow.Out? ==> CutShortOn(dut, o, old(KnownTo(dut)), old(dut.sent))
    ensures !flow.Out? ==> dut.sent == old(dut.sent)
    ensures flow.Exchange? <==> !flow.Out? && !o.selfConf
    ensures flow.Exchange? ==> AtStage(dut.exchange, dut.log, Nothing)
    ensures flow.Exchange? && !(o.manual && o.bs.Nfc?) ==> Started(dut.issued, o)
    ensures checkMutual == (o.mutual && !o.selfConf && !(o.manual && o.bs.Nfc?) && o.Requests())
    ensures !o.mutual && !(o.manual && o.bs.Nfc?) ==> dut.log == old(dut.log) && dut.future == old(dut.future)
  {
    checkMutual, saved' := false, saved;
    if o.selfConf {
      flow := SelfConfiguration(dut, o, profile);
    } else if o.manual && o.bs.Nfc? {
      var out;
      out, saved' := NfcOperation(dut, o, profile, saved);
      flow := if out then Out else Exchange;
    } else if o.Requests() {
      var ok := Initiate(dut, o, profile);
      checkMutual := o.mutual;
      flow := if ok then Exchange else Out;
    } else if o.Selects() {
      var ok := StartListening(dut, o, profile);
      if !ok { return Out, checkMutual, saved'; }
      var out := AwaitScanRequest(dut, o);
      flow := if out then Out else Exchange;
    } else {
      dut.Refuse(UnknownAuthRole);
      flow := Out;
    }
  }
}
