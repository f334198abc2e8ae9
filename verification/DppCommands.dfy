/** The DPP actions, from `dpp_dev_exec_action` down to the end of their exchanges. */
module DppCommands {
  import opened CText
  import opened DppLines
  import opened DppMonitor
  import opened DppHostapdUpdate
  import opened DppAutomatic
  import opened DppStart
  import O = DppOrder

  // ------------------------------------------------------ after configuration

  /** The last line is of this event and carries the number. */
  ghost predicate Carries(log: Log, e: Event, number: int) {
    && log.Then? && Headed(log.line, e)
    && Argument(log.line.text).Some? && number == Atoi(Argument(log.line.text).value)
  }

  /** The number behind the first blank of the next line of one event. */
  method AwaitNumber(dut: Dut, e: Event) returns (number: Option<int>)
    requires e.ConfiguratorId? || e.NetworkId?
    modifies dut`future, dut`log, dut`sent, dut`evidence
    ensures Idle(dut.exchange, old(dut.log), dut.log)
    ensures if number.Some? then dut.sent == old(dut.sent) else FailedFor(dut, old(dut.sent))
    ensures number.Some? ==> Carries(dut.log, e, number.value)
  {
    number := None;
    var got := dut.AwaitOrFail(Only(e));
    if got.Some? {
      OnlyHeads(got.value, e);
      var arg := Argument(got.value.text);
      if arg.None? {
        dut.Fail(WithoutArgument(e));
      } else {
        number := Some(Atoi(arg.value));
      }
    }
  }

  /** The provisioned network uses SAE, whose PMKSA event does not stand for network introduction. */
  method AsksForSae(dut: Dut) returns (sae: Option<bool>)
    modifies dut`nextReply, dut`issued, dut`sent, dut`evidence
    ensures if sae.Some? then dut.sent == old(dut.sent) else FailedFor(dut, old(dut.sent))
    ensures var reply := dut.replies(old(dut.nextReply));
            sae == if reply.NoReply? then None else Some("SAE" <= reply.text)
  {
    var reply := dut.WpaCommandResp(GetNetwork);
    if reply.NoReply? {
      dut.Fail(Unanswered(KeyMgmtUnknown));
      return None;
    }
    sae := Some("SAE" <= reply.text);
  }

  /** One more answer: a report that is truthful if the exchange was, or an error that has its cause. */
  ghost predicate ToldIf(dut: Dut, before: Answers, honest: bool)
    reads dut`sent, dut`log, dut`exchange, dut`evidence, dut`replies, dut`trials
  {
    && OneMore(before, dut.sent) && (dut.sent.last.Complete? || dut.sent.last.Error?)
    && (honest ==> Truthful(dut.exchange, dut.log, dut.sent.last))
    && (dut.sent.last.Error? ==> Caused(dut, dut.log, dut.evidence, dut.sent.last.fault))
  }

  /** Nothing about the configuration has come since. */
  ghost predicate SameConf(x: Exchange, before: Log, now: Log) {
    AllPlain(now) ==> AllPlain(before) && GistOf(x, now).conf == GistOf(x, before).conf
  }

  /** The report on the connection, for what will happen. */
  function ConnectionReport(future: Future, done: Report, early: Report, notDppAkm: bool): Report {
    match Await(future, ConnEvents)
    case Wait(None, _) => early
    case Wait(Some(first), rest) =>
      if !Says(first, PmksaCacheAdded) then done.(connect := Ok)
      else SecondReport(rest, if notDppAkm then done else done.(intro := Ok))
  }

  function SecondReport(future: Future, done: Report): Report {
    var got := Await(future, ConnEvents).got;
    done.(connect := if got.Some? && Says(got.value, Connected_) then Ok else TimedOut)
  }

  /** Wait for the connection and report it. `done` reports the configuration, `early` a first wait that fails. */
  method ReportConnection(dut: Dut, done: Report, early: Report, notDppAkm: bool, ghost honest: bool)
    requires Standing(done) && early.mudUrl.None?
    requires Standing(early.(intro := Unsaid, connect := Unsaid)) && !early.intro.Ok? && early.connect.TimedOut?
    requires honest ==> AtStage(dut.exchange, dut.log, Configured)
    modifies dut`future, dut`log, dut`sent, dut`evidence
    ensures ToldIf(dut, old(dut.sent), honest)
    ensures honest ==> SameConf(dut.exchange, old(dut.log), dut.log)
    ensures dut.sent.last == Complete(ConnectionReport(old(dut.future), done, early, notDppAkm))
  {
    var got := dut.GetEvents(ConnEvents);
    if got.None? {
      Tell(dut, early);
      return;
    }
    if Plain(got.value) {
      PlainSaysOne(got.value, ConnEvents);
    }
    if !Says(got.value, PmksaCacheAdded) {
      ConnOtherwise(got.value);
      Tell(dut, done.(connect := Ok));
      return;
    }
    assert honest ==> AtStage(dut.exchange, dut.log, if Says(got.value, Connected_) then Connected else Configured);
    assert honest && AllPlain(dut.log) ==> Reached(dut.exchange, dut.log) == Configured;
    ReportSecondConnEvent(dut, if notDppAkm then done else done.(intro := Ok), honest);
  }

  method ReportSecondConnEvent(dut: Dut, done: Report, ghost honest: bool)
    requires Standing(done.(intro := Unsaid)) && (done.intro.Ok? || done.intro.Unsaid?)
    requires honest ==> AtStage(dut.exchange, dut.log, Configured)
    requires honest && done.intro.Ok? ==> dut.log.Then? && Says(dut.log.line, PmksaCacheAdded) &&
                                          Reached(dut.exchange, dut.log.before).Rank() >= Configured.Rank()
    modifies dut`future, dut`log, dut`sent, dut`evidence
    ensures ToldIf(dut, old(dut.sent), honest)
    ensures honest ==> SameConf(dut.exchange, old(dut.log), dut.log)
    ensures dut.sent.last == Complete(SecondReport(old(dut.future), done))
  {
    var got := dut.GetEvents(ConnEvents);
    Tell(dut, done.(connect := if got.Some? && Says(got.value, Connected_) then Ok else TimedOut));
  }

  const CONNECT_TIMEOUT := CONF_DONE.(intro := TimedOut, connect := TimedOut)

  /** The result of a test of a peer discovery frame. */
  method ReportDiscovery(dut: Dut, frameType: nat, ghost honest: bool)
    requires frameType <= 10 && dut.exchange.Provisioning? && (honest ==> AtStage(dut.exchange, dut.log, Configured))
    modifies dut`future, dut`log, dut`sent, dut`evidence
    ensures ToldIf(dut, old(dut.sent), honest)
    ensures honest ==> SameConf(dut.exchange, old(dut.log), dut.log)
    ensures dut.sent.last ==
            Complete(CONF_DONE.(intro := Seen(old(AwaitStatus(dut.future, TypeTag(frameType))).0)))
  {
    var tx := WaitTxStatus(dut, TypeTag(frameType));
    Tell(dut, CONF_DONE.(intro := Seen(tx)));
  }

  /** The `wait_connect` label of the provisioning command. */
  method WaitConnect(dut: Dut, o: O.Order, notDppAkm: bool, ghost honest: bool)
    requires dut.exchange.Provisioning? && (honest ==> AtStage(dut.exchange, dut.log, Configured))
    modifies dut`future, dut`log, dut`sent, dut`evidence
    ensures ToldIf(dut, old(dut.sent), honest)
    ensures honest ==> SameConf(dut.exchange, old(dut.log), dut.log)
    ensures o.frame.NoFrame? ==>
              dut.sent.last == Complete(ConnectionReport(old(dut.future), CONF_DONE, CONNECT_TIMEOUT, notDppAkm))
  {
    if o.frame.PeerDiscoveryRequest? {
      ReportDiscovery(dut, 5, honest);
      return;
    }
    ReportConnection(dut, CONF_DONE, CONNECT_TIMEOUT, notDppAkm, honest);
  }

  /** The order waits for the connection of a station. */
  predicate AwaitsConnection(o: O.Order, isAp: bool) {
    o.waitConn && !isAp && o.prov.Enrollee?
  }

  /** What is to be reported if all goes well. */
  function Asked(o: O.Order, isAp: bool): Stage {
    if AwaitsConnection(o, isAp) then Connected else Configured
  }

  /** A report that ends an exchange: of what did not come about, or of the stage that was asked for. */
  predicate Conclusive(asked: Stage, r: Response) {
    r.Complete? ==> Negative(r.report) || (Claim(r) == asked && r.report.status.None? && !r.report.statusTimeout)
  }

  /** From the connection on: wait for it if asked to, and report. */
  method Finish(dut: Dut, o: O.Order, mudUrl: Option<string>, ghost honest: bool)
    requires dut.exchange.Provisioning? && (honest ==> AtStage(dut.exchange, dut.log, Configured))
    requires honest && AllPlain(dut.log) ==> GistOf(dut.exchange, dut.log).url == mudUrl
    modifies dut`future, dut`log, dut`sent, dut`evidence, dut`nextReply, dut`issued
    modifies dut`dppNetworkId, dut`defaultTimeout
    ensures dut.defaultTimeout == old(dut.defaultTimeout)
    ensures ToldIf(dut, old(dut.sent), honest)
    ensures honest ==> SameConf(dut.exchange, old(dut.log), dut.log)
    ensures o.frame.NoFrame? ==> Conclusive(Asked(o, dut.isAp), dut.sent.last)
    ensures o.frame.NoFrame? && !AwaitsConnection(o, dut.isAp) ==>
              dut.sent.last == Complete(CONF_DONE.(mudUrl := mudUrl))
  {
    if AwaitsConnection(o, dut.isAp) {
      FinishConnected(dut, o, honest);
    } else {
      FinishUnconnected(dut, o, mudUrl, honest);
    }
  }

  /** The report of a configuration after which no connection is waited for. */
  method FinishUnconnected(dut: Dut, o: O.Order, mudUrl: Option<string>, ghost honest: bool)
    requires dut.exchange.Provisioning? && (honest ==> AtStage(dut.exchange, dut.log, Configured))
    requires honest && AllPlain(dut.log) ==> GistOf(dut.exchange, dut.log).url == mudUrl
    modifies dut`future, dut`log, dut`sent, dut`evidence, dut`dppNetworkId, dut`defaultTimeout
    ensures dut.defaultTimeout == old(dut.defaultTimeout)
    ensures ToldIf(dut, old(dut.sent), honest)
    ensures honest ==> SameConf(dut.exchange, old(dut.log), dut.log)
    ensures !(o.waitConn && o.frame.PeerDiscoveryResponse?) ==>
              dut.sent.last == Complete(CONF_DONE.(mudUrl := mudUrl))
  {
    if !dut.isAp && o.prov.Enrollee? {
      StoreNetworkId(dut);
    }
    if o.waitConn && o.frame.PeerDiscoveryResponse? {
      ReportDiscovery(dut, 6, honest);
    } else {
      Tell(dut, CONF_DONE.(mudUrl := mudUrl));
    }
  }

  /** The network of a station, and then its connection. */
  method FinishConnected(dut: Dut, o: O.Order, ghost honest: bool)
    requires dut.exchange.Provisioning? && (honest ==> AtStage(dut.exchange, dut.log, Configured))
    modifies dut`future, dut`log, dut`sent, dut`evidence, dut`nextReply, dut`issued, dut`dppNetworkId
    ensures ToldIf(dut, old(dut.sent), honest)
    ensures honest ==> SameConf(dut.exchange, old(dut.log), dut.log)
    ensures o.frame.NoFrame? ==> Conclusive(Connected, dut.sent.last)
  {
    var network := AwaitNumber(dut, NetworkId);
    if network.None? { return; }
    var sae := AsksForSae(dut);
    if sae.None? { return; }
    dut.dppNetworkId := network.value;
    WaitConnect(dut, o, sae.value, honest);
  }

  /** Keep the network id for a later reconfiguration, if it arrives within three seconds. */
  method StoreNetworkId(dut: Dut)
    requires dut.exchange.Provisioning?
    modifies dut`future, dut`log, dut`dppNetworkId, dut`defaultTimeout
    ensures Idle(dut.exchange, old(dut.log), dut.log)
    ensures dut.defaultTimeout == old(dut.defaultTimeout)
    ensures if dut.log.Then? && Argument(dut.log.line.text).Some? then Carries(dut.log, NetworkId, dut.dppNetworkId)
            else dut.dppNetworkId == old(dut.dppNetworkId)
  {
    var oldTimeout := dut.defaultTimeout;
    dut.defaultTimeout := 3;
    var got := dut.GetOther(Only(NetworkId));
    dut.defaultTimeout := oldTimeout;
    if got.Some? { OnlyHeads(got.value, NetworkId); }
    if got.Some? && Argument(got.value.text).Some? {
      dut.dppNetworkId := Atoi(Argument(got.value.text).value);
    }
  }

  /** The `update_ap` label. */
  method ApUpdate(dut: Dut) returns (out: bool)
    requires dut.exchange.Provisioning?
    modifies dut`nextReply, dut`issued, dut`apConfig, dut`sent, dut`evidence
    modifies dut`apStartDisabled, dut`defaultTimeout, dut`future, dut`log
    ensures dut.defaultTimeout == old(dut.defaultTimeout)
    ensures Idle(dut.exchange, old(dut.log), dut.log)
    ensures if out then FailedFor(dut, old(dut.sent)) else dut.sent == old(dut.sent)
  {
    var r, _ := HostapdConfUpdate(dut);
    if r.MalformedEvent? {
      dut.Fail(Unexplained);
    }
    out := !r.Updated?;
  }

  /** The role-dependent step between configuration and connection. */
  method AfterConfiguration(dut: Dut, o: O.Order) returns (out: bool)
    requires dut.exchange.Provisioning?
    modifies dut`nextReply, dut`issued, dut`apConfig, dut`sent, dut`evidence
    modifies dut`apStartDisabled, dut`defaultTimeout, dut`future, dut`log
    modifies dut`dppConfId
    ensures dut.defaultTimeout == old(dut.defaultTimeout)
    ensures Idle(dut.exchange, old(dut.log), dut.log)
    ensures if out then FailedFor(dut, old(dut.sent)) else dut.sent == old(dut.sent)
    ensures if o.prov.Enrollee? && o.netrole.NetConfigurator? && !out
            then Carries(dut.log, ConfiguratorId, dut.dppConfId)
            else dut.dppConfId == old(dut.dppConfId)
    ensures !TakesRole(o, dut.isAp) ==> !out
  {
    out := false;
    if o.prov.Enrollee? && o.netrole.NetConfigurator? {
      var id := AwaitNumber(dut, ConfiguratorId);
      if id.None? { return true; }
      dut.dppConfId := id.value;
    } else if dut.isAp && o.prov.Enrollee? {
      out := ApUpdate(dut);
    }
  }

  /** An Enrollee that becomes a Configurator or an access point. */
  predicate TakesRole(o: O.Order, isAp: bool) {
    o.prov.Enrollee? && (isAp || o.netrole.NetConfigurator?)
  }

  // ------------------------------------------------------ the provisioning command

  /** The status of the connection is reported, because the Configurator was asked to and the peer agreed. */
  ghost predicate IsStatusReport(x: Exchange, log: Log, r: Report) {
    && (r.status.Some? || r.statusTimeout) && Claim(Complete(r)) == Configured
    && (AllPlain(log) ==> GistOf(x, log).conf.Some? && AsksForStatus(GistOf(x, log).conf.value))
  }

  /** No status was asked for, or the line that completed the configuration does not promise one. */
  ghost predicate NoStatusToCome(x: Exchange, log: Log, connStatus: bool) {
    AllPlain(log) && connStatus ==> GistOf(x, log).conf.Some? && !AsksForStatus(GistOf(x, log).conf.value)
  }

  /** The answer reports the stage that was asked for, the status where it is to come, or what did not come about. */
  ghost predicate Concludes(dut: Dut, connStatus: bool, asked: Stage)
    reads dut`sent, dut`log, dut`exchange
  {
    dut.sent.Answer? && (dut.sent.last.Complete? ==>
      || Negative(dut.sent.last.report)
      || (connStatus && IsStatusReport(dut.exchange, dut.log, dut.sent.last.report))
      || (NoStatusToCome(dut.exchange, dut.log, connStatus) && Conclusive(asked, dut.sent.last)))
  }

  /** The answer is truthful or has its cause, and it concludes the order. */
  ghost predicate Reports(dut: Dut, o: O.Order, known: Known, before: Answers)
    reads dut`sent, dut`log, dut`exchange, dut`evidence, dut`replies, dut`trials
  {
    ToldOn(dut, o, known, before) && Concludes(dut, o.connStatus, Asked(o, dut.isAp))
  }

  /** Every control command and every other call works in the course of this command. */
  ghost predicate Works(dut: Dut)
    reads dut`replies, dut`trials
  {
    && (dut.isAp ==> dut.hasHostapdIfname)
    && (forall n {:trigger dut.replies(n)} :: dut.replies(n).OkReply?)
    && (forall n {:trigger dut.trials(n)} :: dut.trials(n))
  }

  /** The answer to an order that is about the configuration only, if everything works. */
  function AnswerTo(future: Future, manual: bool, checkMutual: bool, connStatus: bool): Response {
    match AuthenticatedBy(future, manual, true, checkMutual)
    case Denied(r) => r
    case Granted(rest) => ConfAnswer(rest, connStatus)
  }

  /** The order is about the configuration only: no test, no PKEX, no CSR, no role and no connection to wait for. */
  predicate IsAboutConf(o: O.Order, isAp: bool, hasCsr: bool) {
    && o.step.NoStep? && !o.bs.Pkex? && !(o.prov.Configurator? && hasCsr) && !TakesRole(o, isAp)
    && !AwaitsConnection(o, isAp)
  }

  /** Where everything works, there is nothing to blame before anything has been waited for. */
  lemma NothingToBlame(dut: Dut, f: Fault)
    requires Works(dut) && dut.log.Opened?
    ensures !Caused(dut, dut.log, dut.evidence, f)
  {}

  /** Nor is there an early end. */
  lemma NoEarlyEnd(dut: Dut, o: O.Order, known: Known, before: Answers)
    requires Works(dut) && dut.log.Opened? && Complies(o, known)
    ensures !CutShortOn(dut, o, known, before)
  {
    if CutShortOn(dut, o, known, before) {
      if dut.sent.last.Error? {
        NothingToBlame(dut, dut.sent.last.fault);
      } else {
        NothingToReport(dut.exchange, dut.log, dut.sent.last.report);
      }
    }
  }

  lemma NothingToReport(x: Exchange, log: Log, r: Report)
    requires log.Opened? && Grounded(x, log, r)
    ensures !Negative(r)
  {}

  /** The exchange between a successful start and its one answer. */
  method RunExchange(dut: Dut, o: O.Order, profile: Profile, checkMutual: bool)
    requires dut.exchange.Provisioning? && AtStage(dut.exchange, dut.log, Nothing)
    requires o.step.NoStep? == o.frame.NoFrame?
    modifies dut`nextReply, dut`issued, dut`nextTrial, dut`apConfig, dut`sent, dut`evidence
    modifies dut`apStartDisabled, dut`defaultTimeout, dut`future, dut`log, dut`dppConfId, dut`dppNetworkId
    ensures dut.defaultTimeout == old(dut.defaultTimeout)
    ensures OneMore(old(dut.sent), dut.sent)
    ensures o.step.NoStep? ==> Told(dut, old(dut.sent)) && Concludes(dut, o.connStatus, Asked(o, dut.isAp))
    ensures IsAboutConf(o, dut.isAp, profile.hasCsr) && old(Works(dut)) ==>
              dut.sent.last == AnswerTo(old(dut.future), o.manual, checkMutual, o.connStatus)
  {
    if o.step.TimeoutStep? {
      TimeoutTest(dut, o, checkMutual);
      return;
    }
    var out := PkexFrames(dut, o);
    if out { return; }
    out := AuthFrames(dut, o);
    if out { return; }
    assert Works(dut) ==> DisplayWorks(dut);
    out := AuthPhase(dut, o, checkMutual);
    if out { return; }
    RunAuthenticated(dut, o, profile.hasCsr);
  }

  /** The answer once authenticated. */
  function ConfAnswer(future: Future, connStatus: bool): Response {
    match ConfiguredBy(future, true)
    case Stopped(r) => r
    case Settled(line, url, later) =>
      if connStatus && AsksForStatus(line) then StatusAnswer(later, CONF_DONE, url)
      else Complete(CONF_DONE.(mudUrl := url))
  }

  /** The exchange from the configuration on. */
  method RunAuthenticated(dut: Dut, o: O.Order, hasCsr: bool)
    requires dut.exchange.Provisioning? && AtStage(dut.exchange, dut.log, Authenticated)
    requires HeardNothing(dut.exchange, dut.log)
    modifies dut`nextReply, dut`issued, dut`nextTrial, dut`apConfig, dut`sent, dut`evidence
    modifies dut`apStartDisabled, dut`defaultTimeout, dut`future, dut`log, dut`dppConfId, dut`dppNetworkId
    ensures dut.defaultTimeout == old(dut.defaultTimeout)
    ensures Told(dut, old(dut.sent)) && (o.frame.NoFrame? ==> Concludes(dut, o.connStatus, Asked(o, dut.isAp)))
    ensures o.frame.NoFrame? && IsAboutConf(o, dut.isAp, hasCsr) && old(Works(dut)) ==>
              dut.sent.last == ConfAnswer(old(dut.future), o.connStatus)
  {
    assert Works(dut) ==> dut.trials(dut.nextTrial);
    var out, line, mudUrl;
    ghost var start;
    out, line, mudUrl, start := ConfPhase(dut, o, hasCsr);
    if out { return; }
    if o.connStatus && AsksForStatus(line) {
      ReportConnStatus(dut, CONF_DONE, mudUrl);
      return;
    }
    out := AfterConfiguration(dut, o);
    if out { return; }
    Finish(dut, o, mudUrl, true);
  }

  /** The part of `dpp_automatic_dpp` between opening and closing the monitor. */
  method RunOpened(dut: Dut, o: O.Order, saved: nat) returns (saved': nat)
    requires dut.exchange.Provisioning? && dut.log == Opened
    requires o.step.NoStep? == o.frame.NoFrame?
    modifies dut`nextReply, dut`issued, dut`nextTrial, dut`apConfig, dut`sent, dut`evidence
    modifies dut`apStartDisabled, dut`defaultTimeout, dut`future, dut`log
    modifies dut`dppConfId, dut`dppNetworkId, dut`dppPeerUri
    ensures dut.defaultTimeout == old(dut.defaultTimeout)
    ensures saved' == saved || (o.manual && o.bs.Nfc? && saved' == dut.defaultTimeout)
    ensures OneMore(old(dut.sent), dut.sent)
    ensures IsOrdinary(o) ==> Reports(dut, o, old(KnownTo(dut)), old(dut.sent))
    ensures old(GoesWell(dut, o)) ==>
              dut.sent.last == AnswerTo(old(dut.future), o.manual, false, o.connStatus)
  {
    saved' := saved;
    var profile := PrepareTest(dut, o);
    if profile.Some? {
      saved' := RunStarted(dut, o, profile.value, saved);
    }
  }

  /** The profile of the order and its test settings. */
  method PrepareTest(dut: Dut, o: O.Order) returns (profile: Option<Profile>)
    modifies dut`nextReply, dut`issued, dut`nextTrial, dut`apConfig, dut`sent, dut`evidence
    ensures if profile.Some? then dut.sent == old(dut.sent) else FailedOn(dut, o, old(KnownTo(dut)), old(dut.sent))
    ensures profile.Some? ==> Selected(o, profile.value)
    ensures profile.Some? ==> (profile.value.hasCsr <==> o.confIndex == 11 && !o.enrolleeAp)
    ensures Works(dut) && dut.log.Opened? && Complies(o, old(KnownTo(dut))) ==> profile.Some?
  {
    profile := Some(Profile(o.enrolleeConfigurator, false, false));
    if o.confIndex != -1 {
      profile := SelectProfile(dut, o.confIndex, o.enrolleeAp);
      if profile.None? {
        if !FailedFor(dut, old(dut.sent)) {
          assert Unmet(o, old(KnownTo(dut)), BadIndex(o.confIndex));
        } else if Works(dut) && dut.log.Opened? {
          NothingToBlame(dut, dut.sent.last.fault);
        }
        return;
      }
    }
    var ok := ApplyTestSettings(dut, o, profile.value);
    if !ok {
      if Works(dut) && dut.log.Opened? { NothingToBlame(dut, dut.sent.last.fault); }
      profile := None;
    }
  }

  /** From the start of the exchange on. */
  method RunStarted(dut: Dut, o: O.Order, profile: Profile, saved: nat) returns (saved': nat)
    requires dut.exchange.Provisioning? && dut.log == Opened && Selected(o, profile)
    requires o.step.NoStep? == o.frame.NoFrame?
    modifies dut`nextReply, dut`issued, dut`nextTrial, dut`apConfig, dut`sent, dut`evidence
    modifies dut`apStartDisabled, dut`defaultTimeout, dut`future, dut`log
    modifies dut`dppConfId, dut`dppNetworkId, dut`dppPeerUri
    ensures dut.defaultTimeout == old(dut.defaultTimeout)
    ensures saved' == saved || (o.manual && o.bs.Nfc? && saved' == dut.defaultTimeout)
    ensures OneMore(old(dut.sent), dut.sent)
    ensures IsOrdinary(o) ==> Reports(dut, o, old(KnownTo(dut)), old(dut.sent))
    ensures IsSimpleWith(o, dut.isAp, profile.hasCsr) && old(Works(dut) && Complies(o, KnownTo(dut))) ==>
              dut.sent.last == AnswerTo(old(dut.future), o.manual, false, o.connStatus)
  {
    var flow, checkMutual;
    flow, checkMutual, saved' := StartExchange(dut, o, profile, saved);
    match flow {
      case Out =>
        if Works(dut) && dut.log.Opened? && old(Complies(o, KnownTo(dut))) {
          NoEarlyEnd(dut, o, old(KnownTo(dut)), old(dut.sent));
        }
      case Exchange => RunExchange(dut, o, profile, checkMutual);
      case UpdateAp => FinishOwnUpdate(dut, o);
      case AwaitConnection => WaitConnect(dut, o, false, false);
    }
  }

  /** An access point that has configured itself. */
  method FinishOwnUpdate(dut: Dut, o: O.Order)
    requires dut.exchange.Provisioning?
    modifies dut`nextReply, dut`issued, dut`apConfig, dut`sent, dut`evidence
    modifies dut`apStartDisabled, dut`defaultTimeout, dut`future, dut`log, dut`dppNetworkId
    ensures dut.defaultTimeout == old(dut.defaultTimeout)
    ensures OneMore(old(dut.sent), dut.sent)
  {
    var out := ApUpdate(dut);
    if !out { Finish(dut, o, None, false); }
  }

  /** No error is provoked, and no configuration is its own. */
  predicate IsOrdinary(o: O.Order) {
    o.step.NoStep? && !o.selfConf
  }

  /** An ordinary order that is about the configuration only and asks for nothing mutual. */
  predicate IsSimpleWith(o: O.Order, isAp: bool, hasCsr: bool) {
    IsOrdinary(o) && !o.mutual && !(o.manual && o.bs.Nfc?) && IsAboutConf(o, isAp, hasCsr)
  }

  predicate IsSimple(o: O.Order, isAp: bool) {
    IsSimpleWith(o, isAp, o.confIndex == 11 && !o.enrolleeAp)
  }

  /** All that such an order needs is there, and everything works. */
  ghost predicate GoesWell(dut: Dut, o: O.Order)
    reads dut`dppPeerUri, dut`dppLocalBootstrap, dut`replies, dut`trials
  {
    IsSimple(o, dut.isAp) && Works(dut) && Complies(o, KnownTo(dut))
  }

  /** The answer that a result stands for has been given, and no other. */
  ghost predicate Accounted(before: Answers, now: Answers, r: CmdResult) {
    if Answered(r) then OneMore(before, now) else now == before
  }

  /** `dpp_automatic_dpp` */
  method AutomaticDpp(dut: Dut, o: O.Order) returns (r: CmdResult)
    modifies dut
    ensures Accounted(old(dut.sent), dut.sent, r)
    ensures Answered(r) && IsOrdinary(o) ==> Reports(dut, o, old(KnownTo(dut)), old(dut.sent))
    ensures old(GoesWell(dut, o)) ==>
              r == StatusSent && dut.sent.last == AnswerTo(old(dut.future), o.manual, false, o.connStatus)
    ensures !Answered(r) ==> r.ErrorSendStatus? && Unable(dut)
    ensures dut.defaultTimeout == old(dut.defaultTimeout) || (o.manual && o.bs.Nfc?)
  {
    var refusal := Prepare(dut, o);
    if refusal.Some? {
      r := refusal.value;
    } else {
      RunPrepared(dut, o);
      r := StatusSent;
    }
  }

  /** The prepared command, with the timeout that it asks for. */
  method RunPrepared(dut: Dut, o: O.Order)
    requires dut.exchange.Provisioning? && dut.log == Opened
    requires o.step.NoStep? == o.frame.NoFrame?
    modifies dut`nextReply, dut`issued, dut`nextTrial, dut`apConfig, dut`sent, dut`evidence
    modifies dut`apStartDisabled, dut`defaultTimeout, dut`future, dut`log
    modifies dut`dppConfId, dut`dppNetworkId, dut`dppPeerUri
    ensures OneMore(old(dut.sent), dut.sent)
    ensures IsOrdinary(o) ==> Reports(dut, o, old(KnownTo(dut)), old(dut.sent))
    ensures old(GoesWell(dut, o)) ==>
              dut.sent.last == AnswerTo(old(dut.future), o.manual, false, o.connStatus)
    ensures dut.defaultTimeout == old(dut.defaultTimeout) || (o.manual && o.bs.Nfc?)
  {
    var oldTimeout := dut.defaultTimeout;
    if o.timeout.Some? {
      dut.defaultTimeout := o.timeout.value;
    }
    oldTimeout := RunOpened(dut, o, oldTimeout);
    if o.tcp && o.authRole.Responder? {
      var _ := dut.WpaCommand(Request(ControllerStop));
    }
    dut.defaultTimeout := oldTimeout;
  }

  // --------------------------------------------------------------- bootstrapping

  /** All steps of generating local bootstrapping data will work. */
  predicate BootstrapWorks(dut: Dut, bs: O.Bootstrap)
    reads dut
  {
    var t := dut.nextTrial;
    var r := dut.nextReply;
    (bs.Qr? || bs.Nfc?) &&
    if dut.isAp then
      var t' := t + 1 + if dut.hostapdRunning then 0 else 1;
      && dut.hasHostapdIfname && dut.trials(t) && (dut.hostapdRunning || dut.trials(t + 1))
      && dut.trials(t') && dut.replies(r).OkReply? && dut.replies(r + 1).OkReply?
    else
      dut.replies(r).OkReply? && dut.trials(t) && dut.replies(r + 1).OkReply? && dut.replies(r + 2).OkReply?
  }

  /** The address is found out; an access point is started for it. */
  predicate AddressWorks(dut: Dut)
    reads dut
  {
    if dut.isAp then
      && dut.hasHostapdIfname && dut.trials(dut.nextTrial)
      && (dut.hostapdRunning || dut.trials(dut.nextTrial + 1))
    else dut.replies(dut.nextReply).OkReply?
  }

  method GetOwnAddress(dut: Dut) returns (refusal: Option<CmdResult>)
    modifies dut`nextTrial, dut`nextReply, dut`issued, dut`sent, dut`evidence, dut`apChannel, dut`apStartDisabled
    ensures refusal.None? == old(AddressWorks(dut))
    ensures refusal.None? ==> dut.sent == old(dut.sent)
    ensures refusal.None? ==>
              && dut.nextReply == old(dut.nextReply) + (if dut.isAp then 0 else 1)
              && dut.nextTrial == old(dut.nextTrial) + if !dut.isAp then 0 else if dut.hostapdRunning then 1 else 2
    ensures refusal.Some? ==>
              if refusal.value.StatusSentError? then FailedFor(dut, old(dut.sent))
              else refusal.value.ErrorSendStatus? && dut.sent == old(dut.sent) &&
                   Unable(dut)
  {
    refusal := None;
    if dut.isAp {
      if !dut.hasHostapdIfname { return Some(ErrorSendStatus); }
      var mac := dut.Try();
      if !mac { return Some(ErrorSendStatus); }
      var running := HostapdRun(dut);
      if !running {
        dut.Fail(Mishap(HostapdNotStarted));
        refusal := Some(StatusSentError);
      }
    } else {
      var mac := dut.WpaCommandResp(Status);
      if !mac.OkReply? {
        dut.Fail(Refusal(OwnMacUnknown));
        refusal := Some(StatusSentError);
      }
    }
  }

  /** `dpp_get_local_bootstrap` */
  method GetLocalBootstrap(dut: Dut, bs: O.Bootstrap, sendResult: bool) returns (r: CmdResult, success: bool)
    modifies dut`nextTrial, dut`nextReply, dut`issued, dut`sent, dut`evidence
    modifies dut`apChannel, dut`apStartDisabled, dut`dppLocalBootstrap
    ensures success == old(BootstrapWorks(dut, bs)) == r.StatusSent?
    ensures success ==>
              dut.dppLocalBootstrap == Atoi(dut.replies(old(dut.nextReply) + if dut.isAp then 0 else 1).text)
    ensures success && !sendResult ==> dut.sent == old(dut.sent)
    ensures success && sendResult ==>
              dut.sent == Answer(old(dut.sent), Bootstrapping(
                                   dut.replies(old(dut.nextReply) + if dut.isAp then 1 else 2).text))
    ensures !success && r.StatusSentError? ==>
              FailedFor(dut, old(dut.sent)) || (
                && !bs.Qr? && !bs.Nfc?
                && dut.sent == Answer(old(dut.sent), Error(Demand(if bs.NoBs? then MissingBs else UnsupportedBs))))
    ensures !success && !r.StatusSentError? ==>
              r.ErrorSendStatus? && dut.sent == old(dut.sent) && Unable(dut)
  {
    success := false;
    if !bs.Qr? && !bs.Nfc? {
      dut.Refuse(if bs.NoBs? then MissingBs else UnsupportedBs);
      return StatusSentError, success;
    }
    var refusal := GetOwnAddress(dut);
    if refusal.Some? { return refusal.value, success; }
    success := GenerateCode(dut, sendResult);
    r := if success then StatusSent else ErrorSendStatus;
  }

  /** The bootstrapping information for the address. */
  method GenerateCode(dut: Dut, sendResult: bool) returns (success: bool)
    modifies dut`nextTrial, dut`nextReply, dut`issued, dut`sent, dut`evidence, dut`dppLocalBootstrap
    ensures var t, r := old(dut.nextTrial), old(dut.nextReply);
            && success == (dut.trials(t) && dut.replies(r).OkReply? && dut.replies(r + 1).OkReply?)
            && (success ==> dut.dppLocalBootstrap == Atoi(dut.replies(r).text))
            && (success && sendResult ==> dut.sent == Answer(old(dut.sent), Bootstrapping(dut.replies(r + 1).text)))
    ensures !success ==> JustFailed(dut)
    ensures !success || !sendResult ==> dut.sent == old(dut.sent)
  {
    success := dut.Try();
    if !success { return; }
    var id := dut.WpaCommandResp(BootstrapGen);
    if !id.OkReply? { return false; }
    dut.dppLocalBootstrap := Atoi(id.text);
    var uri := dut.WpaCommandResp(BootstrapGetUri);
    if !uri.OkReply? { return false; }
    if sendResult {
      dut.SendResp(Bootstrapping(uri.text));
    }
  }

  /** The URI that is kept of decoded data: it must leave room for a terminator, and ends at its first NUL. */
  function PeerUri(data: string): Option<string> {
    match ParseHexstr(data, 1000)
    case None => None
    case Some(uri) => if |uri| >= 1000 then None else Some(UpToNul(uri))
  }

  /** The data that one device has printed of its URI gives that URI to another. */
  lemma PeerUriOfPrinted(uri: string)
    requires IsBytes(uri) && '\0' !in uri && |uri| < 1000
    ensures PeerUri(HexString(uri)) == Some(uri)
  {
    ParsesHexString(uri, 1000);
    UpToNulIsText(uri);
    IndexOfIsFirst(uri, '\0');
  }

  /** `dpp_set_peer_bootstrap` */
  method SetPeerBootstrap(dut: Dut, data: Option<string>) returns (r: CmdResult)
    modifies dut`sent, dut`evidence, dut`dppPeerUri
    ensures Accounted(old(dut.sent), dut.sent, r)
    ensures Answered(r) ==> dut.sent.last == Error(Demand(MissingBootstrappingData)) && data.None?
    ensures r.SuccessSendStatus? ==> data.Some? && PeerUri(data.value).Some? && dut.dppPeerUri == PeerUri(data.value)
    ensures r.SuccessSendStatus? <==> data.Some? && PeerUri(data.value).Some?
    ensures !r.SuccessSendStatus? ==> dut.dppPeerUri == old(dut.dppPeerUri)
  {
    if data.None? {
      dut.Refuse(MissingBootstrappingData);
      return StatusSentError;
    }
    var uri := ParseHexstr(data.value, 1000);
    if uri.None? || |uri.value| >= 1000 { return ErrorSendStatus; }
    dut.dppPeerUri := Some(UpToNul(uri.value));
    r := SuccessSendStatus;
  }

  // --------------------------------------------------------------- manual actions

  /** A manual command that ends without its timeout being restored: it gives no role to act in. */
  predicate LeavesTimeout(dut: Dut, o: O.Order)
    reads dut
  {
    o.bs.NoBs? || (!o.bs.Nfc? && o.authRole.NoRole? && BootstrapWorks(dut, o.bs))
  }

  /** `dpp_manual_dpp` */
  method ManualDpp(dut: Dut, o: O.Order) returns (r: CmdResult)
    requires o.manual
    modifies dut
    ensures Accounted(old(dut.sent), dut.sent, r)
    ensures !Answered(r) ==> r.ErrorSendStatus? && Unable(dut)
    ensures Answered(r) && IsOrdinary(o) ==> Reports(dut, o, old(KnownTo(dut)), old(dut.sent))
    ensures dut.defaultTimeout ==
            if old(LeavesTimeout(dut, o)) && o.timeout.Some? then o.timeout.value else old(dut.defaultTimeout)
  {
    var oldTimeout := dut.defaultTimeout;
    if o.timeout.Some? {
      dut.defaultTimeout := o.timeout.value;
    }
    if o.bs.NoBs? {
      dut.Refuse(MissingBs);
      return StatusSentError;
    }
    if o.bs.Nfc? {
      r := AutomaticDpp(dut, o);
      dut.defaultTimeout := oldTimeout;
      return;
    }
    assert BootstrapWorks(dut, o.bs) == old(BootstrapWorks(dut, o.bs));
    r := ManualByCode(dut, o, oldTimeout);
  }

  method ManualBootstrap(dut: Dut, o: O.Order) returns (r: CmdResult, success: bool)
    requires o.manual
    modifies dut`nextTrial, dut`nextReply, dut`issued, dut`sent, dut`evidence
    modifies dut`apChannel, dut`apStartDisabled, dut`dppLocalBootstrap
    ensures success == old(BootstrapWorks(dut, o.bs))
    ensures success ==> dut.sent == old(dut.sent)
    ensures !success ==> Accounted(old(dut.sent), dut.sent, r)
    ensures !success && !Answered(r) ==> r.ErrorSendStatus? && Unable(dut)
    ensures !success && Answered(r) ==> Reports(dut, o, old(KnownTo(dut)), old(dut.sent))
  {
    r, success := GetLocalBootstrap(dut, o.bs, false);
  }

  /** With a QR Code; the timeout to be restored is forgotten when there is no role. */
  method ManualByCode(dut: Dut, o: O.Order, oldTimeout: nat) returns (r: CmdResult)
    requires o.manual && !o.bs.Nfc?
    modifies dut
    ensures Accounted(old(dut.sent), dut.sent, r)
    ensures !Answered(r) ==> r.ErrorSendStatus? && Unable(dut)
    ensures Answered(r) && IsOrdinary(o) ==> Reports(dut, o, old(KnownTo(dut)), old(dut.sent))
    ensures dut.defaultTimeout ==
            if o.authRole.NoRole? && old(BootstrapWorks(dut, o.bs)) then old(dut.defaultTimeout) else oldTimeout
  {
    var success;
    r, success := ManualBootstrap(dut, o);
    if !success {
      dut.defaultTimeout := oldTimeout;
      return;
    }
    if o.authRole.NoRole? {
      dut.Refuse(MissingAuthRole);
      return StatusSentError;
    }
    ghost var known := KnownTo(dut);
    r := ManualInRole(dut, o);
    dut.defaultTimeout := oldTimeout;
    if Answered(r) && IsOrdinary(o) {
      StillReports(dut, o, old(KnownTo(dut)), known, old(dut.sent));
    }
  }

  /** What is learnt about bootstrapping on the way to the exchange puts no new blame on the order. */
  lemma StillUnmet(o: O.Order, before: Known, now: Known, d: BadDemand)
    requires Unmet(o, now, d) && !o.bs.Nfc? && (before.peer ==> now.peer)
    ensures Unmet(o, before, d)
  {}

  lemma StillReports(dut: Dut, o: O.Order, before: Known, now: Known, sent: Answers)
    requires Reports(dut, o, now, sent) && !o.bs.Nfc? && (before.peer ==> now.peer)
    ensures Reports(dut, o, before, sent)
  {
    if dut.sent.last.Error? && dut.sent.last.fault.Demand? {
      StillUnmet(o, before, now, dut.sent.last.fault.demand);
    }
  }

  method ManualInRole(dut: Dut, o: O.Order) returns (r: CmdResult)
    requires o.manual && !o.bs.Nfc?
    modifies dut
    ensures Accounted(old(dut.sent), dut.sent, r)
    ensures !Answered(r) ==> r.ErrorSendStatus? && Unable(dut)
    ensures Answered(r) && IsOrdinary(o) ==> Reports(dut, o, old(KnownTo(dut)), old(dut.sent))
  {
    match o.authRole {
      case Responder =>
        var shown := DisplayOwnQrcode(dut);
        if !shown {
          dut.Fail(OwnQrCodeNotShown);
          return StatusSentError;
        }
      case Initiator =>
        if !o.selfConf {
          var scanned := ScanPeerQrcode(dut);
          if !scanned {
            dut.Fail(Mishap(PeerQrCodeNotScanned));
            return StatusSentError;
          }
        }
      case _ =>
        dut.Refuse(UnknownAuthRole);
        return StatusSentError;
    }
    ghost var known := KnownTo(dut);
    r := AutomaticDpp(dut, o);
    if Answered(r) && IsOrdinary(o) {
      StillReports(dut, o, old(KnownTo(dut)), known, old(dut.sent));
    }
  }

  // --------------------------------------------------------------- reconfiguration

  const RECONF_NOTHING := Report(Unsaid, Unsaid, Unsaid, Unsaid, Unsaid)
  const RECONF_AUTH := Report(Unsaid, Ok, Unsaid, Unsaid, Unsaid)
  const RECONF_DONE := Report(Unsaid, Ok, Ok, Unsaid, Unsaid)

  /** The parameters of a reconfiguration ask for what cannot be. */
  predicate ReconfUnmet(confIndex: int, enrolleeAp: bool, listenChannel: Option<string>, d: BadDemand) {
    match d
    case UnsupportedConfIndex => confIndex < 1 || confIndex > 11
    case Dot1xForAp => confIndex == 11 && enrolleeAp
    case UnsupportedListenChannel => listenChannel.Some? && !O.HasFrequency(Atoi(listenChannel.value))
    case _ => false
  }

  /** An error answer has its cause in what has just happened, or in the parameters. */
  ghost predicate BlamedOnReconf(dut: Dut, confIndex: int, enrolleeAp: bool, listenChannel: Option<string>)
    reads dut`sent, dut`log, dut`evidence, dut`replies, dut`trials
  {
    dut.sent.Answer? && (dut.sent.last.Error? ==>
      var f := dut.sent.last.fault;
      if f.Demand? then ReconfUnmet(confIndex, enrolleeAp, listenChannel, f.demand)
      else Caused(dut, dut.log, dut.evidence, f))
  }

  /** `dpp_reconfigure_configurator` */
  method ReconfigureConfigurator(dut: Dut, confIndex: int, enrolleeAp: bool, connStatus: bool,
                                 listenChannel: Option<string>)
    returns (r: CmdResult)
    modifies dut`nextReply, dut`issued, dut`nextTrial, dut`apConfig, dut`sent, dut`evidence
    modifies dut`future, dut`log, dut`exchange
    ensures Accounted(old(dut.sent), dut.sent, r)
    ensures !Answered(r) ==> r.ErrorSendStatus? && Unable(dut)
    ensures Answered(r) ==> Truthful(dut.exchange, dut.log, dut.sent.last) && Concludes(dut, connStatus, Configured)
    ensures Answered(r) ==> BlamedOnReconf(dut, confIndex, enrolleeAp, listenChannel)
  {
    if dut.isAp && !dut.hasHostapdIfname { return ErrorSendStatus; }
    var profile := SelectProfile(dut, confIndex, enrolleeAp);
    if profile.None? { return StatusSent; }
    if profile.value.forceGas {
      var ok := dut.WpaCommand(Request(SetDiscoveryOverride));
      if !ok {
        dut.Fail(Refusal(DiscoveryOverride));
        return StatusSent;
      }
    }
    var set_ := SetConfiguratorParameters(dut, profile.value);
    if !set_ { return StatusSent; }
    var attached := dut.OpenMonitor(Exchange.ReconfigConfigurator);
    if !attached { return ErrorSendStatus; }
    if listenChannel.Some? {
      if !O.HasFrequency(Atoi(listenChannel.value)) {
        dut.Refuse(UnsupportedListenChannel);
        return StatusSent;
      }
      var listening := dut.WpaCommand(Request(Listen));
      if !listening {
        dut.Fail(Refusal(ListenNotStarted));
        return StatusSent;
      }
    }
    ReconfigurePeer(dut, connStatus);
    r := StatusSent;
  }

  method ReconfigurePeer(dut: Dut, connStatus: bool)
    requires dut.exchange.ReconfigConfigurator? && dut.log == Opened
    modifies dut`future, dut`log, dut`sent, dut`evidence
    ensures Told(dut, old(dut.sent)) && Concludes(dut, connStatus, Configured)
  {
    var line := SendConfiguration(dut);
    if line.None? { return; }
    if connStatus && Contains(line.value.text, "wait_conn_status=1") {
      ReportConnStatus(dut, RECONF_DONE, None);
    } else {
      Tell(dut, RECONF_DONE);
    }
  }

  /** The peer asks for a configuration and gets it. */
  method SendConfiguration(dut: Dut) returns (line: Option<Line>)
    requires dut.exchange.ReconfigConfigurator? && dut.log == Opened
    modifies dut`future, dut`log, dut`sent, dut`evidence
    ensures line.None? ==> CutShort(dut, old(dut.sent))
    ensures line.Some? ==> dut.sent == old(dut.sent) && AtStage(dut.exchange, dut.log, Configured)
    ensures line.Some? ==> Says(line.value, ConfSent) && HeardConf(dut.exchange, dut.log, line.value, None)
  {
    line := None;
    var got := dut.GetEvents(Only(ConfReqRx));
    if got.None? {
      Tell(dut, RECONF_NOTHING.(auth := TimedOut));
      return;
    }
    OnlyHeads(got.value, ConfReqRx);
    assert GistOf(dut.exchange, dut.log) == Gist(Authenticated, None, None);
    got := dut.GetEvents(SentOrFailed);
    if got.Some? && Plain(got.value) { PlainHasNoUrl(got.value, SentOrFailed); }
    if got.None? {
      Tell(dut, RECONF_AUTH.(conf := TimedOut));
    } else if !Says(got.value, ConfSent) {
      Tell(dut, RECONF_AUTH.(conf := Failed));
    } else {
      line := got;
    }
  }

  /** The Enrollee's part of `dpp_reconfigure`. */
  method ReconfigureEnrollee(dut: Dut, waitConn: bool) returns (r: CmdResult)
    modifies dut`nextReply, dut`issued, dut`nextTrial, dut`apConfig, dut`sent, dut`evidence
    modifies dut`future, dut`log, dut`exchange, dut`dppNetworkId
    ensures Accounted(old(dut.sent), dut.sent, r)
    ensures !Answered(r) ==> r.ErrorSendStatus? && Unable(dut)
    ensures Answered(r) ==> Told(dut, old(dut.sent))
    ensures Answered(r) ==> Conclusive(if waitConn then Connected else Configured, dut.sent.last)
  {
    var attached := dut.OpenMonitor(Exchange.ReconfigEnrollee);
    if !attached { return ErrorSendStatus; }
    r := StatusSent;
    var started := dut.WpaCommand(Request(Reconfig));
    if !started {
      dut.Fail(Refusal(ReconfigurationNotStarted));
      return;
    }
    var out := ReceiveConfiguration(dut);
    if out { return; }
    FinishReconfigured(dut, waitConn);
  }

  method FinishReconfigured(dut: Dut, waitConn: bool)
    requires dut.exchange.ReconfigEnrollee? && AtStage(dut.exchange, dut.log, Configured)
    requires AllPlain(dut.log) ==> GistOf(dut.exchange, dut.log).url.None?
    modifies dut`nextReply, dut`issued, dut`sent, dut`evidence, dut`future, dut`log, dut`dppNetworkId
    ensures Told(dut, old(dut.sent))
    ensures Conclusive(if waitConn then Connected else Configured, dut.sent.last)
  {
    var network := AwaitNumber(dut, NetworkId);
    if network.None? { return; }
    dut.dppNetworkId := network.value;
    if waitConn {
      var sae := AsksForSae(dut);
      if sae.Some? {
        ReportConnection(dut, RECONF_DONE, CONNECT_TIMEOUT, sae.value, true);
      }
    } else {
      Tell(dut, RECONF_DONE);
    }
  }

  method ReceiveConfiguration(dut: Dut) returns (out: bool)
    requires dut.exchange.ReconfigEnrollee? && dut.log == Opened
    modifies dut`future, dut`log, dut`sent, dut`evidence
    ensures out ==> CutShort(dut, old(dut.sent))
    ensures !out ==> dut.sent == old(dut.sent) && AtStage(dut.exchange, dut.log, Configured)
    ensures !out && AllPlain(dut.log) ==> GistOf(dut.exchange, dut.log).url.None?
  {
    out := true;
    var got := dut.GetEvents(Only(GasQueryStart));
    if got.None? {
      Tell(dut, RECONF_NOTHING.(auth := TimedOut));
      return;
    }
    OnlyHeads(got.value, GasQueryStart);
    assert GistOf(dut.exchange, dut.log) == Gist(Authenticated, None, None);
    got := dut.GetEvents(ReceivedOrFailed);
    if got.Some? && Plain(got.value) { PlainHasNoUrl(got.value, ReceivedOrFailed); }
    if got.None? {
      Tell(dut, RECONF_AUTH.(conf := TimedOut));
      return;
    }
    if !Says(got.value, ConfReceived) {
      Tell(dut, RECONF_AUTH.(conf := Failed));
      return;
    }
    out := false;
  }

  // --------------------------------------------------------------- dispatch

  /** The answer to a reconfiguration is truthful or has its cause, and it concludes the command. */
  ghost predicate ReportsReconf(dut: Dut, cmd: O.Cmd)
    reads dut`sent, dut`log, dut`exchange, dut`evidence, dut`replies, dut`trials
  {
    && dut.sent.Answer? && Truthful(dut.exchange, dut.log, dut.sent.last)
    && if O.ConfIndex in cmd then
         && Concludes(dut, O.Is(cmd, O.StatusQuery, "Yes"), Configured)
         && BlamedOnReconf(dut, Atoi(cmd[O.ConfIndex]), O.Is(cmd, O.ConfEnrolleeRole, "AP"),
                           O.Get(cmd, O.ListenChannel))
       else
         && Conclusive(if O.Is(cmd, O.WaitForConnect, "Yes") then Connected else Configured, dut.sent.last)
         && (dut.sent.last.Error? ==> Caused(dut, dut.log, dut.evidence, dut.sent.last.fault))
  }

  method DppReconfigure(dut: Dut, cmd: O.Cmd) returns (r: CmdResult)
    modifies dut
    ensures Accounted(old(dut.sent), dut.sent, r)
    ensures !Answered(r) ==> r.ErrorSendStatus? && Unable(dut)
    ensures Answered(r) ==> ReportsReconf(dut, cmd)
    ensures dut.defaultTimeout == old(dut.defaultTimeout)
  {
    if O.ConfIndex in cmd {
      r := ReconfigureConfigurator(dut, Atoi(cmd[O.ConfIndex]), O.Is(cmd, O.ConfEnrolleeRole, "AP"),
                                   O.Is(cmd, O.StatusQuery, "Yes"), O.Get(cmd, O.ListenChannel));
    } else {
      r := ReconfigureEnrollee(dut, O.Is(cmd, O.WaitForConnect, "Yes"));
    }
  }

  /** The exact case in which an action leaves the timeout that its command asked for behind. */
  predicate ForgetsTimeout(dut: Dut, cmd: O.Cmd)
    reads dut
  {
    && O.ReadAction(cmd).Manual? && O.RequestedTimeout(cmd).Some?
    && (O.ReadBs(cmd).Qr?) && O.AuthRole !in cmd
    && BootstrapWorks(dut, O.ReadBs(cmd))
  }

  /** The command reports on a real exchange: no error is provoked, no configuration is its own. */
  predicate Ordinary(cmd: O.Cmd) {
    O.ReadAction(cmd).Reconfigure? || (O.Step !in cmd && !O.Is(cmd, O.SelfConfigure, "Yes"))
  }

  /** What is the matter with a command that is answered without an exchange. */
  predicate Unacceptable(cmd: O.Cmd, d: BadDemand) {
    match d
    case MissingActionType => O.ActionType !in cmd
    case UnsupportedActionType => O.ReadAction(cmd).OtherAction?
    case MissingBs => O.DppBs !in cmd
    case UnsupportedBs => O.ReadAction(cmd).GetLocalBootstrap? && !O.ReadBs(cmd).Qr? && !O.ReadBs(cmd).Nfc?
    case MissingBootstrappingData => O.ReadAction(cmd).SetPeerBootstrap? && O.BootstrappingData !in cmd
    case _ => false
  }

  /** The one answer to a command: what it claims, and what an error is to be blamed on. */
  ghost predicate AnswersTo(dut: Dut, cmd: O.Cmd, known: Known, before: Answers)
    reads dut`sent, dut`log, dut`exchange, dut`evidence, dut`replies, dut`trials
  {
    && dut.sent.Answer?
    && match O.ReadAction(cmd)
       case Reconfigure => ReportsReconf(dut, cmd)
       case GetLocalBootstrap => NoReport(dut, cmd)
       case SetPeerBootstrap => NoReport(dut, cmd)
       case NoAction => NoReport(dut, cmd)
       case OtherAction => NoReport(dut, cmd)
       case _ =>
         O.DppBs in cmd && Ordinary(cmd) ==> Reports(dut, O.ReadOrder(cmd, dut.isAp), known, before)
  }

  ghost predicate NoReport(dut: Dut, cmd: O.Cmd)
    reads dut`sent, dut`log, dut`evidence, dut`replies, dut`trials
  {
    && dut.sent.Answer? && !dut.sent.last.Complete?
    && (dut.sent.last.Error? ==>
          var f := dut.sent.last.fault;
          if f.Demand? then Unacceptable(cmd, f.demand) else Caused(dut, dut.log, dut.evidence, f))
  }

  /** `dpp_dev_exec_action` */
  method DevExecAction(dut: Dut, cmd: O.Cmd) returns (r: CmdResult)
    modifies dut
    ensures Accounted(old(dut.sent), dut.sent, r)
    ensures !Answered(r) && !O.ReadAction(cmd).SetPeerBootstrap? ==> r.ErrorSendStatus? && Unable(dut)
    ensures Answered(r) && Ordinary(cmd) ==> Truthful(dut.exchange, dut.log, dut.sent.last)
    ensures Answered(r) ==> AnswersTo(dut, cmd, old(KnownTo(dut)), old(dut.sent))
    ensures O.ReadAction(cmd).Automatic? && old(GoesWell(dut, O.ReadOrder(cmd, dut.isAp))) ==>
              && r == StatusSent
              && dut.sent.last == AnswerTo(old(dut.future), false, false, O.Is(cmd, O.StatusQuery, "Yes"))
    ensures dut.defaultTimeout ==
            if old(ForgetsTimeout(dut, cmd)) then O.RequestedTimeout(cmd).value else old(dut.defaultTimeout)
  {
    var action := O.ReadAction(cmd);
    if action.NoAction? {
      dut.Refuse(MissingActionType);
      r := StatusSentError;
    } else if action.Reconfigure? {
      r := DppReconfigure(dut, cmd);
    } else if O.ReadBs(cmd).NoBs? {
      assert Unmet(O.ReadOrder(cmd, dut.isAp), KnownTo(dut), MissingBs);
      dut.Refuse(MissingBs);
      r := StatusSentError;
    } else if action.Manual? || action.Automatic? {
      r := ExecProvisioning(dut, cmd);
    } else {
      r := ExecOther(dut, cmd);
    }
  }

  method ExecProvisioning(dut: Dut, cmd: O.Cmd) returns (r: CmdResult)
    requires O.ReadAction(cmd).Manual? || O.ReadAction(cmd).Automatic?
    requires !O.ReadBs(cmd).NoBs?
    modifies dut
    ensures Accounted(old(dut.sent), dut.sent, r)
    ensures !Answered(r) ==> r.ErrorSendStatus? && Unable(dut)
    ensures Answered(r) && Ordinary(cmd) ==>
              Reports(dut, O.ReadOrder(cmd, dut.isAp), old(KnownTo(dut)), old(dut.sent))
    ensures dut.defaultTimeout ==
            if old(ForgetsTimeout(dut, cmd)) then O.RequestedTimeout(cmd).value else old(dut.defaultTimeout)
    ensures O.ReadAction(cmd).Automatic? && old(GoesWell(dut, O.ReadOrder(cmd, dut.isAp))) ==>
              && r == StatusSent
              && dut.sent.last == AnswerTo(old(dut.future), false, false, O.Is(cmd, O.StatusQuery, "Yes"))
  {
    var o := O.ReadOrder(cmd, dut.isAp);
    if o.manual {
      r := ManualDpp(dut, o);
    } else {
      r := AutomaticDpp(dut, o);
    }
  }

  /** The actions without an exchange. */
  method ExecOther(dut: Dut, cmd: O.Cmd) returns (r: CmdResult)
    requires var a := O.ReadAction(cmd); a.GetLocalBootstrap? || a.SetPeerBootstrap? || a.OtherAction?
    requires !O.ReadBs(cmd).NoBs?
    modifies dut
    ensures Accounted(old(dut.sent), dut.sent, r)
    ensures !Answered(r) && !O.ReadAction(cmd).SetPeerBootstrap? ==> r.ErrorSendStatus? && Unable(dut)
    ensures Answered(r) ==> NoReport(dut, cmd)
    ensures dut.defaultTimeout == old(dut.defaultTimeout)
  {
    if O.ReadAction(cmd).GetLocalBootstrap? {
      var success;
      r, success := GetLocalBootstrap(dut, O.ReadBs(cmd), true);
    } else if O.ReadAction(cmd).SetPeerBootstrap? {
      r := SetPeerBootstrap(dut, O.Get(cmd, O.BootstrappingData));
    } else {
      dut.Refuse(UnsupportedActionType);
      r := StatusSentError;
    }
  }

  /** `process_cmd` around a DPP action: RUNNING, and then exactly one result. */
  method ProcessCmd(dut: Dut, cmd: O.Cmd, replies: nat -> Reply, trials: nat -> bool) returns (r: CmdResult)
    modifies dut
    ensures dut.sent.Answer? && !dut.sent.last.Running? && dut.sent.before == Answer(old(dut.sent), Running)
    ensures Ordinary(cmd) ==> Truthful(dut.exchange, dut.log, dut.sent.last)
  {
    dut.Begin(replies, trials);
    dut.SendResp(Running);
    r := DevExecAction(dut, cmd);
    match r {
      case ErrorSendStatus => dut.SendResp(Error(Unexplained));
      case InvalidSendStatus => dut.SendResp(Invalid);
      case StatusSent =>
      case StatusSentError =>
      case SuccessSendStatus => dut.SendResp(Done);
    }
  }
}
