/** What comes of DPP commands, read off what is to happen: success, early ends, errors, and a timeout left behind. */
module DppResults {
  import opened CText
  import opened DppLines
  import opened DppMonitor
  import opened DppAutomatic
  import opened DppStart
  import opened DppCommands
  import O = DppOrder

  // -------------------------------------------------------- what is going to happen

  ghost predicate NoneRecognised(lines: seq<Line>, names: Names) {
    forall i :: 0 <= i < |lines| ==> !Recognised(lines[i], names)
  }

  /** A wait hands over the first line that is recognised. */
  lemma {:induction false} AwaitFinds(front: seq<Line>, names: Names, line: Line, rest: Future)
    requires NoneRecognised(front, names) && Recognised(line, names)
    ensures Await(Preceded(front, Received(line, rest)), names) == Wait(Some(line), rest)
  {
    if front != [] { AwaitFinds(front[1..], names, line, rest); }
  }

  lemma {:induction false} AwaitGivesUp(front: seq<Line>, names: Names, rest: Future)
    requires NoneRecognised(front, names)
    ensures Await(Preceded(front, Silence(rest)), names) == Wait(None, rest)
  {
    if front != [] { AwaitGivesUp(front[1..], names, rest); }
  }

  /** A plain line of one event. */
  ghost predicate IsPlainly(line: Line, e: Event) {
    Headed(line, e) && Plain(line)
  }

  lemma PlainlyOneOf(line: Line, e: Event, names: Names)
    requires IsPlainly(line, e) && names.Has(e) && !e.Tx? && !e.TxStatus?
    ensures Recognised(line, names) && Says(line, e)
    ensures forall m: Event :: !m.Tx? && !m.TxStatus? && m != e ==> !Says(line, m)
    ensures line.hasUrl ==> e == MudUrl
  {
    assert line.hasUrl ==> Says(line, MudUrl);
  }

  /** Authenticated by the line behind `front`, with `later` still to come. */
  lemma SuccessIsGranted(front: seq<Line>, auth: Line, later: Future, manual: bool)
    requires NoneRecognised(front, AuthEvents) && IsPlainly(auth, AuthSuccess)
    ensures AuthenticatedBy(Preceded(front, Received(auth, later)), manual, true, false) == Granted(later)
  {
    PlainlyOneOf(auth, AuthSuccess, AuthEvents);
    AwaitFinds(front, AuthEvents, auth, later);
  }

  lemma AnswerOnceGranted(front: seq<Line>, auth: Line, later: Future, manual: bool, connStatus: bool)
    requires NoneRecognised(front, AuthEvents) && IsPlainly(auth, AuthSuccess)
    ensures AnswerTo(Preceded(front, Received(auth, later)), manual, false, connStatus) == ConfAnswer(later, connStatus)
  {
    SuccessIsGranted(front, auth, later, manual);
  }

  /** The line that ends a configuration well, with no status to follow. */
  ghost predicate EndsConf(conf: Line, connStatus: bool) {
    || (IsPlainly(conf, ConfSent) && !(connStatus && Contains(conf.text, "wait_conn_status=1")))
    || IsPlainly(conf, ConfReceived)
  }

  lemma EndsConfSays(conf: Line, connStatus: bool)
    requires EndsConf(conf, connStatus)
    ensures Recognised(conf, ConfEvents) && SaysConfigured(conf) && !conf.hasUrl
    ensures !(connStatus && AsksForStatus(conf))
  {
    if IsPlainly(conf, ConfReceived) {
      PlainlyOneOf(conf, ConfReceived, ConfEvents);
    } else {
      PlainlyOneOf(conf, ConfSent, ConfEvents);
    }
  }

  /** Success in both, whatever else the monitor says before, between and after, is reported as success. */
  lemma SuccessIsReported(front: seq<Line>, auth: Line, between: seq<Line>, conf: Line, rest: Future,
                          manual: bool, connStatus: bool)
    requires NoneRecognised(front, AuthEvents) && IsPlainly(auth, AuthSuccess)
    requires NoneRecognised(between, ConfEvents) && EndsConf(conf, connStatus)
    ensures var future := Preceded(front, Received(auth, Preceded(between, Received(conf, rest))));
            AnswerTo(future, manual, false, connStatus) == Complete(Report(Ok, Ok, Ok, Unsaid, Unsaid))
  {
    AnswerOnceGranted(front, auth, Preceded(between, Received(conf, rest)), manual, connStatus);
    EndsConfSays(conf, connStatus);
    AwaitFinds(between, ConfEvents, conf, rest);
  }

  /** With a MUD URL in between, the report carries what is behind the blank of its line. */
  lemma UrlIsReported(front: seq<Line>, auth: Line, between: seq<Line>, url: Line, more: seq<Line>, conf: Line,
                      rest: Future, manual: bool, connStatus: bool)
    requires NoneRecognised(front, AuthEvents) && IsPlainly(auth, AuthSuccess)
    requires NoneRecognised(between, ConfEvents) && IsPlainly(url, MudUrl) && url.hasUrl && Argument(url.text).Some?
    requires NoneRecognised(more, ConfEvents) && EndsConf(conf, connStatus)
    ensures var tail := Received(url, Preceded(more, Received(conf, rest)));
            AnswerTo(Preceded(front, Received(auth, Preceded(between, tail))), manual, false, connStatus) ==
            Complete(Report(Ok, Ok, Ok, Unsaid, Unsaid, mudUrl := Argument(url.text)))
  {
    var tail := Received(url, Preceded(more, Received(conf, rest)));
    AnswerOnceGranted(front, auth, Preceded(between, tail), manual, connStatus);
    PlainlyOneOf(url, MudUrl, ConfEvents);
    AwaitFinds(between, ConfEvents, url, Preceded(more, Received(conf, rest)));
    EndsConfSays(conf, connStatus);
    AwaitFinds(more, ConfEvents, conf, rest);
  }

  /** What does not succeed in authentication is reported by its kind. */
  lemma DenialIsReported(front: seq<Line>, line: Line, e: Event, rest: Future, manual: bool, connStatus: bool)
    requires NoneRecognised(front, AuthEvents) && IsPlainly(line, e)
    requires e == NotCompatible || e == AuthInitFailed || e == ScanPeerQrCode
    ensures AnswerTo(Preceded(front, Received(line, rest)), manual, false, connStatus) ==
            Complete(Report(Ok, if e == NotCompatible then RolesNotCompatible
                                else if e == AuthInitFailed then TimedOut else Failed, Unsaid, Unsaid, Unsaid))
  {
    PlainlyOneOf(line, e, AuthEvents);
    AwaitFinds(front, AuthEvents, line, rest);
    assert ReceivedBy(Preceded(front, Received(line, rest)), manual, true) ==
           if e == AuthInitFailed then Replied(AUTH_TIMEOUT) else Passed(line, rest);
  }

  lemma SilenceIsReported(front: seq<Line>, rest: Future, manual: bool, connStatus: bool)
    requires NoneRecognised(front, AuthEvents)
    ensures AnswerTo(Preceded(front, Silence(rest)), manual, false, connStatus) ==
            Complete(Report(Ok, TimedOut, Unsaid, Unsaid, Unsaid))
  {
    AwaitGivesUp(front, AuthEvents, rest);
  }

  /** And so is a configuration that fails or does not come. */
  lemma FailureIsReported(front: seq<Line>, auth: Line, between: seq<Line>, failed: Line, rest: Future,
                          manual: bool, connStatus: bool)
    requires NoneRecognised(front, AuthEvents) && IsPlainly(auth, AuthSuccess)
    requires NoneRecognised(between, ConfEvents) && IsPlainly(failed, ConfFailed)
    ensures AnswerTo(Preceded(front, Received(auth, Preceded(between, Received(failed, rest)))),
                     manual, false, connStatus) == Complete(Report(Ok, Ok, Failed, Unsaid, Unsaid))
  {
    AnswerOnceGranted(front, auth, Preceded(between, Received(failed, rest)), manual, connStatus);
    PlainlyOneOf(failed, ConfFailed, ConfEvents);
    AwaitFinds(between, ConfEvents, failed, rest);
  }

  lemma NoConfigurationIsReported(front: seq<Line>, auth: Line, between: seq<Line>, rest: Future,
                                  manual: bool, connStatus: bool)
    requires NoneRecognised(front, AuthEvents) && IsPlainly(auth, AuthSuccess) && NoneRecognised(between, ConfEvents)
    ensures AnswerTo(Preceded(front, Received(auth, Preceded(between, Silence(rest)))), manual, false, connStatus) ==
            Complete(Report(Ok, Ok, TimedOut, Unsaid, Unsaid))
  {
    AnswerOnceGranted(front, auth, Preceded(between, Silence(rest)), manual, connStatus);
    AwaitGivesUp(between, ConfEvents, rest);
  }

  /** A line on the wire: it says what is anywhere in it, and starts with what is behind its level. */
  lemma OnTheWire(text: string, e: Event)
    ensures Says(Read(text), e) <==> Contains(text, e.Text())
    ensures Headed(Read(text), e) <==> StartsBehindLevel(text, e.Text())
  {
    LevelIsSkipped(text, e.Text());
  }

  /** The names that complete a stage. */
  lemma StageNames()
    ensures AuthSuccess.Text() == "DPP-AUTH-SUCCESS" && Connected_.Text() == "CTRL-EVENT-CONNECTED"
    ensures ConfSent.Text() == "DPP-CONF-SENT" && ConfReceived.Text() == "DPP-CONF-RECEIVED"
  {}

  /** The names of the data for an access point. */
  lemma ConfObjectNames()
    ensures Connector.Text() == "DPP-CONNECTOR" && CSignKey.Text() == "DPP-C-SIGN-KEY"
    ensures NetAccessKey.Text() == "DPP-NET-ACCESS-KEY" && ConfobjAkm.Text() == "DPP-CONFOBJ-AKM"
    ensures ConfobjSsid.Text() == "DPP-CONFOBJ-SSID" && ConfobjPass.Text() == "DPP-CONFOBJ-PASS"
    ensures ConfobjPsk.Text() == "DPP-CONFOBJ-PSK"
  {}

  /** The text has a level in front, up to its first '>', and then this name. */
  ghost predicate StartsBehindLevel(text: string, name: string) {
    exists level: string :: '>' !in level && level + ">" + name <= text
  }

  lemma LevelIsSkipped(text: string, name: string)
    ensures StartsBehindLevel(text, name) <==>
            match IndexOf(text, '>') case None => false case Some(k) => StartsAt(text, k + 1, name)
  {
    IndexOfIsFirst(text, '>');
    if level: string :| '>' !in level && level + ">" + name <= text {
      var k := |level|;
      assert text[..k + 1 + |name|] == level + ">" + name;
      assert text[..k] == text[..k + 1 + |name|][..k] == level;
      assert text[k] == text[..k + 1 + |name|][k] == '>';
      assert forall i :: 0 <= i < k ==> text[i] == level[i];
      FirstIsIndexOf(text, '>', k);
      assert text[k + 1..k + 1 + |name|] == text[..k + 1 + |name|][k + 1..];
    }
    match IndexOf(text, '>') {
      case None =>
      case Some(k) =>
        if StartsAt(text, k + 1, name) {
          var level := text[..k];
          assert level + ">" + name == text[..k + 1 + |name|];
          assert '>' !in level && level + ">" + name <= text;
        }
    }
  }

  // -------------------------------------------------------------------- errors

  /** A line that carries what its event should. */
  ghost predicate WellFormed(line: Line) {
    && !Malformed(line) && (line.hasUrl ==> Argument(line.text).Some?)
    && (Headed(line, ConfiguratorId) || Headed(line, NetworkId) ==> Argument(line.text).Some?)
    && (Headed(line, Csr) ==> !LacksCsr(line))
    && (Headed(line, ConnStatusResult) ==> Contains(line.text, "result="))
  }

  /**
   Where everything works and nothing is wrong with the order, an error is answered only if a line that the
   exchange needs does not come in time or the peer does not go along with mutual authentication.
   */
  lemma ErrorsHaveTheirCause(dut: Dut, o: O.Order, known: Known, before: Answers)
    requires ToldOn(dut, o, known, before) && Works(dut) && Complies(o, known)
    requires dut.log.Then? ==> WellFormed(dut.log.line)
    ensures dut.sent.last.Complete?
         || (exists names :: dut.sent.last == Error(Missing(names)) && InVainFor(dut.log, names))
         || (dut.log.Then? && Recognised(dut.log.line, AuthEvents) && dut.sent.last.fault.Deviation?)
  {
    if dut.sent.last.Error? {
      assert Caused(dut, dut.log, dut.evidence, dut.sent.last.fault);
      if dut.sent.last.fault.Missing? {
        assert dut.sent.last == Error(Missing(dut.sent.last.fault.names));
      }
    }
  }

  // ------------------------------------------------------------ whole commands

  /** A Configurator that initiates with the QR Code of its peer, and the first profile. */
  function ProvisioningCmd(): O.Cmd {
    map[O.ActionType := "AutomaticDPP", O.DppBs := "QR", O.AuthRole := "Initiator",
        O.ProvisioningRole := "Configurator", O.ConfIndex := "1"]
  }

  lemma ProvisioningRoles(isAp: bool)
    ensures var o := O.ReadOrder(ProvisioningCmd(), isAp);
            && O.ReadAction(ProvisioningCmd()).Automatic? && !o.manual && o.bs.Qr? && o.authRole.Initiator?
            && o.prov.Configurator? && o.confIndex == 1
  {
    assert Digits("1", 0) == 1;
  }

  lemma ProvisioningRest(isAp: bool)
    ensures var o := O.ReadOrder(ProvisioningCmd(), isAp);
            && o.netrole.NoNetRole? && o.handover.NoHandover? && o.frame.NoFrame? && o.step.NoStep? && !o.selfConf
            && !o.waitConn && !o.mutual && !o.connStatus && !o.chirp && o.subsequentChannel.None?
    ensures !O.Is(ProvisioningCmd(), O.StatusQuery, "Yes")
  {}

  lemma ProvisioningGoesWell(dut: Dut)
    requires Works(dut) && dut.dppPeerUri.Some?
    ensures O.ReadAction(ProvisioningCmd()).Automatic? && !O.Is(ProvisioningCmd(), O.StatusQuery, "Yes")
    ensures GoesWell(dut, O.ReadOrder(ProvisioningCmd(), dut.isAp))
  {
    ProvisioningRoles(dut.isAp);
    ProvisioningRest(dut.isAp);
  }

  /** With a success of both in the future, it is answered with that success. */
  method ExecProvisioningCmd(dut: Dut, ghost front: seq<Line>, ghost auth: Line, ghost between: seq<Line>,
                             ghost conf: Line, ghost rest: Future)
    returns (r: CmdResult)
    requires Works(dut) && dut.dppPeerUri.Some?
    requires dut.future == Preceded(front, Received(auth, Preceded(between, Received(conf, rest))))
    requires NoneRecognised(front, AuthEvents) && IsPlainly(auth, AuthSuccess)
    requires NoneRecognised(between, ConfEvents) && IsPlainly(conf, ConfSent)
    modifies dut
    ensures r == StatusSent
    ensures dut.sent == Answer(old(dut.sent), Complete(Report(Ok, Ok, Ok, Unsaid, Unsaid)))
  {
    ProvisioningGoesWell(dut);
    SuccessIsReported(front, auth, between, conf, rest, false, false);
    r := DevExecAction(dut, ProvisioningCmd());
  }

  /** Manual bootstrapping with a QR Code, seven seconds, and no DPPAuthRole. */
  function ForgetfulCmd(): O.Cmd {
    map[O.ActionType := "ManualDPP", O.DppBs := "QR", O.Timeout := "7"]
  }

  /** On a station on which everything works this command meets the condition. */
  lemma ForgetfulCmdForgets(dut: Dut)
    requires !dut.isAp && dut.trials(dut.nextTrial)
    requires forall n :: dut.nextReply <= n <= dut.nextReply + 2 ==> dut.replies(n).OkReply?
    ensures ForgetsTimeout(dut, ForgetfulCmd()) && O.RequestedTimeout(ForgetfulCmd()) == Some(7)
  {}

  /** So executing it replaces the timeout, whatever it was, by its own. */
  method ExecForgetful(dut: Dut) returns (r: CmdResult)
    requires !dut.isAp && dut.trials(dut.nextTrial) && dut.defaultTimeout != 7
    requires forall n :: dut.nextReply <= n <= dut.nextReply + 2 ==> dut.replies(n).OkReply?
    modifies dut
    ensures old(ForgetsTimeout(dut, ForgetfulCmd()))
    ensures Accounted(old(dut.sent), dut.sent, r)
    ensures dut.defaultTimeout == 7 != old(dut.defaultTimeout)
  {
    ForgetfulCmdForgets(dut);
    r := DevExecAction(dut, ForgetfulCmd());
  }

  /** What a truthful report of success rests on. */
  lemma TruthfulReports(x: Exchange, log: Log, r: Response)
    requires Truthful(x, log, r) && r.Complete?
    ensures Claim(r).Rank() >= 1 ==> AuthSeen(x, log.Lines())
    ensures Claim(r).Rank() >= 2 ==> ConfSeen(x, log.Lines())
    ensures Claim(r).Rank() >= 3 ==> ConnSeen(x, log.Lines())
    ensures AllPlain(log) ==>
              && (Claim(r).Rank() >= 1 <==> AuthSeen(x, log.Lines()))
              && (Claim(r).Rank() >= 2 <==> ConfSeen(x, log.Lines()))
              && (Claim(r).Rank() >= 3 <==> ConnSeen(x, log.Lines()))
  {
    ReachedIsOrder(x, log);
  }
}
