/**
 `dpp_automatic_dpp`: one provisioning exchange, from the checks on its
 parameters to the one result that is reported for it.
 */
module DppAutomatic {
  import opened CText
  import opened DppLines
  import opened DppMonitor
  import opened DppHostapdUpdate
  import O = DppOrder

  /** One answer more than before, and a final one. */
  ghost predicate OneMore(before: Answers, now: Answers) {
    now.Answer? && now.before == before && !now.last.Running?
  }

  /** The number behind "result=". */
  function StatusResult(text: string): Option<int> {
    match Find(text, "result=")
    case None => None
    case Some(i) => Some(Atoi(text[i + 7..]))
  }

  lemma StatusIsFound(text: string)
    ensures StatusResult(text).None? <==> !Contains(text, "result=")
  {
    FindIsContains(text, "result=");
  }

  /** The number is what is printed behind the first "result=". */
  lemma StatusIsPrinted(front: string, n: nat, rest: string, text: string)
    requires text == front + ("result=" + (Decimal(n) + rest)) && (rest != "" ==> !IsDigit(rest[0]))
    requires forall i: nat :: i < |front| ==> !StartsAt(text, i, "result=")
    ensures StatusResult(text) == Some(n)
  {
    FindIsContains(text, "result=");
    var tail := "result=" + (Decimal(n) + rest);
    assert text[|front|..|front| + 7] == tail[..7] == "result=";
    assert StartsAt(text, |front|, "result=");
    var at := Find(text, "result=");
    assert at.Some? && at.value == |front|;
    assert text[|front| + 7..] == Decimal(n) + rest;
    AtoiReadsDecimal(n, rest, ' ');
  }

  /** The names that an exchange waits for until it is authenticated, and then until it is configured. */
  function AuthNames(x: Exchange): Names {
    match x case Provisioning => AuthEvents case ReconfigEnrollee => Only(GasQueryStart)
    case ReconfigConfigurator => Only(ConfReqRx)
  }

  function ConfNames(x: Exchange): Names {
    match x case Provisioning => ConfEvents case ReconfigEnrollee => ReceivedOrFailed
    case ReconfigConfigurator => SentOrFailed
  }

  ghost predicate InVainFor(log: Log, names: Names) {
    log.Quiet? && log.names == names
  }

  /** The transmit event of a frame or its status did not come in time, or the status is that of a failure. */
  ghost predicate GaveUp(log: Log) {
    || InVainFor(log, Only(Tx)) || InVainFor(log, Only(TxStatus))
    || (log.Then? && Contains(log.line.text, "result=FAILED"))
  }

  /** In front of the last line or silence a PMKSA was added, after the configuration had ended. */
  ghost predicate Introduced(x: Exchange, log: Log) {
    && !log.Opened? && log.before.Then? && Says(log.before.line, PmksaCacheAdded)
    && Reached(x, log.before.before).Rank() >= Configured.Rank()
  }

  /** The initiation failed, and that was not said in place of a result that was already pending. */
  ghost predicate InitFailed(log: Log) {
    log.Then? && Says(log.line, AuthInitFailed)
  }

  ghost predicate WasPending(log: Log) {
    !log.Opened? && log.before.Then? && (Says(log.before.line, ResponsePending) || Says(log.before.line, AuthDirection))
  }

  /** The verdicts that stand for the last line, or for the wait that came to nothing. */
  ghost predicate Grounded(x: Exchange, log: Log, r: Report) {
    && (r.bootstrap.TimedOut? ==> GaveUp(log))
    && (r.auth.TimedOut? ==> InVainFor(log, AuthNames(x)) || InitFailed(log))
    && (r.auth.RolesNotCompatible? ==> log.Then? && Says(log.line, NotCompatible))
    && (r.auth.Failed? ==> log.Then? && !Says(log.line, AuthSuccess) && !Says(log.line, NotCompatible))
    && (r.auth.Failed? && InitFailed(log) ==> WasPending(log))
    && (r.conf.TimedOut? ==> InVainFor(log, ConfNames(x)))
    && (r.conf.Failed? ==> log.Then? && Recognised(log.line, ConfNames(x)) && !x.CompletesConf(log.line))
    && (r.intro.Ok? ==> Introduced(x, log))
    && (r.intro.TimedOut? ==> GaveUp(log) || InVainFor(log, ConnEvents))
    && (r.connect.Ok? ==> log.Then? && Says(log.line, Connected_))
    && (r.connect.TimedOut? ==> InVainFor(log, ConnEvents) || (log.Then? && !Says(log.line, Connected_)))
    && (r.statusTimeout ==> InVainFor(log, Only(ConnStatusResult)))
    && (r.status.Some? ==>
          log.Then? && Headed(log.line, ConnStatusResult) && r.status == StatusResult(log.line.text))
    && (AllPlain(log) ==> r.mudUrl == if NamesUrl(r) then GistOf(x, log).url else None)
  }

  /** The reports with a place for the MUD URL: those of a configuration, and of the status of a connection. */
  predicate NamesUrl(r: Report) {
    r.conf.Ok? && r.intro.Unsaid? && r.connect.Unsaid? && !r.statusTimeout
  }

  /** A completed report claims the stage that the log vouches for. */
  ghost predicate Truthful(x: Exchange, log: Log, r: Response) {
    r.Complete? ==> AtStage(x, log, Claim(r)) && Grounded(x, log, r.report)
  }

  /** A report that speaks of success so far, and not of a connection. */
  predicate Standing(r: Report) {
    && !r.bootstrap.TimedOut? && r.auth.Ok? && r.conf.Ok? && r.intro.Unsaid? && r.connect.Unsaid?
    && !r.statusTimeout && r.status.None? && r.mudUrl.None?
  }

  /** One more answer: a truthful report, or an error that has its cause. */
  ghost predicate Told(dut: Dut, before: Answers)
    reads dut`sent, dut`log, dut`exchange, dut`evidence, dut`replies, dut`trials
  {
    && OneMore(before, dut.sent) && (dut.sent.last.Complete? || dut.sent.last.Error?)
    && Truthful(dut.exchange, dut.log, dut.sent.last)
    && (dut.sent.last.Error? ==> Caused(dut, dut.log, dut.evidence, dut.sent.last.fault))
  }

  /** Something did not come about. */
  predicate Negative(r: Report) {
    || r.bootstrap.TimedOut? || r.auth.TimedOut? || r.auth.Failed? || r.auth.RolesNotCompatible?
    || r.conf.TimedOut? || r.conf.Failed? || r.connect.TimedOut?
  }

  /** The exchange has ended early, with an error or a report of what did not come about. */
  ghost predicate CutShort(dut: Dut, before: Answers)
    reads dut`sent, dut`log, dut`exchange, dut`evidence, dut`replies, dut`trials
  {
    Told(dut, before) && (dut.sent.last.Complete? ==> Negative(dut.sent.last.report))
  }

  const NOTHING_DONE := Report(Ok, Unsaid, Unsaid, Unsaid, Unsaid)
  const AUTH_DONE := Report(Ok, Ok, Unsaid, Unsaid, Unsaid)
  const CONF_DONE := Report(Ok, Ok, Ok, Unsaid, Unsaid)

  /** `buf` before anything has been received. */
  const NO_LINE: Line := RawLine({}, {}, false, "")

  // --------------------------------------------------------- waiting for frames

  function TypeTag(frameType: nat): string
    requires frameType <= 10
  {
    "type=" + (if frameType == 10 then "10" else [(('0' as int) + frameType) as char])
  }

  /** Waiting for frame events until one carries the tag: whether it came, and what is left to happen. */
  function AwaitTagged(future: Future, names: Names, tag: string): (bool, Future)
    decreases future
  {
    var w := Await(future, names);
    if w.got.None? then (false, w.rest)
    else if Contains(w.got.value.text, tag) then (true, w.rest)
    else AwaitTagged(w.rest, names, tag)
  }

  /** What was delivered since `before` are lines without the tag. */
  ghost predicate Untagged(before: Log, now: Log, tag: string) {
    now == before || (now.Then? && !Contains(now.line.text, tag) && Untagged(before, now.before, tag))
  }

  /** The wait that began at `before` ended with the first line of the event that carries the tag. */
  ghost predicate Tagged(before: Log, now: Log, e: Event, tag: string) {
    now.Then? && Headed(now.line, e) && Contains(now.line.text, tag) && Untagged(before, now.before, tag)
  }

  /** It ended with silence, and no line that came before carries the tag. */
  ghost predicate InVain(before: Log, now: Log, e: Event, tag: string) {
    InVainFor(now, Only(e)) && Untagged(before, now.before, tag)
  }

  /** `dpp_wait_tx` */
  method WaitTx(dut: Dut, tag: string) returns (ok: bool)
    modifies dut`future, dut`log
    ensures Idle(dut.exchange, old(dut.log), dut.log)
    ensures (ok, dut.future) == old(AwaitTagged(dut.future, Only(Tx), tag))
    ensures if ok then Tagged(old(dut.log), dut.log, Tx, tag) else InVain(old(dut.log), dut.log, Tx, tag)
  {
    while true
      invariant Idle(dut.exchange, old(dut.log), dut.log) && Untagged(old(dut.log), dut.log, tag)
      invariant AwaitTagged(dut.future, Only(Tx), tag) == old(AwaitTagged(dut.future, Only(Tx), tag))
      decreases dut.future
    {
      var got := dut.GetOther(Only(Tx));
      if got.None? { return false; }
      OnlyHeads(got.value, Tx);
      if Contains(got.value.text, tag) { return true; }
    }
  }

  /** The frame went out, and the next transmit status is not that of a failure. */
  function AwaitStatus(future: Future, tag: string): (bool, Future) {
    var (sent, rest) := AwaitTagged(future, Only(Tx), tag);
    if !sent then (false, rest)
    else
      var w := Await(rest, Only(TxStatus));
      (w.got.Some? && !Contains(w.got.value.text, "result=FAILED"), w.rest)
  }

  /** `dpp_wait_tx_status` */
  method WaitTxStatus(dut: Dut, tag: string) returns (ok: bool)
    modifies dut`future, dut`log
    ensures Idle(dut.exchange, old(dut.log), dut.log)
    ensures (ok, dut.future) == old(AwaitStatus(dut.future, tag))
    ensures !ok ==> GaveUp(dut.log)
    ensures ok ==> dut.log.Then? && Headed(dut.log.line, TxStatus) && Tagged(old(dut.log), dut.log.before, Tx, tag)
  {
    ok := WaitTx(dut, tag);
    if ok {
      var got := dut.GetOther(Only(TxStatus));
      if got.Some? { OnlyHeads(got.value, TxStatus); }
      ok := got.Some? && !Contains(got.value.text, "result=FAILED");
    }
  }

  /** `dpp_wait_rx`; no maximum stands for -1, which as an unsigned number limits nothing. */
  method WaitRx(dut: Dut, tag: string, maxWait: Option<nat>) returns (ok: bool)
    modifies dut`future, dut`log, dut`defaultTimeout
    ensures Idle(dut.exchange, old(dut.log), dut.log)
    ensures dut.defaultTimeout == old(dut.defaultTimeout)
    ensures (ok, dut.future) == old(AwaitTagged(dut.future, Only(Rx), tag))
    ensures if ok then Tagged(old(dut.log), dut.log, Rx, tag) else InVain(old(dut.log), dut.log, Rx, tag)
  {
    var oldTimeout := dut.defaultTimeout;
    if maxWait.Some? && maxWait.value > 0 && dut.defaultTimeout > maxWait.value {
      dut.defaultTimeout := maxWait.value;
    }
    ghost var limited := dut.defaultTimeout;
    while true
      invariant Idle(dut.exchange, old(dut.log), dut.log) && dut.defaultTimeout == limited
      invariant Untagged(old(dut.log), dut.log, tag)
      invariant AwaitTagged(dut.future, Only(Rx), tag) == old(AwaitTagged(dut.future, Only(Rx), tag))
      decreases dut.future
    {
      var got := dut.GetOther(Only(Rx));
      if got.None? {
        dut.defaultTimeout := oldTimeout;
        return false;
      }
      OnlyHeads(got.value, Rx);
      if Contains(got.value.text, tag) {
        dut.defaultTimeout := oldTimeout;
        return true;
      }
    }
  }

  /** `dpp_wait_rx_conf_req` */
  method WaitRxConfReq(dut: Dut, maxWait: nat) returns (ok: bool)
    requires dut.exchange.Provisioning?
    modifies dut`future, dut`log, dut`defaultTimeout
    ensures Idle(dut.exchange, old(dut.log), dut.log)
    ensures dut.defaultTimeout == old(dut.defaultTimeout)
    ensures var w := old(Await(dut.future, Only(ConfReqRx))); ok == w.got.Some? && dut.future == w.rest
  {
    var oldTimeout := dut.defaultTimeout;
    if maxWait > 0 && dut.defaultTimeout > maxWait {
      dut.defaultTimeout := maxWait;
    }
    var got := dut.GetOther(Only(ConfReqRx));
    ok := got.Some?;
    dut.defaultTimeout := oldTimeout;
  }

  // ------------------------------------------------------------ authentication

  method Tell(dut: Dut, r: Report)
    modifies dut`sent, dut`evidence
    ensures dut.sent == Answer(old(dut.sent), Complete(r))
  {
    dut.SendResp(Complete(r));
  }

  /** The stage that one more authentication event leads to. */
  function AfterAuthEvent(line: Line): Stage {
    if Says(line, AuthSuccess) then Authenticated else Nothing
  }

  /** Wait for one of `auth_events`, before anything has succeeded. */
  method AwaitAuth(dut: Dut) returns (got: Option<Line>)
    requires dut.exchange.Provisioning? && AtStage(dut.exchange, dut.log, Nothing)
    modifies dut`future, dut`log
    ensures Wait(got, dut.future) == old(Await(dut.future, AuthEvents))
    ensures dut.log == if got.None? then Quiet(old(dut.log), AuthEvents) else Then(old(dut.log), got.value)
    ensures got.Some? ==> AtStage(dut.exchange, dut.log, AfterAuthEvent(got.value)) && Recognised(got.value, AuthEvents)
    ensures got.Some? && AllPlain(dut.log) && Says(got.value, AuthSuccess) ==>
              && !Says(got.value, ResponsePending) && !Says(got.value, AuthInitFailed)
              && !Says(got.value, NotCompatible) && !Says(got.value, AuthDirection) && !Says(got.value, ScanPeerQrCode)
  {
    got := dut.GetEvents(AuthEvents);
    if got.Some? && Plain(got.value) {
      PlainSaysOne(got.value, AuthEvents);
    }
  }

  /** The QR Code of the own URI will be shown. */
  predicate DisplayWorks(dut: Dut)
    reads dut`nextReply, dut`nextTrial, dut`replies, dut`trials
  {
    dut.replies(dut.nextReply).OkReply? && dut.trials(dut.nextTrial)
  }

  /** The last reply or trial was no good one. */
  ghost predicate JustFailed(dut: Dut)
    reads dut`nextReply, dut`nextTrial, dut`replies, dut`trials
  {
    Refused(dut, Evidence(dut.nextReply, dut.nextTrial)) || Mishappened(dut, Evidence(dut.nextReply, dut.nextTrial))
  }

  /** `dpp_display_own_qrcode` */
  method DisplayOwnQrcode(dut: Dut) returns (ok: bool)
    modifies dut`nextReply, dut`issued, dut`nextTrial
    ensures ok == old(DisplayWorks(dut))
    ensures !ok ==> JustFailed(dut)
  {
    var uri := dut.WpaCommandResp(BootstrapGetUri);
    ok := uri.OkReply?;
    if ok {
      ok := dut.Try();
    }
  }

  /** What comes of waiting for the authentication response: an answer, or a line to go on with. */
  datatype Responded = Replied(r: Response) | Passed(line: Line, rest: Future)

  const AUTH_TIMEOUT := Complete(NOTHING_DONE.(auth := TimedOut))

  function CheckMutual(line: Line, rest: Future, checkMutual: bool): Responded {
    if !checkMutual then Passed(line, rest)
    else if Says(line, NotCompatible) then Replied(Complete(NOTHING_DONE.(auth := RolesNotCompatible)))
    else if !Says(line, AuthDirection) then Replied(Error(Deviation(NoAuthDirection)))
    else if !Contains(line.text, "mutual=1") then Replied(Error(Deviation(PeerNotMutual)))
    else Passed(line, rest)
  }

  /** The response for all that will happen; `shown` tells whether a QR Code that is asked for can be displayed. */
  function ReceivedBy(future: Future, manual: bool, shown: bool): Responded {
    match Await(future, AuthEvents)
    case Wait(None, _) => Replied(AUTH_TIMEOUT)
    case Wait(Some(line), rest) =>
      if Says(line, ResponsePending) then
        if manual && !shown then Replied(Error(OwnQrCodeNotShown))
        else
          match Await(rest, AuthEvents)
          case Wait(None, _) => Replied(AUTH_TIMEOUT)
          case Wait(Some(next), later) => Passed(next, later)
      else if Says(line, AuthInitFailed) then Replied(AUTH_TIMEOUT)
      else Passed(line, rest)
  }

  function RespondedBy(future: Future, manual: bool, shown: bool, checkMutual: bool): Responded {
    match ReceivedBy(future, manual, shown)
    case Replied(r) => Replied(r)
    case Passed(line, rest) => CheckMutual(line, rest, checkMutual)
  }

  /** The response has just come, before anything has been authenticated. */
  ghost predicate HasResponse(x: Exchange, log: Log, line: Line) {
    && log.Then? && log.line == line && AtStage(x, log, AfterAuthEvent(line)) && Recognised(line, AuthEvents)
    && (Says(line, AuthInitFailed) ==> WasPending(log))
    && (AllPlain(log) ==> Reached(x, log.before).Nothing?)
    && (AllPlain(log) && Says(line, AuthSuccess) ==> !Says(line, AuthDirection) && !Says(line, NotCompatible))
  }

  /** The waits of `dpp_process_auth_response`. */
  method AwaitResponse(dut: Dut, manual: bool) returns (ok: bool, line: Line)
    requires dut.exchange.Provisioning? && AtStage(dut.exchange, dut.log, Nothing)
    modifies dut`future, dut`log, dut`sent, dut`evidence, dut`nextReply, dut`issued, dut`nextTrial
    ensures !ok ==> CutShort(dut, old(dut.sent))
    ensures !ok ==> dut.sent.last.Error? || Claim(dut.sent.last) == Nothing
    ensures ok ==> dut.sent == old(dut.sent) && HasResponse(dut.exchange, dut.log, line)
    ensures match ReceivedBy(old(dut.future), manual, old(DisplayWorks(dut)))
            case Replied(r) => !ok && dut.sent.last == r
            case Passed(l, rest) => ok && line == l && dut.future == rest
  {
    line := NO_LINE;
    var got := AwaitAuth(dut);
    if got.None? {
      Tell(dut, NOTHING_DONE.(auth := TimedOut));
      return false, line;
    }
    line := got.value;
    if Says(line, ResponsePending) {
      if manual {
        var shown := DisplayOwnQrcode(dut);
        if !shown {
          dut.Fail(OwnQrCodeNotShown);
          return false, line;
        }
      }
      got := AwaitAuth(dut);
      if got.None? {
        Tell(dut, NOTHING_DONE.(auth := TimedOut));
        return false, line;
      }
      line := got.value;
    } else if Says(line, AuthInitFailed) {
      Tell(dut, NOTHING_DONE.(auth := TimedOut));
      return false, line;
    }
    ok := true;
  }

  /** `dpp_process_auth_response`; not ok means that the controller has its answer. */
  method ProcessAuthResponse(dut: Dut, manual: bool, checkMutual: bool) returns (ok: bool, line: Line)
    requires dut.exchange.Provisioning? && AtStage(dut.exchange, dut.log, Nothing)
    modifies dut`future, dut`log, dut`sent, dut`evidence, dut`nextReply, dut`issued, dut`nextTrial
    ensures !ok ==> CutShort(dut, old(dut.sent))
    ensures !ok ==> dut.sent.last.Error? || Claim(dut.sent.last) == Nothing
    ensures ok ==> dut.sent == old(dut.sent) && HasResponse(dut.exchange, dut.log, line)
    ensures match RespondedBy(old(dut.future), manual, old(DisplayWorks(dut)), checkMutual)
            case Replied(r) => !ok && dut.sent.last == r
            case Passed(l, rest) => ok && line == l && dut.future == rest
    ensures ok && checkMutual ==>
              Says(line, AuthDirection) && !Says(line, NotCompatible) && Contains(line.text, "mutual=1")
  {
    ok, line := AwaitResponse(dut, manual);
    if ok && checkMutual {
      ok := RequireMutual(dut, line);
    }
  }

  method RequireMutual(dut: Dut, line: Line) returns (ok: bool)
    requires dut.exchange.Provisioning? && HasResponse(dut.exchange, dut.log, line)
    modifies dut`sent, dut`evidence
    ensures !ok ==> CutShort(dut, old(dut.sent))
    ensures !ok ==> dut.sent.last.Error? || Claim(dut.sent.last) == Nothing
    ensures ok ==> dut.sent == old(dut.sent)
    ensures match CheckMutual(line, dut.future, true)
            case Replied(r) => !ok && dut.sent.last == r
            case Passed(_, _) => ok
  {
    ok := false;
    if Says(line, NotCompatible) {
      Tell(dut, NOTHING_DONE.(auth := RolesNotCompatible));
    } else if !Says(line, AuthDirection) {
      dut.Fail(Deviation(NoAuthDirection));
    } else if !Contains(line.text, "mutual=1") {
      dut.Fail(Deviation(PeerNotMutual));
    } else {
      ok := true;
    }
  }

  // ------------------------------------------------- results of the test frames

  /** The type of a PKEX frame that a test sends in error. */
  function PkexType(frame: O.Frame): (t: Option<nat>)
    ensures t.Some? ==> t.value <= 10
  {
    match frame
    case PkexExchangeRequest => Some(7)
    case PkexExchangeResponse => Some(8)
    case PkexCrRequest => Some(9)
    case PkexCrResponse => Some(10)
    case _ => None
  }

  /** The tags by which the frames of the tests are known. */
  lemma TestTags()
    ensures TypeTag(0) == "type=0" && TypeTag(1) == "type=1" && TypeTag(2) == "type=2"
    ensures TypeTag(PkexType(O.PkexExchangeRequest).value) == "type=7"
    ensures TypeTag(PkexType(O.PkexExchangeResponse).value) == "type=8"
    ensures TypeTag(PkexType(O.PkexCrRequest).value) == "type=9"
    ensures TypeTag(PkexType(O.PkexCrResponse).value) == "type=10"
    ensures TimeoutType(O.AuthenticationRequest) == Some(0) && TimeoutType(O.AuthenticationResponse) == Some(1)
    ensures TimeoutType(O.PkexExchangeRequest).None?
    ensures forall f: O.Frame :: PkexType(f).Some? && !f.PkexExchangeRequest? ==> TimeoutType(f) == PkexType(f)
  {}

  /** A frame that went out, or was waited for in vain. */
  function Seen(seen: bool): Verdict {
    if seen then ErrorSent else TimedOut
  }

  /** The frame of a plain PKEX exchange went by. */
  function PkexWent(future: Future, role: O.Role): bool {
    if role.Responder? then AwaitStatus(future, TypeTag(10)).0
    else if role.Initiator? then AwaitTagged(future, Only(Tx), TypeTag(0)).0
    else true
  }

  const PKEX_TIMEOUT := Report(TimedOut, Unsaid, Unsaid, Unsaid, Unsaid)

  /** Frame tests of PKEX and the frame waits of a plain PKEX exchange. */
  method PkexFrames(dut: Dut, o: O.Order) returns (out: bool)
    requires dut.exchange.Provisioning? && AtStage(dut.exchange, dut.log, Nothing)
    modifies dut`future, dut`log, dut`sent, dut`evidence
    ensures out ==> Told(dut, old(dut.sent))
    ensures out && o.frame.NoFrame? ==> CutShort(dut, old(dut.sent))
    ensures !out ==> dut.sent == old(dut.sent) && AtStage(dut.exchange, dut.log, Nothing)
    ensures o.frame.NoFrame? && !o.bs.Pkex? ==> dut.future == old(dut.future) && dut.log == old(dut.log)
    ensures var t := PkexType(o.frame);
            t.Some? ==>
              var report := PKEX_TIMEOUT.(bootstrap := Seen(old(AwaitStatus(dut.future, TypeTag(t.value)).0)));
              out && dut.sent == Answer(old(dut.sent), Complete(report))
    ensures PkexType(o.frame).None? ==>
              (out <==> o.frame.NoFrame? && o.bs.Pkex? && !PkexWent(old(dut.future), o.authRole))
    ensures PkexType(o.frame).None? && out ==> dut.sent.last == Complete(PKEX_TIMEOUT)
  {
    var t := PkexType(o.frame);
    if t.Some? {
      var seen := WaitTxStatus(dut, TypeTag(t.value));
      Tell(dut, PKEX_TIMEOUT.(bootstrap := Seen(seen)));
      return true;
    }
    out := false;
    if o.frame.NoFrame? && o.bs.Pkex? {
      out := PlainPkex(dut, o.authRole);
    }
  }

  method PlainPkex(dut: Dut, role: O.Role) returns (out: bool)
    requires dut.exchange.Provisioning? && AtStage(dut.exchange, dut.log, Nothing)
    modifies dut`future, dut`log, dut`sent, dut`evidence
    ensures out == !PkexWent(old(dut.future), role)
    ensures out ==> CutShort(dut, old(dut.sent)) && dut.sent.last == Complete(PKEX_TIMEOUT)
    ensures !out ==> dut.sent == old(dut.sent) && AtStage(dut.exchange, dut.log, Nothing)
  {
    var went := true;
    if role.Responder? {
      went := WaitTxStatus(dut, TypeTag(10));
    } else if role.Initiator? {
      went := WaitTx(dut, TypeTag(0));
    }
    if !went {
      Tell(dut, PKEX_TIMEOUT);
    }
    out := !went;
  }

  /** The frame that a peer answered with, if any, to the erroneous request or response. */
  datatype Answering = NoFrameAtAll | PlainResponse | PendingResponse | SameRequest | PlainConfirm {
    function Name(): string {
      match this
      case NoFrameAtAll => "None"
      case PlainResponse => "AuthenticationResponse"
      case PendingResponse => "AuthenticationResponseWithStatusPending"
      case SameRequest => "AuthenticationRequest"
      case PlainConfirm => "AuthenticationConfirm"
    }
  }

  /** What an authentication frame test finds in the future behind the frame that was sent. */
  function AnsweredBy(future: Future, request: bool): Answering {
    var (answered, rest) := AwaitTagged(future, Only(Rx), TypeTag(if request then 1 else 2));
    if !request then if answered then PlainConfirm else SameRequest
    else if !answered then NoFrameAtAll
    else
      var got := Await(rest, AuthEvents).got;
      if got.Some? && Says(got.value, ResponsePending) then PendingResponse else PlainResponse
  }

  /** The report of a frame test: the last frame is named if the frame was seen. */
  function LastFrame(seen: bool, name: string): (r: Report)
    ensures r.auth == Seen(seen)
  {
    if seen then NOTHING_DONE.(auth := ErrorSent, lastFrame := name) else NOTHING_DONE.(auth := TimedOut)
  }

  /** The report of an authentication frame test, for what will happen. */
  function AuthFrameReport(future: Future, request: bool): Report {
    var (seen, rest) := AwaitStatus(future, TypeTag(if request then 0 else 1));
    LastFrame(seen, AnsweredBy(rest, request).Name())
  }

  /** Frame tests that end before the authentication result is looked at. */
  method AuthFrames(dut: Dut, o: O.Order) returns (out: bool)
    requires dut.exchange.Provisioning? && AtStage(dut.exchange, dut.log, Nothing)
    modifies dut`future, dut`log, dut`sent, dut`evidence, dut`defaultTimeout
    ensures dut.defaultTimeout == old(dut.defaultTimeout)
    ensures out <==> o.frame.AuthenticationRequest? || o.frame.AuthenticationResponse?
    ensures out ==> dut.sent == Answer(old(dut.sent),
                                       Complete(AuthFrameReport(old(dut.future), o.frame.AuthenticationRequest?)))
    ensures !out ==> dut.sent == old(dut.sent) && dut.log == old(dut.log) && dut.future == old(dut.future)
  {
    if !o.frame.AuthenticationRequest? && !o.frame.AuthenticationResponse? {
      return false;
    }
    var request := o.frame.AuthenticationRequest?;
    var seen := WaitTxStatus(dut, TypeTag(if request then 0 else 1));
    if !seen {
      Tell(dut, LastFrame(false, ""));
      return true;
    }
    var answering := AwaitAnswer(dut, request);
    Tell(dut, LastFrame(true, answering.Name()));
    out := true;
  }

  method AwaitAnswer(dut: Dut, request: bool) returns (a: Answering)
    modifies dut`future, dut`log, dut`defaultTimeout
    ensures dut.defaultTimeout == old(dut.defaultTimeout)
    ensures a == AnsweredBy(old(dut.future), request)
  {
    var answered := WaitRx(dut, TypeTag(if request then 1 else 2), Some(5));
    if !request { return if answered then PlainConfirm else SameRequest; }
    if !answered { return NoFrameAtAll; }
    var got := dut.GetEvents(AuthEvents);
    a := if got.Some? && Says(got.value, ResponsePending) then PendingResponse else PlainResponse;
  }

  /** The type of the frame that a timeout test waits for, where that is all it does. */
  function TimeoutType(frame: O.Frame): (t: Option<nat>)
    ensures t.Some? ==> t.value <= 10
  {
    match frame
    case PkexExchangeResponse => Some(8)
    case PkexCrRequest => Some(9)
    case PkexCrResponse => Some(10)
    case AuthenticationRequest => Some(0)
    case AuthenticationResponse => Some(1)
    case _ => None
  }

  const UNEXPECTED := Report(Unsaid, Unsaid, Unsaid, Unsaid, Unsaid, lastFrame := "Unexpected state")

  /** The answer to a confirm frame test by role; with mutual authentication the response may end it before. */
  predicate IsConfirmTest(future: Future, o: O.Order, shown: bool, checkMutual: bool, r: Response) {
    if !o.authRole.Initiator? then
      r == Complete(LastFrame(AwaitTagged(future, Only(Rx), TypeTag(2)).0, "AuthenticationConfirm"))
    else if !o.prov.Enrollee? then r == Error(Demand(TimeoutInConfiguratorRole))
    else if !checkMutual then r == Complete(LastFrame(AwaitStatus(future, TypeTag(2)).0, "AuthenticationResponse"))
    else
      match RespondedBy(future, o.manual, shown, checkMutual)
      case Replied(answer) => r == answer
      case Passed(_, rest) => r == Complete(LastFrame(AwaitStatus(rest, TypeTag(2)).0, "AuthenticationResponse"))
  }

  /** The results of a DPPStep,Timeout test. */
  method TimeoutTest(dut: Dut, o: O.Order, checkMutual: bool)
    requires dut.exchange.Provisioning? && AtStage(dut.exchange, dut.log, Nothing)
    modifies dut`future, dut`log, dut`sent, dut`evidence, dut`nextReply, dut`issued, dut`nextTrial, dut`defaultTimeout
    ensures dut.defaultTimeout == old(dut.defaultTimeout)
    ensures OneMore(old(dut.sent), dut.sent)
    ensures var t := TimeoutType(o.frame);
            t.Some? ==>
              var v := Seen(old(AwaitTagged(dut.future, Only(Rx), TypeTag(t.value))).0);
              dut.sent.last == Complete(if PkexType(o.frame).Some? then Report(v, Unsaid, Unsaid, Unsaid, Unsaid)
                                        else NOTHING_DONE.(auth := v))
    ensures o.frame.ConfigurationRequest? ==>
              dut.sent.last == Complete(AUTH_DONE.(conf := Seen(old(Await(dut.future, Only(ConfFailed))).got.Some?)))
    ensures TimeoutType(o.frame).None? && !o.frame.AuthenticationConfirm? && !o.frame.ConfigurationRequest? ==>
              dut.sent.last == Complete(UNEXPECTED)
    ensures o.frame.AuthenticationConfirm? ==>
              IsConfirmTest(old(dut.future), o, old(DisplayWorks(dut)), checkMutual, dut.sent.last)
  {
    var t := TimeoutType(o.frame);
    if t.Some? {
      var rx := WaitRx(dut, TypeTag(t.value), None);
      Tell(dut, if PkexType(o.frame).Some? then Report(Seen(rx), Unsaid, Unsaid, Unsaid, Unsaid)
                else NOTHING_DONE.(auth := Seen(rx)));
      return;
    }
    match o.frame {
      case AuthenticationConfirm =>
        AuthConfirmTimeoutTest(dut, o, checkMutual);
      case ConfigurationRequest =>
        var failed := dut.GetEvents(Only(ConfFailed));
        Tell(dut, AUTH_DONE.(conf := Seen(failed.Some?)));
      case _ =>
        Tell(dut, UNEXPECTED);
    }
  }

  method AuthConfirmTimeoutTest(dut: Dut, o: O.Order, checkMutual: bool)
    requires dut.exchange.Provisioning? && AtStage(dut.exchange, dut.log, Nothing)
    modifies dut`future, dut`log, dut`sent, dut`evidence, dut`nextReply, dut`issued, dut`nextTrial, dut`defaultTimeout
    ensures dut.defaultTimeout == old(dut.defaultTimeout)
    ensures OneMore(old(dut.sent), dut.sent)
    ensures IsConfirmTest(old(dut.future), o, old(DisplayWorks(dut)), checkMutual, dut.sent.last)
  {
    if !o.authRole.Initiator? {
      var rx := WaitRx(dut, TypeTag(2), None);
      Tell(dut, LastFrame(rx, "AuthenticationConfirm"));
      return;
    }
    if !o.prov.Enrollee? {
      dut.Refuse(TimeoutInConfiguratorRole);
      return;
    }
    if checkMutual {
      var ok, _ := ProcessAuthResponse(dut, o.manual, checkMutual);
      if !ok { return; }
    }
    var tx := WaitTxStatus(dut, TypeTag(2));
    Tell(dut, LastFrame(tx, "AuthenticationResponse"));
  }

  /** How authentication ends, for all that will happen: with an answer, or granted with what is left to happen. */
  datatype Authenticating = Denied(r: Response) | Granted(rest: Future)

  function Judged(line: Line, rest: Future): Authenticating {
    if Says(line, NotCompatible) then Denied(Complete(NOTHING_DONE.(auth := RolesNotCompatible)))
    else if !Says(line, AuthSuccess) then Denied(Complete(NOTHING_DONE.(auth := Failed)))
    else Granted(rest)
  }

  function JudgedBy(line: Line, future: Future): Authenticating {
    if !Says(line, AuthDirection) then Judged(line, future)
    else
      match Await(future, AuthEvents)
      case Wait(None, _) => Denied(AUTH_TIMEOUT)
      case Wait(Some(next), later) => Judged(next, later)
  }

  function AuthenticatedBy(future: Future, manual: bool, shown: bool, checkMutual: bool): Authenticating {
    match RespondedBy(future, manual, shown, checkMutual)
    case Replied(r) => Denied(r)
    case Passed(line, rest) => JudgedBy(line, rest)
  }

  /** Authentication: out with an answer, or authenticated. */
  method AuthPhase(dut: Dut, o: O.Order, checkMutual: bool) returns (out: bool)
    requires dut.exchange.Provisioning? && AtStage(dut.exchange, dut.log, Nothing)
    modifies dut`future, dut`log, dut`sent, dut`evidence, dut`nextReply, dut`issued, dut`nextTrial, dut`defaultTimeout
    ensures dut.defaultTimeout == old(dut.defaultTimeout)
    ensures out ==> OneMore(old(dut.sent), dut.sent)
    ensures out && o.frame.NoFrame? ==> CutShort(dut, old(dut.sent))
    ensures !out ==> dut.sent == old(dut.sent) && AtStage(dut.exchange, dut.log, Authenticated)
    ensures !out ==> HeardNothing(dut.exchange, dut.log)
    ensures o.frame.NoFrame? ==>
              match old(AuthenticatedBy(dut.future, o.manual, DisplayWorks(dut), checkMutual))
              case Denied(r) => out && dut.sent.last == r
              case Granted(rest) => !out && dut.future == rest
  {
    var ok, line := ProcessAuthResponse(dut, o.manual, checkMutual);
    if !ok { return true; }
    if o.frame.AuthenticationConfirm? {
      AuthConfirmResult(dut);
      return true;
    }
    out := JudgeAuth(dut, line);
    if out { return; }
    if o.frame.ConfigurationRequest? || o.frame.ConfigurationResponse? {
      ConfigurationFrameResult(dut, o);
      out := true;
    }
  }

  /** No URL has been heard, and no configuration. */
  ghost predicate HeardNothing(x: Exchange, log: Log) {
    AllPlain(log) ==> GistOf(x, log).url.None? && GistOf(x, log).conf.None?
  }

  /** The authentication event that has been received, or the one behind it. */
  method JudgeAuth(dut: Dut, response: Line) returns (out: bool)
    requires dut.exchange.Provisioning? && HasResponse(dut.exchange, dut.log, response)
    modifies dut`future, dut`log, dut`sent, dut`evidence
    ensures out ==> CutShort(dut, old(dut.sent))
    ensures !out ==> dut.sent == old(dut.sent) && AtStage(dut.exchange, dut.log, Authenticated)
    ensures !out ==> HeardNothing(dut.exchange, dut.log)
    ensures match JudgedBy(response, old(dut.future))
            case Denied(r) => out && dut.sent.last == r
            case Granted(rest) => !out && dut.future == rest
  {
    var line := response;
    if Says(line, AuthDirection) {
      var got := AwaitAuth(dut);
      if got.None? {
        Tell(dut, NOTHING_DONE.(auth := TimedOut));
        return true;
      }
      line := got.value;
    }
    if Says(line, NotCompatible) {
      Tell(dut, NOTHING_DONE.(auth := RolesNotCompatible));
      return true;
    }
    if !Says(line, AuthSuccess) {
      Tell(dut, NOTHING_DONE.(auth := Failed));
      return true;
    }
    if AllPlain(dut.log) { NothingHeardYet(dut.exchange, dut.log.before); }
    out := false;
  }

  function BehindConfirm(request: bool): string {
    if request then "ConfigurationRequest" else "AuthenticationResponse"
  }

  method AuthConfirmResult(dut: Dut)
    requires dut.exchange.Provisioning?
    modifies dut`future, dut`log, dut`sent, dut`evidence, dut`defaultTimeout
    ensures dut.defaultTimeout == old(dut.defaultTimeout)
    ensures OneMore(old(dut.sent), dut.sent) && dut.sent.last.Complete?
    ensures dut.sent.last.report.auth == Seen(old(AwaitStatus(dut.future, TypeTag(2))).0)
  {
    var tx := WaitTxStatus(dut, TypeTag(2));
    if tx {
      var request := WaitRxConfReq(dut, 5);
      Tell(dut, LastFrame(true, BehindConfirm(request)));
    } else {
      Tell(dut, LastFrame(false, ""));
    }
  }

  method ConfigurationFrameResult(dut: Dut, o: O.Order)
    modifies dut`future, dut`log, dut`sent, dut`evidence
    ensures OneMore(old(dut.sent), dut.sent)
  {
    var got;
    if o.frame.ConfigurationRequest? {
      got := dut.GetEvents(Only(GasQueryDone));
    } else {
      got := dut.GetEvents(ConfEvents);
      if got.Some? && got.value.hasUrl {
        got := dut.GetEvents(ConfEvents);
      }
    }
    if got.None? {
      Tell(dut, AUTH_DONE.(conf := TimedOut));
    } else if o.frame.ConfigurationRequest? {
      Tell(dut, AUTH_DONE.(conf := ErrorSent));
    } else {
      Tell(dut, AUTH_DONE.(conf := ErrorSent, lastFrame := "ConfigurationRequest"));
    }
  }

  // ------------------------------------------------------------- configuration

  predicate SaysConfigured(line: Line) {
    Says(line, ConfSent) || Says(line, ConfReceived)
  }

  /** Wait for one of `conf_events` after authentication. */
  method AwaitConf(dut: Dut) returns (got: Option<Line>)
    requires dut.exchange.Provisioning? && AtStage(dut.exchange, dut.log, Authenticated)
    modifies dut`future, dut`log
    ensures Wait(got, dut.future) == old(Await(dut.future, ConfEvents))
    ensures dut.log == if got.None? then Quiet(old(dut.log), ConfEvents) else Then(old(dut.log), got.value)
    ensures got.Some? ==> Recognised(got.value, ConfEvents)
    ensures got.Some? ==>
              AtStage(dut.exchange, dut.log, if SaysConfigured(got.value) then Configured else Authenticated)
    ensures got.Some? && AllPlain(dut.log) && got.value.hasUrl ==> !SaysConfigured(got.value)
  {
    got := dut.GetEvents(ConfEvents);
    if got.Some? && Plain(got.value) {
      PlainSaysOne(got.value, ConfEvents);
      assert got.value.hasUrl ==> Says(got.value, MudUrl);
    }
  }

  /** `dpp_process_csr` */
  method ProcessCsr(dut: Dut, csr: Line) returns (ok: bool)
    modifies dut`nextTrial, dut`nextReply, dut`issued, dut`apConfig
    ensures !ok ==> LacksCsr(csr) || JustFailed(dut)
  {
    if !Contains(csr.text, " peer=") || !Contains(csr.text, " csr=") { return false; }
    ok := dut.Try();            // write the CSR file
    if !ok { return; }
    ok := dut.Try();            // dpp-ca.py
    if !ok { return; }
    ok := dut.Try();            // read the certBag file, and it fits
    if !ok { return; }
    ok := dut.WpaCommand(Request(CaSet));
  }

  /** Since `start` the configuration result came, with a line that carries the URL in front of it, or without one. */
  ghost predicate ConfHeard(start: Log, now: Log, mudUrl: Option<string>) {
    && now.Then? && SaysConfigured(now.line)
    && match mudUrl
       case None => now.before == start && !now.line.hasUrl
       case Some(url) =>
         && now.before.Then? && now.before.before == start
         && now.before.line.hasUrl && Argument(now.before.line.text) == Some(url)
  }

  /** How configuration ends, for all that will happen; `room` tells whether there is room for the URL. */
  datatype Configuring = Stopped(r: Response) | Settled(line: Line, mudUrl: Option<string>, rest: Future)

  const CONF_TIMEOUT := Complete(AUTH_DONE.(conf := TimedOut))

  function Decided(line: Line, mudUrl: Option<string>, rest: Future): Configuring {
    if SaysConfigured(line) then Settled(line, mudUrl, rest) else Stopped(Complete(AUTH_DONE.(conf := Failed)))
  }

  function ConfiguredBy(future: Future, room: bool): Configuring {
    match Await(future, ConfEvents)
    case Wait(None, _) => Stopped(CONF_TIMEOUT)
    case Wait(Some(line), rest) =>
      if !line.hasUrl then Decided(line, None, rest)
      else if Argument(line.text).None? || !room then Stopped(Error(Unexplained))
      else
        match Await(rest, ConfEvents)
        case Wait(None, _) => Stopped(CONF_TIMEOUT)
        case Wait(Some(next), later) => Decided(next, Argument(line.text), later)
  }

  /** The result that the peer has asked to be told the status of the connection after. */
  predicate AsksForStatus(line: Line) {
    Says(line, ConfSent) && Contains(line.text, "wait_conn_status=1")
  }

  /** `line` completed the configuration, and `mudUrl` came in front of it. */
  ghost predicate HeardConf(x: Exchange, log: Log, line: Line, mudUrl: Option<string>) {
    AllPlain(log) ==> GistOf(x, log) == Gist(Configured, mudUrl, Some(line))
  }

  /** Configuration: out with an answer, or configured by `line`, and `mudUrl` as heard on the way. */
  method ConfPhase(dut: Dut, o: O.Order, hasCsr: bool)
    returns (out: bool, line: Line, mudUrl: Option<string>, ghost start: Log)
    requires dut.exchange.Provisioning? && AtStage(dut.exchange, dut.log, Authenticated)
    requires HeardNothing(dut.exchange, dut.log)
    modifies dut`future, dut`log, dut`sent, dut`evidence, dut`nextReply, dut`issued, dut`nextTrial, dut`apConfig
    ensures out ==> CutShort(dut, old(dut.sent))
    ensures !out ==> dut.sent == old(dut.sent) && AtStage(dut.exchange, dut.log, Configured)
    ensures !out ==> ConfHeard(start, dut.log, mudUrl) && dut.log.line == line
    ensures !out ==> HeardConf(dut.exchange, dut.log, line, mudUrl)
    ensures !out ==> if o.prov.Configurator? && hasCsr
                     then start.Then? && start.before == old(dut.log) && Headed(start.line, Csr)
                     else start == old(dut.log)
    ensures !(o.prov.Configurator? && hasCsr) ==>
              match old(ConfiguredBy(dut.future, dut.trials(dut.nextTrial)))
              case Stopped(r) => out && dut.sent.last == r
              case Settled(l, url, rest) => !out && line == l && mudUrl == url && dut.future == rest
  {
    line, mudUrl, start := NO_LINE, None, dut.log;
    if o.prov.Configurator? && hasCsr {
      out := HandleCsr(dut);
      if out { return; }
      start := dut.log;
    }
    out, line, mudUrl := AwaitConfiguration(dut);
  }

  method AwaitConfiguration(dut: Dut) returns (out: bool, line: Line, mudUrl: Option<string>)
    requires dut.exchange.Provisioning? && AtStage(dut.exchange, dut.log, Authenticated)
    requires HeardNothing(dut.exchange, dut.log)
    modifies dut`future, dut`log, dut`sent, dut`evidence, dut`nextTrial
    ensures out ==> CutShort(dut, old(dut.sent))
    ensures !out ==> dut.sent == old(dut.sent) && AtStage(dut.exchange, dut.log, Configured)
    ensures !out ==> ConfHeard(old(dut.log), dut.log, mudUrl) && dut.log.line == line
    ensures !out ==> HeardConf(dut.exchange, dut.log, line, mudUrl)
    ensures match old(ConfiguredBy(dut.future, dut.trials(dut.nextTrial)))
            case Stopped(r) => out && dut.sent.last == r
            case Settled(l, url, rest) => !out && line == l && mudUrl == url && dut.future == rest
  {
    line, mudUrl := NO_LINE, None;
    var got := AwaitConf(dut);
    if got.Some? && got.value.hasUrl {
      var room := dut.Try();
      var url := Argument(got.value.text);
      if url.None? || !room {
        dut.Fail(Unexplained);
        return true, line, mudUrl;
      }
      mudUrl := url;
      got := AwaitConf(dut);
    }
    if got.None? {
      Tell(dut, AUTH_DONE.(conf := TimedOut));
      return true, line, mudUrl;
    }
    line := got.value;
    out := !SaysConfigured(line);
    if out {
      Tell(dut, AUTH_DONE.(conf := Failed));
    }
  }

  method HandleCsr(dut: Dut) returns (out: bool)
    requires dut.exchange.Provisioning?
    modifies dut`future, dut`log, dut`sent, dut`evidence, dut`nextReply, dut`issued, dut`nextTrial, dut`apConfig
    ensures Idle(dut.exchange, old(dut.log), dut.log)
    ensures if out then FailedFor(dut, old(dut.sent)) else dut.sent == old(dut.sent)
    ensures !out ==> dut.log.Then? && dut.log.before == old(dut.log) && Headed(dut.log.line, Csr)
  {
    var csr := dut.AwaitOrFail(Only(Csr));
    if csr.None? { return true; }
    OnlyHeads(csr.value, Csr);
    var ok := ProcessCsr(dut, csr.value);
    if !ok {
      dut.Fail(CsrNotProcessed);
    }
    out := !ok;
  }

  /** The answer for the status line that will come, or not. */
  function StatusAnswer(future: Future, done: Report, mudUrl: Option<string>): Response {
    match Await(future, Only(ConnStatusResult)).got
    case None => Complete(done.(statusTimeout := true))
    case Some(line) =>
      var status := StatusResult(line.text);
      if status.None? then Error(Deviation(NoStatusResult)) else Complete(done.(status := status, mudUrl := mudUrl))
  }

  /** The answer of a Configurator that also waits for the connection status. */
  method ReportConnStatus(dut: Dut, done: Report, mudUrl: Option<string>)
    modifies dut`future, dut`log, dut`sent, dut`evidence
    requires Standing(done) && AtStage(dut.exchange, dut.log, Configured)
    requires AllPlain(dut.log) ==> GistOf(dut.exchange, dut.log).url == mudUrl
    ensures dut.sent == Answer(old(dut.sent), StatusAnswer(old(dut.future), done, mudUrl))
    ensures Told(dut, old(dut.sent)) && Idle(dut.exchange, old(dut.log), dut.log)
  {
    var got := dut.GetOther(Only(ConnStatusResult));
    if got.None? {
      Tell(dut, done.(statusTimeout := true));
    } else {
      OnlyHeads(got.value, ConnStatusResult);
      var status := StatusResult(got.value.text);
      StatusIsFound(got.value.text);
      if status.None? {
        dut.Fail(Deviation(NoStatusResult));
      } else {
        Tell(dut, done.(status := status, mudUrl := mudUrl));
      }
    }
  }
}
