/**
 What a DPP command sees of the outside world: the monitor socket of
 wpa_supplicant/hostapd, the replies to control commands, and the controller
 that is waiting for an answer.
 */
module DppMonitor {
  import opened CText
  import opened DppLines

  /** What will happen on the monitor socket: lines, and waits that run into their timeout. */
  datatype Future = Ended | Silence(rest: Future) | Received(line: Line, rest: Future)

  datatype Wait = Wait(got: Option<Line>, rest: Future)

  /** `get_wpa_cli_events`: drop lines up to the first recognised one, or give up on a timeout. */
  function Await(future: Future, names: Names): (w: Wait)
    ensures w.got.Some? ==> Recognised(w.got.value, names) && w.rest < future
  {
    match future
    case Ended => Wait(None, Ended)
    case Silence(rest) => Wait(None, rest)
    case Received(line, rest) => if Recognised(line, names) then Wait(Some(line), rest) else Await(rest, names)
  }

  /** A future that starts with these lines. */
  function Preceded(lines: seq<Line>, future: Future): Future {
    if lines == [] then future else Received(lines[0], Preceded(lines[1..], future))
  }

  /** What is dropped are the lines in front that are not recognised; a timeout or the end comes right behind them. */
  lemma {:induction false} AwaitDropsOthers(future: Future, names: Names) returns (dropped: seq<Line>)
    ensures forall i :: 0 <= i < |dropped| ==> !Recognised(dropped[i], names)
    ensures var w := Await(future, names);
            match w.got
            case Some(line) => future == Preceded(dropped, Received(line, w.rest))
            case None => || future == Preceded(dropped, Silence(w.rest))
                         || (w.rest == Ended && future == Preceded(dropped, Ended))
  {
    dropped := [];
    if future.Received? && !Recognised(future.line, names) {
      var more := AwaitDropsOthers(future.rest, names);
      dropped := [future.line] + more;
      assert dropped[1..] == more;
    }
  }

  // -------------------------------------------------- stages of an exchange

  datatype Stage = Nothing | Authenticated | Configured | Connected {
    function Rank(): nat {
      match this case Nothing => 0 case Authenticated => 1 case Configured => 2 case Connected => 3
    }
  }

  /** Which events complete authentication and configuration depends on the exchange. */
  datatype Exchange = Provisioning | ReconfigEnrollee | ReconfigConfigurator {
    predicate CompletesAuth(line: Line) {
      match this
      case Provisioning => Says(line, AuthSuccess)
      case ReconfigEnrollee => Says(line, GasQueryStart)
      case ReconfigConfigurator => Says(line, ConfReqRx)
    }

    predicate CompletesConf(line: Line) {
      match this
      case Provisioning => Says(line, ConfSent) || Says(line, ConfReceived)
      case ReconfigEnrollee => Says(line, ConfReceived)
      case ReconfigConfigurator => Says(line, ConfSent)
    }

    /** The events that complete some stage. */
    predicate Marks(e: Event) {
      || e.Connected_?
      || match this
         case Provisioning => e.AuthSuccess? || e.ConfSent? || e.ConfReceived?
         case ReconfigEnrollee => e.GasQueryStart? || e.ConfReceived?
         case ReconfigConfigurator => e.ConfReqRx? || e.ConfSent?
    }

    /** None of the names is that of a stage-completing event, or of the URL that is heard with one. */
    predicate NoneMarks(names: Names) {
      match names
      case Only(e) => !Marks(e) && !e.MudUrl?
      case AuthEvents => !Provisioning?
      case ConfEvents => false
      case ConnEvents => false
      case ConfDataEvents => true
      case TxRxEvents => true
      case ReceivedOrFailed => false
      case SentOrFailed => false
    }
  }

  function Advance(x: Exchange, s: Stage, line: Line): Stage {
    match s
    case Nothing => if x.CompletesAuth(line) then Authenticated else Nothing
    case Authenticated => if x.CompletesConf(line) then Configured else Authenticated
    case Configured => if Says(line, Connected_) then Connected else Configured
    case Connected => Connected
  }

  /** What one monitor connection has handed to its command, newest outermost: lines, and waits in vain for names. */
  datatype Log = Opened | Then(before: Log, line: Line) | Quiet(before: Log, names: Names) {
    function Lines(): seq<Line> {
      match this
      case Opened => []
      case Then(before, line) => before.Lines() + [line]
      case Quiet(before, _) => before.Lines()
    }

    /** This log, followed by what is in `later`. */
    function Append(later: Log): Log {
      match later
      case Opened => this
      case Then(before, line) => Then(Append(before), line)
      case Quiet(before, names) => Quiet(Append(before), names)
    }
  }

  /**
   What matters of a log: the stage that its lines have reached, the argument of the last MUD URL line between
   authentication and configuration, and the line that completed the configuration.
   */
  datatype Gist = Gist(stage: Stage, url: Option<string>, conf: Option<Line>)

  function GistOf(x: Exchange, log: Log): Gist {
    match log
    case Opened => Gist(Nothing, None, None)
    case Then(before, line) => More(x, GistOf(x, before), line)
    case Quiet(before, _) => GistOf(x, before)
  }

  function More(x: Exchange, g: Gist, line: Line): Gist {
    Gist(Advance(x, g.stage, line),
         if g.stage.Authenticated? && line.hasUrl then Argument(line.text) else g.url,
         if g.stage.Authenticated? && x.CompletesConf(line) then Some(line) else g.conf)
  }

  /** The stage that the delivered lines have reached, on their own evidence. */
  function Reached(x: Exchange, log: Log): Stage {
    GistOf(x, log).stage
  }

  /** Before anything has been authenticated there is nothing else to know. */
  lemma {:induction false} NothingHeardYet(x: Exchange, log: Log)
    requires Reached(x, log).Nothing?
    ensures GistOf(x, log) == Gist(Nothing, None, None)
  {
    if !log.Opened? { NothingHeardYet(x, log.before); }
  }

  /**
   A line that mentions an event only as its own name. The two transmit events are
   exempt, because the name of one is a prefix of the other.
   */
  ghost predicate Plain(line: Line) {
    forall m: Event, e: Event :: !m.Tx? && !m.TxStatus? && Says(line, m) && Headed(line, e) ==> e == m
  }

  ghost predicate AllPlain(log: Log) {
    match log
    case Opened => true
    case Then(before, line) => AllPlain(before) && Plain(line)
    case Quiet(before, _) => AllPlain(before)
  }

  /** The log vouches for at least stage `s`, and for no other stage if its lines are plain. */
  ghost predicate AtStage(x: Exchange, log: Log, s: Stage) {
    Reached(x, log).Rank() >= s.Rank() && (AllPlain(log) ==> Reached(x, log) == s)
  }

  /** Between two moments nothing was delivered that a plain log could take for the end of a stage. */
  ghost predicate Idle(x: Exchange, before: Log, now: Log) {
    && Reached(x, now).Rank() >= Reached(x, before).Rank()
    && (AllPlain(now) ==> AllPlain(before) && GistOf(x, now) == GistOf(x, before))
  }

  ghost predicate AuthAt(x: Exchange, lines: seq<Line>, i: int) {
    0 <= i < |lines| && x.CompletesAuth(lines[i])
  }

  ghost predicate ConfAt(x: Exchange, lines: seq<Line>, i: int) {
    0 <= i < |lines| && x.CompletesConf(lines[i])
  }

  ghost predicate ConnAt(lines: seq<Line>, i: int) {
    0 <= i < |lines| && Says(lines[i], Connected_)
  }

  /** Indices at which the stages that were reached have been completed. */
  lemma {:induction false} StageEvidence(x: Exchange, log: Log) returns (i: int, j: int, k: int)
    ensures Reached(x, log).Rank() >= 1 ==> AuthAt(x, log.Lines(), i)
    ensures Reached(x, log).Rank() >= 2 ==> i < j && ConfAt(x, log.Lines(), j)
    ensures Reached(x, log).Rank() >= 3 ==> j < k && ConnAt(log.Lines(), k)
  {
    i, j, k := 0, 0, 0;
    if log.Then? {
      i, j, k := StageEvidence(x, log.before);
      var n := |log.before.Lines()|;
      match Reached(x, log.before)
      case Nothing => i := n;
      case Authenticated => j := n;
      case Configured => k := n;
      case Connected =>
    } else if log.Quiet? {
      i, j, k := StageEvidence(x, log.before);
    }
  }

  lemma {:induction false} AuthCounts(x: Exchange, log: Log, i: int)
    requires AuthAt(x, log.Lines(), i)
    ensures Reached(x, log).Rank() >= 1
  {
    if log.Quiet? || i < |log.before.Lines()| { AuthCounts(x, log.before, i); }
  }

  lemma {:induction false} ConfCounts(x: Exchange, log: Log, i: int, j: int)
    requires i < j && AuthAt(x, log.Lines(), i) && ConfAt(x, log.Lines(), j)
    ensures Reached(x, log).Rank() >= 2
  {
    if log.Quiet? || j < |log.before.Lines()| {
      ConfCounts(x, log.before, i, j);
    } else {
      AuthCounts(x, log.before, i);
    }
  }

  lemma {:induction false} ConnCounts(x: Exchange, log: Log, i: int, j: int, k: int)
    requires i < j < k && AuthAt(x, log.Lines(), i) && ConfAt(x, log.Lines(), j) && ConnAt(log.Lines(), k)
    ensures Reached(x, log).Rank() >= 3
  {
    if log.Quiet? || k < |log.before.Lines()| {
      ConnCounts(x, log.before, i, j, k);
    } else {
      ConfCounts(x, log.before, i, j);
    }
  }

  ghost predicate AuthSeen(x: Exchange, lines: seq<Line>) {
    exists i :: AuthAt(x, lines, i)
  }

  ghost predicate ConfSeen(x: Exchange, lines: seq<Line>) {
    exists i, j :: i < j && AuthAt(x, lines, i) && ConfAt(x, lines, j)
  }

  ghost predicate ConnSeen(x: Exchange, lines: seq<Line>) {
    exists i, j, k :: i < j < k && AuthAt(x, lines, i) && ConfAt(x, lines, j) && ConnAt(lines, k)
  }

  /** Each stage is reached exactly when its events stand in the lines in stage order. */
  lemma ReachedIsOrder(x: Exchange, log: Log)
    ensures Reached(x, log).Rank() >= 1 <==> AuthSeen(x, log.Lines())
    ensures Reached(x, log).Rank() >= 2 <==> ConfSeen(x, log.Lines())
    ensures Reached(x, log).Rank() >= 3 <==> ConnSeen(x, log.Lines())
  {
    var _, _, _ := StageEvidence(x, log);
    if AuthSeen(x, log.Lines()) {
      var i :| AuthAt(x, log.Lines(), i);
      AuthCounts(x, log, i);
    }
    if ConfSeen(x, log.Lines()) {
      var i, j :| i < j && AuthAt(x, log.Lines(), i) && ConfAt(x, log.Lines(), j);
      ConfCounts(x, log, i, j);
    }
    if ConnSeen(x, log.Lines()) {
      var i, j, k :| i < j < k && AuthAt(x, log.Lines(), i) && ConfAt(x, log.Lines(), j) && ConnAt(log.Lines(), k);
      ConnCounts(x, log, i, j, k);
    }
  }

  // ------------------------------------------------------------- responses

  datatype Verdict = Unsaid | Ok | TimedOut | Failed | ErrorSent | RolesNotCompatible

  /** The comma separated result lists of the DPP commands, by key. */
  datatype Report = Report(
    bootstrap: Verdict, auth: Verdict, conf: Verdict, intro: Verdict, connect: Verdict,
    lastFrame: string := "", status: Option<int> := None, statusTimeout: bool := false, mudUrl: Option<string> := None)

  /** The `errorCode` texts, by what an error of that text is to be blamed on. */
  datatype Fault =
    | Unexplained
    | Refusal(command: RefusedCommand)  // a FAIL or no reply
    | Unanswered(query: UnansweredQuery)  // no reply
    | Mishap(call: FailedCall)  // anything else of the platform
    | Missing(names: Names)  // a wait in vain
    | WithoutArgument(e: Event)  // a line
    | Deviation(deviation: PeerDeviation)  // what the peer did
    | CsrNotProcessed
    | OwnQrCodeNotShown
    | ApListenNotStarted
    | Demand(demand: BadDemand)  // the parameters of the command

  datatype RefusedCommand =
    | MudUrlNotSet | ChannelNotUpdated | OwnMacUnknown | DiscoveryOverride | DppTestNotSet | SelfSigning
    | ConfiguratorParams | UriNotParsed | NfcTagUri | NfcHandoverSelect | NfcHandoverRequest | BootstrapInfo
    | AuthNotInitiated | PkexNotConfigured | ListenNotStarted | ReconfigurationNotStarted
    | ApSecurity | ApSsid | ApUtf8Ssid | PassphraseNotSet | PskNotSet | ApConnector | ApCsign | ApNetAccessKey
    | ApNetAccessKeyExpiry | ApConfiguration

  datatype UnansweredQuery = ConfiguratorNotSetUp | PkexNotSetUp | KeyMgmtUnknown

  datatype FailedCall =
    | HostapdNotStarted | NoRoomForCsrAttrs | UnsupportedTest | NfcScriptMissing | ForkFailed | NfcOperationFailed
    | NfcNotInTime | PeerQrCodeNotScanned

  datatype PeerDeviation = NoScanRequest | NoAuthDirection | PeerNotMutual | NoStatusResult

  datatype BadDemand =
    | MissingActionType | MissingBs | UnsupportedBs | UnsupportedActionType | MissingProvisioningRole
    | UnknownProvisioningRole | UnsupportedNetworkRole | InvalidStepCombination | MissingPkexCode
    | MissingBootstrappingData | Dot1xForAp | UnsupportedConfIndex | SelfConfigureOnlyConfigurator | MissingConfIndex
    | UnsupportedNfcTag | InvalidSubsequentChannel | UnsupportedSubsequentChannel | MissingPeerBootstrap
    | MissingOwnBootstrap | UnsupportedChirpChannel | UnsupportedListenChannel | UnknownAuthRole | MissingAuthRole
    | TimeoutInConfiguratorRole

  datatype Response =
    | Running
    | Invalid
    | Error(fault: Fault)
    | Complete(report: Report)
    | Bootstrapping(uri: string)
    | Done

  /** Everything the controller has been told, newest answer outermost. */
  datatype Answers = NoAnswer | Answer(before: Answers, last: Response)

  /** The furthest stage that a response says has succeeded. */
  function Claim(r: Response): Stage {
    if !r.Complete? then Nothing
    else if r.report.connect == Ok then Connected
    else if r.report.conf == Ok then Configured
    else if r.report.auth == Ok then Authenticated
    else Nothing
  }

  // ------------------------------------------------- the access point's SETs

  datatype ApField =
    | Wpa | WpaKeyMgmt | Ieee80211w | RsnPairwise | Ssid | Utf8Ssid | WpaPassphrase | WpaPsk
    | DppConnector | DppCsign | DppNetAccessKey | DppNetAccessKeyExpiry | StartDisabled

  /** The hostapd variables that DPP sets, as last SET successfully. */
  datatype ApConfig = ApConfig(
    wpa: Option<string>, wpaKeyMgmt: Option<string>, ieee80211w: Option<string>, rsnPairwise: Option<string>,
    ssid: Option<string>, utf8Ssid: Option<string>, wpaPassphrase: Option<string>, wpaPsk: Option<string>,
    dppConnector: Option<string>, dppCsign: Option<string>,
    dppNetAccessKey: Option<string>, dppNetAccessKeyExpiry: Option<string>, startDisabled: Option<string>)
  {
    function With(f: ApField, v: string): ApConfig {
      match f
      case Wpa => this.(wpa := Some(v))
      case WpaKeyMgmt => this.(wpaKeyMgmt := Some(v))
      case Ieee80211w => this.(ieee80211w := Some(v))
      case RsnPairwise => this.(rsnPairwise := Some(v))
      case Ssid => this.(ssid := Some(v))
      case Utf8Ssid => this.(utf8Ssid := Some(v))
      case WpaPassphrase => this.(wpaPassphrase := Some(v))
      case WpaPsk => this.(wpaPsk := Some(v))
      case DppConnector => this.(dppConnector := Some(v))
      case DppCsign => this.(dppCsign := Some(v))
      case DppNetAccessKey => this.(dppNetAccessKey := Some(v))
      case DppNetAccessKeyExpiry => this.(dppNetAccessKeyExpiry := Some(v))
      case StartDisabled => this.(startDisabled := Some(v))
    }
  }

  const UNSET := ApConfig(None, None, None, None, None, None, None, None, None, None, None, None, None)

  /** A control command: a SET of one hostapd variable, or any other request. */
  datatype Command = Set(field: ApField, value: string) | Request(verb: Verb)

  datatype Verb =
    | Disable | Enable | SetChannel | SetMudUrl | SetDiscoveryOverride | SetDppTest | SetConfiguratorParams
    | ConfiguratorSign | AuthInit | PkexAdd | Listen | ControllerStart | ControllerStop | StopListen | Chirp_
    | NfcHandoverReq | CaSet | Reconfig
    | ConfiguratorAdd | BootstrapGen | BootstrapGetUri | BootstrapInfo_ | QrCode | NfcUri | NfcHandoverSel
    | GetNetwork | Status

  /** The control commands that have been issued, newest outermost. */
  datatype Issued = NoneYet | Issue(before: Issued, last: Command)

  /** Reply to a control command: none, or a text that starts with FAIL or does not. */
  datatype Reply = NoReply | FailReply(text: string) | OkReply(text: string)

  /** How many replies and trials had been used up when an answer was given. */
  datatype Evidence = Evidence(replies: nat, trials: nat)

  /** One more answer was given, and it is an error. */
  ghost predicate FailedWith(before: Answers, now: Answers) {
    now.Answer? && now.before == before && now.last.Error?
  }

  /** `enum sigma_cmd_result` */
  datatype CmdResult = StatusSentError | ErrorSendStatus | InvalidSendStatus | StatusSent | SuccessSendStatus

  /** Results after which the caller must not answer any more. */
  predicate Answered(r: CmdResult) { r == StatusSent || r == StatusSentError }

  /**
   The device under test, as far as the DPP commands reach.
   `replies` and `trials` fix every answer of the outside world in advance, so one
   object stands for one arbitrary history of command failures.
   */
  class Dut {
    var defaultTimeout: nat
    var dppConfId: int
    var dppNetworkId: int
    var dppLocalBootstrap: int
    var dppPeerUri: Option<string>
    var apStartDisabled: bool
    var apOperChn: bool
    var apChannel: int
    const isAp: bool
    const hasHostapdIfname: bool
    const hostapdRunning: bool
    const hasDppConf: bool
    /** How many polls of a running dpp-nfc.py fit in before the deadline. */
    const nfcPolls: nat
    /** What the QR Code scanner reads. */
    const scannedUri: string

    var future: Future
    var replies: nat -> Reply
    var nextReply: nat
    var trials: nat -> bool
    var nextTrial: nat

    var sent: Answers
    var apConfig: ApConfig

    ghost var exchange: Exchange
    ghost var log: Log
    ghost var issued: Issued
    ghost var evidence: Evidence

    constructor (isAp: bool, hasHostapdIfname: bool, hostapdRunning: bool, hasDppConf: bool, nfcPolls: nat,
                 scannedUri: string, timeout: nat, future: Future, replies: nat -> Reply, trials: nat -> bool)
      ensures this.isAp == isAp && this.hasHostapdIfname == hasHostapdIfname
      ensures this.hostapdRunning == hostapdRunning && this.hasDppConf == hasDppConf && this.nfcPolls == nfcPolls
      ensures this.scannedUri == scannedUri
      ensures this.replies == replies && this.trials == trials && nextReply == 0 && nextTrial == 0
      ensures defaultTimeout == timeout && this.future == future && sent == NoAnswer && log == Opened
      ensures dppConfId == -1 && dppLocalBootstrap == -1 && dppPeerUri == None
    {
      this.isAp, this.hasHostapdIfname := isAp, hasHostapdIfname;
      this.hostapdRunning, this.hasDppConf, this.nfcPolls := hostapdRunning, hasDppConf, nfcPolls;
      this.scannedUri := scannedUri;
      this.replies, this.trials, nextReply, nextTrial := replies, trials, 0, 0;
      defaultTimeout, this.future, sent := timeout, future, NoAnswer;
      dppConfId, dppNetworkId, dppLocalBootstrap, dppPeerUri := -1, 0, -1, None;
      apStartDisabled, apOperChn, apChannel := false, false, 0;
      apConfig := UNSET;
      exchange, log, issued, evidence := Provisioning, Opened, NoneYet, Evidence(0, 0);
    }

    /** Another command begins: what the outside world will answer in the course of it. */
    method Begin(replies: nat -> Reply, trials: nat -> bool)
      modifies `replies, `trials, `nextReply, `nextTrial
      ensures this.replies == replies && this.trials == trials && nextReply == 0 && nextTrial == 0
    {
      this.replies, this.trials, nextReply, nextTrial := replies, trials, 0, 0;
    }

    /** `open_wpa_mon`: a new monitor connection has delivered nothing yet. */
    method OpenMonitor(ghost x: Exchange) returns (ok: bool)
      modifies `nextTrial, `exchange, `log
      ensures exchange == x && log == Opened
      ensures ok == trials(old(nextTrial)) && nextTrial == old(nextTrial) + 1
    {
      ok := Try();
      exchange, log := x, Opened;
    }

    /** `get_wpa_cli_events` */
    method GetEvents(names: Names) returns (got: Option<Line>)
      modifies `future, `log
      ensures Wait(got, future) == old(Await(future, names))
      ensures got.None? ==> log == Quiet(old(log), names)
      ensures got.Some? ==> log == Then(old(log), got.value) && Recognised(got.value, names) && future < old(future)
    {
      var w := Await(future, names);
      got, future := w.got, w.rest;
      log := if got.Some? then Then(log, got.value) else Quiet(log, names);
    }

    /** Waiting for events that complete no stage leaves the stage of a plain log alone. */
    method GetOther(names: Names) returns (got: Option<Line>)
      requires exchange.NoneMarks(names)
      modifies `future, `log
      ensures Wait(got, future) == old(Await(future, names))
      ensures got.None? ==> log == Quiet(old(log), names)
      ensures got.Some? ==> log == Then(old(log), got.value) && Recognised(got.value, names) && future < old(future)
      ensures Idle(exchange, old(log), log)
    {
      got := GetEvents(names);
      if got.Some? {
        PlainOtherKeepsGist(exchange, GistOf(exchange, old(log)), got.value, names);
      }
    }

    method SendResp(r: Response)
      modifies `sent, `evidence
      ensures sent == Answer(old(sent), r) && evidence == Evidence(nextReply, nextTrial)
    {
      sent, evidence := Answer(sent, r), Evidence(nextReply, nextTrial);
    }

    /** An error answer, which must have its cause. */
    method Fail(f: Fault)
      requires Caused(this, log, Evidence(nextReply, nextTrial), f)
      modifies `sent, `evidence
      ensures sent == Answer(old(sent), Error(f)) && FailedFor(this, old(sent))
    {
      SendResp(Error(f));
    }

    /** An error answer about the parameters of the command. */
    method Refuse(d: BadDemand)
      modifies `sent, `evidence
      ensures sent == Answer(old(sent), Error(Demand(d)))
    {
      SendResp(Error(Demand(d)));
    }

    /** A wait whose failure is answered. */
    method AwaitOrFail(names: Names) returns (got: Option<Line>)
      requires exchange.NoneMarks(names)
      modifies `future, `log, `sent, `evidence
      ensures Wait(got, future) == old(Await(future, names))
      ensures log == if got.None? then Quiet(old(log), names) else Then(old(log), got.value)
      ensures got.Some? ==> sent == old(sent) && Recognised(got.value, names) && future < old(future)
      ensures got.None? ==> FailedFor(this, old(sent))
      ensures Idle(exchange, old(log), log)
    {
      got := GetOther(names);
      if got.None? { Fail(Missing(names)); }
    }

    /** Anything else of the platform that can fail: fork, files, MAC address lookup, hostapd start. */
    method Try() returns (ok: bool)
      modifies `nextTrial
      ensures ok == trials(old(nextTrial)) && nextTrial == old(nextTrial) + 1
    {
      ok := trials(nextTrial);
      nextTrial := nextTrial + 1;
    }

    /** `wpa_command`: fails without a reply and on a reply that starts with FAIL. */
    method WpaCommand(c: Command) returns (ok: bool)
      modifies `nextReply, `apConfig, `issued
      ensures issued == Issue(old(issued), c)
      ensures ok == replies(old(nextReply)).OkReply? && nextReply == old(nextReply) + 1
      ensures apConfig == if ok && c.Set? then old(apConfig).With(c.field, c.value) else old(apConfig)
    {
      ok := replies(nextReply).OkReply?;
      nextReply, issued := nextReply + 1, Issue(issued, c);
      if ok && c.Set? {
        apConfig := apConfig.With(c.field, c.value);
      }
    }

    /** `wpa_command_resp`: fails only without a reply; the text is for the caller to judge. */
    method WpaCommandResp(verb: Verb) returns (r: Reply)
      modifies `nextReply, `issued
      ensures r == replies(old(nextReply)) && nextReply == old(nextReply) + 1
      ensures issued == Issue(old(issued), Request(verb))
    {
      r := replies(nextReply);
      nextReply, issued := nextReply + 1, Issue(issued, Request(verb));
    }
  }

  /** The last reply is no good one. */
  ghost predicate Refused(dut: Dut, ev: Evidence)
    reads dut`replies
  {
    ev.replies > 0 && !dut.replies(ev.replies - 1).OkReply?
  }

  /** The last call to anything else of the platform failed. */
  ghost predicate Mishappened(dut: Dut, ev: Evidence)
    reads dut`trials
  {
    ev.trials > 0 && !dut.trials(ev.trials - 1)
  }

  /** The fault has its cause in the last reply or trial, in the wait that just was in vain, or in the last line. */
  ghost predicate Caused(dut: Dut, log: Log, ev: Evidence, f: Fault)
    reads dut`replies, dut`trials
  {
    match f
    case Unexplained =>
      log.Then? && (Malformed(log.line) || (log.line.hasUrl && UrlIsLost(dut, log, ev)))
    case Refusal(_) => Refused(dut, ev)
    case Unanswered(_) => Refused(dut, ev) && dut.replies(ev.replies - 1).NoReply?
    case Mishap(_) => Mishappened(dut, ev)
    case Missing(names) => log.Quiet? && log.names == names
    case WithoutArgument(e) =>
      (e.ConfiguratorId? || e.NetworkId?) && log.Then? && Headed(log.line, e) && Argument(log.line.text).None?
    case Deviation(d) => log.Then? && Deviates(log.line, d)
    case CsrNotProcessed =>
      && log.Then? && Headed(log.line, Csr)
      && (LacksCsr(log.line) || Refused(dut, ev) || Mishappened(dut, ev))
    case OwnQrCodeNotShown => Refused(dut, ev) || Mishappened(dut, ev)
    case ApListenNotStarted => Refused(dut, ev) || (dut.isAp && !dut.hasHostapdIfname)
    case Demand(_) => false
  }

  /** A line with a URL whose argument is missing or finds no room. */
  ghost predicate UrlIsLost(dut: Dut, log: Log, ev: Evidence)
    reads dut`replies, dut`trials
  {
    log.Then? && (Argument(log.line.text).None? || Mishappened(dut, ev))
  }

  /** The line that should have been another one. */
  predicate Deviates(line: Line, d: PeerDeviation) {
    match d
    case NoScanRequest => Recognised(line, AuthEvents) && !Says(line, ScanPeerQrCode)
    case NoAuthDirection =>
      Recognised(line, AuthEvents) && !Says(line, AuthDirection) && !Says(line, NotCompatible)
    case PeerNotMutual =>
      Recognised(line, AuthEvents) && Says(line, AuthDirection) && !Contains(line.text, "mutual=1")
    case NoStatusResult => Headed(line, ConnStatusResult) && !Contains(line.text, "result=")
  }

  /** One more answer was given, an error that has its cause. */
  ghost predicate FailedFor(dut: Dut, before: Answers)
    reads dut`sent, dut`log, dut`evidence, dut`replies, dut`trials
  {
    FailedWith(before, dut.sent) && Caused(dut, dut.log, dut.evidence, dut.sent.last.fault)
  }

  /** A plain line recognised as something else completes no stage. */
  lemma PlainOtherKeepsGist(x: Exchange, g: Gist, line: Line, names: Names)
    requires Recognised(line, names) && x.NoneMarks(names)
    ensures Plain(line) ==> More(x, g, line) == g
  {
    var e :| names.Has(e) && Headed(line, e);
    NotAMark(x, names, e);
    if Plain(line) {
      forall m: Event | x.Marks(m) || m.MudUrl? ensures !Says(line, m) {
        assert Headed(line, e) && e != m;
      }
      assert !Says(line, MudUrl) && !x.CompletesConf(line);
    }
  }

  lemma NotAMark(x: Exchange, names: Names, e: Event)
    requires x.NoneMarks(names) && names.Has(e)
    ensures !x.Marks(e) && !e.MudUrl?
  {}

  lemma OnlyHeads(line: Line, e: Event)
    requires Recognised(line, Only(e))
    ensures Headed(line, e)
  {
    var h :| Only(e).Has(h) && Headed(line, h);
  }

  lemma PlainHasNoUrl(line: Line, names: Names)
    requires Recognised(line, names) && Plain(line) && !names.Has(MudUrl)
    ensures !line.hasUrl
  {
    assert line.hasUrl ==> Says(line, MudUrl);
  }

  /** A plain recognised line mentions one event, and that is one that was waited for. */
  lemma PlainSaysOne(line: Line, names: Names)
    requires Recognised(line, names) && Plain(line)
    ensures forall m: Event :: !m.Tx? && !m.TxStatus? && Says(line, m) ==> names.Has(m)
    ensures forall m: Event, m': Event ::
              !m.Tx? && !m.TxStatus? && Says(line, m) && !m'.Tx? && !m'.TxStatus? && Says(line, m') ==> m == m'
  {
    var e :| names.Has(e) && Headed(line, e);
  }

  /** Recognised by one of two names, a line that does not mention the first mentions the second. */
  lemma ConnOtherwise(line: Line)
    requires Recognised(line, ConnEvents) && !Says(line, PmksaCacheAdded)
    ensures Says(line, Connected_)
  {
    var e :| ConnEvents.Has(e) && Headed(line, e);
  }
}
