/** The parameters of a DPP command, as the driver's `get_param`/`strcasecmp` tests see them. */
module DppOrder {
  import opened CText

  datatype Param =
    | ActionType | DppBs | AuthRole | ProvisioningRole | PkexCode | WaitForConnect
    | SelfConfigure | Step | FrameType | OverTcp | NfcHandover | ConfEnrolleeRole | NetworkRole
    | Chirp | MudUrl | Timeout | StatusQuery | ConfIndex | NfcTag
    | AuthDirection | SubsequentChannel | ChirpChannel | DelayQrResponse | ListenChannel | BootstrappingData

  type Cmd = map<Param, string>

  /** `get_param(cmd, p) && strcasecmp(get_param(cmd, p), text) == 0` */
  predicate Is(cmd: Cmd, p: Param, text: string) {
    p in cmd && EqualsIgnoreCase(cmd[p], text)
  }

  datatype Action = NoAction | Reconfigure | GetLocalBootstrap | SetPeerBootstrap | Manual | Automatic | OtherAction

  function ReadAction(cmd: Cmd): Action {
    if ActionType !in cmd then NoAction
    else if Is(cmd, ActionType, "DPPReconfigure") then Reconfigure
    else if Is(cmd, ActionType, "GetLocalBootstrap") then GetLocalBootstrap
    else if Is(cmd, ActionType, "SetPeerBootstrap") then SetPeerBootstrap
    else if Is(cmd, ActionType, "ManualDPP") then Manual
    else if Is(cmd, ActionType, "AutomaticDPP") then Automatic
    else OtherAction
  }

  datatype Bootstrap = NoBs | Qr | Nfc | Pkex | OtherBs

  function ReadBs(cmd: Cmd): Bootstrap {
    if DppBs !in cmd then NoBs
    else if Is(cmd, DppBs, "QR") then Qr
    else if Is(cmd, DppBs, "NFC") then Nfc
    else if Is(cmd, DppBs, "PKEX") then Pkex
    else OtherBs
  }

  datatype Role = NoRole | Initiator | Responder | OtherRole

  function ReadAuthRole(cmd: Cmd): Role {
    if AuthRole !in cmd then NoRole
    else if Is(cmd, AuthRole, "Initiator") then Initiator
    else if Is(cmd, AuthRole, "Responder") then Responder
    else OtherRole
  }

  datatype Provisioning = NoProv | Configurator | Both | Enrollee | OtherProv

  function ReadProvisioning(cmd: Cmd): Provisioning {
    if ProvisioningRole !in cmd then NoProv
    else if Is(cmd, ProvisioningRole, "Configurator") then Configurator
    else if Is(cmd, ProvisioningRole, "Both") then Both
    else if Is(cmd, ProvisioningRole, "Enrollee") then Enrollee
    else OtherProv
  }

  datatype NetRole = NoNetRole | NetAp | NetSta | NetConfigurator | OtherNetRole

  function ReadNetRole(cmd: Cmd): NetRole {
    if NetworkRole !in cmd then NoNetRole
    else if Is(cmd, NetworkRole, "AP") then NetAp
    else if Is(cmd, NetworkRole, "STA") then NetSta
    else if Is(cmd, NetworkRole, "Configurator") then NetConfigurator
    else OtherNetRole
  }

  datatype Handover = NoHandover | Static | NegotiatedRequestor | NegotiatedSelector | OtherHandover

  function ReadHandover(cmd: Cmd): Handover {
    if NfcHandover !in cmd then NoHandover
    else if Is(cmd, NfcHandover, "Static") then Static
    else if Is(cmd, NfcHandover, "Negotiated_Requestor") then NegotiatedRequestor
    else if Is(cmd, NfcHandover, "Negotiated_Selector") then NegotiatedSelector
    else OtherHandover
  }

  datatype Frame =
    | NoFrame
    | PkexExchangeRequest | PkexExchangeResponse | PkexCrRequest | PkexCrResponse
    | AuthenticationRequest | AuthenticationResponse | AuthenticationConfirm
    | ConfigurationRequest | ConfigurationResponse
    | PeerDiscoveryRequest | PeerDiscoveryResponse
    | OtherFrame

  function ReadFrame(cmd: Cmd): Frame {
    if FrameType !in cmd then NoFrame
    else if Is(cmd, FrameType, "PKEXExchangeRequest") then PkexExchangeRequest
    else if Is(cmd, FrameType, "PKEXExchangeResponse") then PkexExchangeResponse
    else if Is(cmd, FrameType, "PKEXCRRequest") then PkexCrRequest
    else if Is(cmd, FrameType, "PKEXCRResponse") then PkexCrResponse
    else if Is(cmd, FrameType, "AuthenticationRequest") then AuthenticationRequest
    else if Is(cmd, FrameType, "AuthenticationResponse") then AuthenticationResponse
    else if Is(cmd, FrameType, "AuthenticationConfirm") then AuthenticationConfirm
    else if Is(cmd, FrameType, "ConfigurationRequest") then ConfigurationRequest
    else if Is(cmd, FrameType, "ConfigurationResponse") then ConfigurationResponse
    else if Is(cmd, FrameType, "PeerDiscoveryRequest") then PeerDiscoveryRequest
    else if Is(cmd, FrameType, "PeerDiscoveryResponse") then PeerDiscoveryResponse
    else OtherFrame
  }

  datatype TestStep = NoStep | TimeoutStep | OtherStep

  function ReadStep(cmd: Cmd): TestStep {
    if Step !in cmd then NoStep else if Is(cmd, Step, "Timeout") then TimeoutStep else OtherStep
  }

  datatype Tag = NoTag | ReadTag | WriteTag | OtherTag

  function ReadTagUse(cmd: Cmd): Tag {
    if NfcTag !in cmd then NoTag
    else if Is(cmd, NfcTag, "Read") then ReadTag
    else if Is(cmd, NfcTag, "Write-HS") || Is(cmd, NfcTag, "Write-URI") then WriteTag
    else OtherTag
  }

  /** `get_enable_disable(val) != 0` */
  predicate Enables(val: string) {
    || EqualsIgnoreCase(val, "enable") || EqualsIgnoreCase(val, "enabled")
    || EqualsIgnoreCase(val, "on") || EqualsIgnoreCase(val, "yes")
    || Atoi(val) != 0
  }

  /** `channel_to_freq` knows the channel (outside the 60 GHz programs). */
  predicate HasFrequency(channel: int) {
    1 <= channel <= 14 || 36 <= channel <= 165
  }

  /** A DPPTimeout that is obeyed: `atoi` of it is positive. */
  function RequestedTimeout(cmd: Cmd): Option<nat> {
    if Timeout in cmd && Atoi(cmd[Timeout]) > 0 then Some(Atoi(cmd[Timeout])) else None
  }

  /** A provisioning command, read once. */
  datatype Order = Order(
    manual: bool, bs: Bootstrap, authRole: Role, prov: Provisioning, netrole: NetRole, handover: Handover,
    frame: Frame, step: TestStep, tag: Tag, selfConf: bool, waitConn: bool, tcp: bool,
    chirp: bool, mutual: bool, delayQrResponse: bool, connStatus: bool, mudUrlGiven: bool, pkexCodeGiven: bool,
    enrolleeAp: bool, enrolleeConfigurator: bool, confIndex: int, timeout: Option<nat>,
    subsequentChannel: Option<string>, chirpChannel: Option<string>, listenChannel: Option<string>)
  {
    predicate IsConfigurator() { prov.Configurator? || prov.Both? }

    predicate Requests() {
      handover.NegotiatedRequestor? || ((handover.NoHandover? || handover.Static?) && authRole.Initiator?)
    }

    predicate Selects() {
      handover.NegotiatedSelector? || ((handover.NoHandover? || handover.Static?) && authRole.Responder?)
    }
  }

  function Get(cmd: Cmd, p: Param): Option<string> {
    if p in cmd then Some(cmd[p]) else None
  }

  function ReadOrder(cmd: Cmd, isAp: bool): Order {
    var enrolleeConfigurator := Is(cmd, ConfEnrolleeRole, "Configurator");
    Order(
      manual := ReadAction(cmd).Manual?,
      bs := ReadBs(cmd), authRole := ReadAuthRole(cmd), prov := ReadProvisioning(cmd), netrole := ReadNetRole(cmd),
      handover := ReadHandover(cmd), frame := ReadFrame(cmd), step := ReadStep(cmd), tag := ReadTagUse(cmd),
      selfConf := Is(cmd, SelfConfigure, "Yes"), waitConn := Is(cmd, WaitForConnect, "Yes"),
      tcp := Is(cmd, OverTcp, "yes"),
      chirp := Chirp in cmd && Enables(cmd[Chirp]),
      mutual := Is(cmd, AuthDirection, "Mutual"), delayQrResponse := DelayQrResponse in cmd,
      connStatus := Is(cmd, StatusQuery, "Yes"), mudUrlGiven := MudUrl in cmd, pkexCodeGiven := PkexCode in cmd,
      enrolleeAp := if ConfEnrolleeRole in cmd then Is(cmd, ConfEnrolleeRole, "AP") else isAp,
      enrolleeConfigurator := enrolleeConfigurator,
      confIndex := if !enrolleeConfigurator && ConfIndex in cmd then Atoi(cmd[ConfIndex]) else -1,
      timeout := RequestedTimeout(cmd),
      subsequentChannel := Get(cmd, SubsequentChannel), chirpChannel := Get(cmd, ChirpChannel),
      listenChannel := Get(cmd, ListenChannel))
  }

  /** The value of a parameter is this word, whatever its case. */
  predicate Reads(cmd: Cmd, p: Param, word: string) {
    p in cmd && |cmd[p]| == |word| && forall i :: 0 <= i < |word| ==> Lower(cmd[p][i]) == Lower(word[i])
  }

  /** Each role and each kind of bootstrapping is read from just one word. */
  lemma RolesByWord(cmd: Cmd)
    ensures ReadAuthRole(cmd).Initiator? <==> Reads(cmd, AuthRole, "Initiator")
    ensures ReadAuthRole(cmd).Responder? <==> Reads(cmd, AuthRole, "Responder")
    ensures ReadProvisioning(cmd).Configurator? <==> Reads(cmd, ProvisioningRole, "Configurator")
    ensures ReadProvisioning(cmd).Both? <==> Reads(cmd, ProvisioningRole, "Both")
    ensures ReadProvisioning(cmd).Enrollee? <==> Reads(cmd, ProvisioningRole, "Enrollee")
    ensures ReadBs(cmd).Qr? <==> Reads(cmd, DppBs, "QR")
    ensures ReadBs(cmd).Nfc? <==> Reads(cmd, DppBs, "NFC")
    ensures ReadBs(cmd).Pkex? <==> Reads(cmd, DppBs, "PKEX")
  {
    if Is(cmd, AuthRole, "Initiator") {
      assert Lower(cmd[AuthRole][0]) == Lower("Initiator"[0]) != Lower("Responder"[0]);
    }
  }

  /** So is every flag of an order. */
  lemma FlagsByWord(cmd: Cmd, isAp: bool)
    ensures var o := ReadOrder(cmd, isAp);
            && (o.waitConn <==> Reads(cmd, WaitForConnect, "Yes"))
            && (o.selfConf <==> Reads(cmd, SelfConfigure, "Yes"))
            && (o.connStatus <==> Reads(cmd, StatusQuery, "Yes"))
            && (o.mutual <==> Reads(cmd, AuthDirection, "Mutual"))
            && (o.tcp <==> Reads(cmd, OverTcp, "yes"))
            && (o.enrolleeAp <==> if ConfEnrolleeRole in cmd then Reads(cmd, ConfEnrolleeRole, "AP") else isAp)
  {}

  /** And a timeout is what is printed, if it is not zero. */
  lemma PrintedTimeout(cmd: Cmd, n: nat)
    requires Timeout in cmd && cmd[Timeout] == Decimal(n)
    ensures RequestedTimeout(cmd) == if n > 0 then Some(n) else None
  {
    AtoiReadsDecimal(n, "", ' ');
    assert Decimal(n) + "" == Decimal(n);
  }
}
