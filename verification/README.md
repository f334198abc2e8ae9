# Sigma DUT: proofs about its protocol driver, tables and codecs

The project models seven parts of the control daemon for Wi-Fi test devices in `wlan-opensource/sigma-dut`
and proves what they keep over every input, every run and every failure of the programs they drive.

* **DPP commands** (`DppLines`, `DppMonitor`, `DppOrder`, `DppConfObject`, `DppHostapdUpdate`, `DppAutomatic`,
  `DppStart`, `DppCommands`, `DppResults`). The driver talks to wpa_supplicant and hostapd. What it sees of them is an
  arbitrary finite future of event lines and silent waits, an arbitrary reply to every control command and an arbitrary
  outcome of every other platform call; the device object holds the shared state and everything that the controller has
  been told. The main results are on `DppCommands.DevExecAction`: exactly one answer when the result says so; a report
  claims no stage that the delivered events do not vouch for, and it ends with the stage that was asked for or says what
  did not come about; an error has its cause in the order, in the reply or call just used up, in the wait just in vain
  or in the last line; where everything works, success is reported as success; and the exact case in which the command's
  timeout outlives the command (a manual QR Code command without a role). A timeout is only claimed on a silent wait for
  just the events that would have been the success, a failed transmission, a failed initiation or an event other than
  the connection that was waited for, and a network introduction only behind a PMKSA event after configuration.
  A line is *plain* if the event it starts with is the only one it mentions; on such lines a report claims every
  stage that was reached, on others it never claims more. The events of the AP update are those of the same log.
* **P2P groups** (`P2pDiscovery`, `P2pGroups`). What the supplicant says about its interfaces, read without splitting
  it, against the loops that split it. Heap nodes with links, a ghost sequence for the list and one for what has been
  freed, refined by a state on values; another ghost sequence holds the operations, whose run the list is.
* **NAN codecs** (`NanTlv`, `NanFilter`, `HexText`). Writers into buffers against encodings on values, and readers that
  invert them.
* **AP tables, elements and channels** (`MboTable`, `ConfigEditor`, `Anqp`, `ChannelPlan`).
* **Radio measurement bits** (`RmBits`), **DHCP options** (`Dhcp`) and the **Notice of Absence check** (`NoaCheck`).

`CText`, `Bytes`, `Buffers` and `Division` hold the C string routines, octets, buffer writes and arithmetic that these
share. Constants that come from headers have the values found there: ten neighbours, 128 characters of a group id
(`sigma_dut.h`). In the table, the rows that say so hold the main results; the others lead up to them.

Where the code does not do what its surroundings suggest, the model follows the code, and a lemma gives the exact
condition:

* a manual QR Code command without DPPAuthRole leaves the requested timeout behind (`dpp.c:2714-2718`);
* a P2P group taken over under an id that is too long for the id field is not removed when it is dissolved, and
  dissolving one of several groups in a role clears their flag;
* the length field of the domain name element counts hex digits instead of octets; the element is also written
  without a line end, which is not modelled;
* with ten network codes the scan of their tables goes on behind the tables;
* a match filter token of more than 255 octets is not read back, and a filter text that is as long as the buffer or
  longer can be written past its end;
* 160 MHz blocks of channels 132 to 144 overlap those of 149 to 165;
* a DHCP netmask or router of more than four octets does not fit the address that it is copied to;
* the neighbour table refuses commands for access points that it already lists once it is full;
* the configuration editor loses an appended line when the last line of the file has no newline, can change the value
  of another field with it, and changes the file again on the second edit unless that last line has exactly 155
  characters; nor is it idempotent for a new line of 156 characters;
* the operating class in the AP configuration is that of the primary channel;
* the radio measurement command is answered twice when disabling the report fails;
* the Notice of Absence test misses frames when an absence lasts longer than the interval plus its slack.

## Model

| member | source | states |
|---|---|---|
| CText.ArgumentIsBehindFirstBlank | wlan-opensource/sigma-dut/dpp.c:286-289 | The argument of an event line is all that is behind its first blank, and there is none without a blank. |
| CText.AtoiReadsDecimal | wlan-opensource/sigma-dut/dpp.c:2488-2509 | A printed number is read back, with a sign or white space in front, up to the first other character. |
| CText.ParsesHexString | wlan-opensource/sigma-dut/utils.c:206-231 | Characters printed as pairs of digits are parsed back, as many as there is room for. |
| CText.FindIsContains | wlan-opensource/sigma-dut/dpp.c:2494-2496 | A search for a text finds its first place, and none exactly if it is not contained. |
| DppLines.Read | wlan-opensource/sigma-dut/wpa_helpers.c:295-302 | Every line text has exactly the events it starts with behind the first `>` (how the monitor recognises it) and the events it mentions (`strstr`); what it starts with it also mentions. |
| DppMonitor.Await | wlan-opensource/sigma-dut/wpa_helpers.c:238-338 | What is handed over is a line that is recognised as one of the names, with what comes behind it still to come. |
| DppMonitor.AwaitDropsOthers | wlan-opensource/sigma-dut/wpa_helpers.c:269-313 | The lines that are dropped on the way are just those in front, none of them recognised; a wait is given up on a timeout or at the end, with all lines in front of that dropped. |
| DppMonitor.Dut.GetEvents | wlan-opensource/sigma-dut/wpa_helpers.c:238-338 | One wait consumes what `Await` says and the log records it, the line or the silence. |
| DppMonitor.Dut.GetOther | wlan-opensource/sigma-dut/wpa_helpers.c:238-338 | A wait for names that end no stage leaves the stage of a log of plain lines as it was, and the URL and the line that ended the configuration. |
| DppMonitor.StageEvidence | wlan-opensource/sigma-dut/dpp.c:2371-2660 | A reached stage has its completing events in the log, authentication before configuration before connection. |
| DppMonitor.ReachedIsOrder | wlan-opensource/sigma-dut/dpp.c:2371-2660 | **Main result.** Each stage is reached exactly if its events stand in the delivered lines in stage order. |
| DppMonitor.Dut.SendResp | wlan-opensource/sigma-dut/sigma_dut.c:281-338 | One answer is added to what the controller has been told. |
| DppMonitor.Dut.Fail | wlan-opensource/sigma-dut/sigma_dut.c:281-338 | An error is only answered with its cause at hand: the last reply or other call was no good one, the last wait was in vain for just these names, or the last line lacks what the error says. |
| DppMonitor.Dut.WpaCommand | wlan-opensource/sigma-dut/wpa_helpers.c:115-147 | A command succeeds exactly on a reply that is no FAIL; only a successful SET changes the configuration. |
| DppConfObject.KeepsFirst | wlan-opensource/sigma-dut/dpp.c:321-388 | Over every event order the loop keeps the argument of the first connector, C-sign key, access key and PSK line; a line that mentions several of these is of the first kind that is looked for. |
| DppConfObject.KeepsLastPass | wlan-opensource/sigma-dut/dpp.c:321-388 | Over every event order the loop keeps the passphrase of the last passphrase line. |
| DppConfObject.CollectedIsCarried | wlan-opensource/sigma-dut/dpp.c:340-387 | **Main result.** On plain lines each item is what the first line that starts with its own event carries, and the passphrase what the last such line carries, decoded. |
| DppConfObject.SufficesIsAll | wlan-opensource/sigma-dut/dpp.c:331-332 | **Main result.** The loop is content exactly when the lines hold everything that "dpp", "psk" and "sae" in the AKM list call for. |
| DppConfObject.UpdateIsTakenOver | wlan-opensource/sigma-dut/dpp.c:390-463 | **Main result.** The configuration holds, variable by variable, the SSID, the key management that "dpp", "psk" and "sae" in the AKM list ask for, and what the first connector, C-sign key and access key line and the last passphrase line (or first PSK line) carry. |
| DppHostapdUpdate.CollectConfObject | wlan-opensource/sigma-dut/dpp.c:321-388 | The loop ends well only with every item that the AKM list requires, answers itself (0) exactly on a wait in vain for data lines, and does not answer on a malformed line (-2). |
| DppHostapdUpdate.SetSecurityDefaults | wlan-opensource/sigma-dut/dpp.c:271-278 | The four SETs in front of the events; a failure is answered once. |
| DppHostapdUpdate.ApplyConfObject | wlan-opensource/sigma-dut/dpp.c:390-463 | The configuration afterwards holds what the object says; wpa_key_mgmt is a function of the AKM list alone. |
| DppHostapdUpdate.ApplyCredentials | wlan-opensource/sigma-dut/dpp.c:404-419 | A passphrase takes precedence over a PSK; nothing but these two variables changes. |
| DppHostapdUpdate.ApplyKeys | wlan-opensource/sigma-dut/dpp.c:421-463 | Connector, C-sign key and access key are set, the access key split at the blank in front of its expiry. |
| DppHostapdUpdate.RestartInterface | wlan-opensource/sigma-dut/dpp.c:465-501 | The timeout is the same afterwards; not ok means answered once; start_disabled is cleared. |
| DppHostapdUpdate.HostapdConfUpdate | wlan-opensource/sigma-dut/dpp.c:246-508 | **Main result.** The whole update: result 0 means answered once with an error that has its cause, -2 a malformed last line, 1 success; success means that the delivered lines contain the AKM list, the SSID and all data the list requires, and that the configuration is what they say, line by line. |
| DppAutomatic.WaitTx | wlan-opensource/sigma-dut/dpp.c:631-647 | True exactly if a transmit event with the tag comes before a wait gives up: the last line delivered carries it, and no line delivered by the wait before does. |
| DppAutomatic.WaitTxStatus | wlan-opensource/sigma-dut/dpp.c:650-671 | True exactly if such an event comes and the transmit status line behind it is not that of a failure. |
| DppAutomatic.WaitRx | wlan-opensource/sigma-dut/dpp.c:674-698 | True exactly if a receive event with the tag comes, which is then the last line and the first with the tag; the timeout is restored on every path. |
| DppAutomatic.WaitRxConfReq | wlan-opensource/sigma-dut/dpp.c:701-725 | True exactly if a configuration request comes; the timeout is restored on every path. |
| DppAutomatic.ProcessAuthResponse | wlan-opensource/sigma-dut/dpp.c:924-990 | The whole response as a function of the events to come: which answer is sent, or which line passes on; ok means not answered, and the last line decides between authenticated and not. |
| DppAutomatic.PkexFrames | wlan-opensource/sigma-dut/dpp.c:2283-2335 | A PKEX frame test reports that the frame was sent exactly if it went out; a plain PKEX exchange ends here exactly if the frame of its role did not go by. |
| DppAutomatic.AuthFrames | wlan-opensource/sigma-dut/dpp.c:2337-2369 | Authentication frame tests report whether the frame was sent and the frame that the peer answered with; other exchanges are left alone. |
| DppAutomatic.TimeoutTest | wlan-opensource/sigma-dut/dpp.c:2202-2281 | A DPPStep,Timeout test answers once and reports an error exactly if the frame came that should not, and an unexpected state for the frames that have no such test. |
| DppAutomatic.TestTags | wlan-opensource/sigma-dut/dpp.c:2202-2328 | The frame type numbers by which each test knows its frame. |
| DppAutomatic.AuthConfirmTimeoutTest | wlan-opensource/sigma-dut/dpp.c:2240-2269 | The exact report of the confirm frame test by role, with what a mutual authentication answers first. |
| DppAutomatic.AuthPhase | wlan-opensource/sigma-dut/dpp.c:2371-2437 | Either exactly one answer, early and truthful or with its cause, or authenticated and not answered; without a test which of them, as a function of the events to come. |
| DppAutomatic.ConfPhase | wlan-opensource/sigma-dut/dpp.c:2439-2486 | Either exactly one answer, early and truthful or with its cause, or configured and not answered, as a function of the events to come; a MUD URL is that of the line in front of the last one, and without one no line has come between. |
| DppAutomatic.HandleCsr | wlan-opensource/sigma-dut/dpp.c:2439-2454 | Waiting for a CSR and processing it ends no stage and answers exactly on failure. |
| DppAutomatic.StatusIsPrinted | wlan-opensource/sigma-dut/dpp.c:2488-2509 | The reported status is the number printed behind the first "result=" of the line. |
| DppAutomatic.ReportConnStatus | wlan-opensource/sigma-dut/dpp.c:2488-2509 | The exact answer: the number in the first status line with the MUD URL that was heard, a status timeout for silence, an error for a line without a number. |
| DppStart.Prepare | wlan-opensource/sigma-dut/dpp.c:1127-1290 | A refused command is answered once, with an error that has its cause in the order or in what has just failed, or is left to the caller; an accepted one is not answered, starts with nothing delivered and has issued exactly the commands for MUD URL, Configurator and PKEX that it needs. |
| DppStart.SelectProfile | wlan-opensource/sigma-dut/dpp.c:1300-1494 | DPPConfIndex 1 to 11 select a profile, of which only 11 for a station has a CSR and only 7 forces GAS; everything else is answered once. |
| DppStart.ApplyTestSettings | wlan-opensource/sigma-dut/dpp.c:1500-1534 | Not ok means answered once; ok means that just the discovery override, if forced, and the test setting were issued. |
| DppStart.SelfConfiguration | wlan-opensource/sigma-dut/dpp.c:1536-1558 | Signs its own configuration and goes on with the update of an AP or the connection of a station, or has answered once. |
| DppStart.NfcOperation | wlan-opensource/sigma-dut/dpp.c:1559-1742 | The timeout is restored although the polling loop uses the same variable to save it. |
| DppStart.PollNfc | wlan-opensource/sigma-dut/dpp.c:1701-1742 | Every poll restores the timeout; the loop ends with an answer, on a frame event, or with a script that has ended well. |
| DppStart.Initiate | wlan-opensource/sigma-dut/dpp.c:1743-1956 | Not ok means one error, with its cause in the order or in a refused command; ok means that the command of its kind was issued last. |
| DppStart.PrintedChannel | wlan-opensource/sigma-dut/dpp.c:1756-1780 | A printed class and channel are accepted exactly if the class is not zero and the channel is 1 to 14 or 36 to 165. |
| DppStart.StartListening | wlan-opensource/sigma-dut/dpp.c:1957-2150 | The same for a responder; with PKEX the code was added just before. |
| DppStart.AwaitScanRequest | wlan-opensource/sigma-dut/dpp.c:2151-2195 | Either one truthful answer or nothing answered and no stage claimed. |
| DppStart.StartExchange | wlan-opensource/sigma-dut/dpp.c:1536-2195 | The exchange is started with the command of the role that the order asks for; whatever is not started has been answered once, with its cause or a report of what did not come about; mutual authentication is checked exactly for an initiator that asks for it. |
| DppCommands.ReportConnection | wlan-opensource/sigma-dut/dpp.c:2583-2620 | The exact report for the connection events to come: network introduction exactly behind a PMKSA line and with a DPP AKM, connected exactly on the connection event, a timeout otherwise; truthful after configuration. |
| DppCommands.Finish | wlan-opensource/sigma-dut/dpp.c:2540-2659 | One answer, truthful if the exchange was: the connection or what did not come about where a station waits for one, and otherwise just the success with the MUD URL that was heard; the timeout is the same afterwards. |
| DppCommands.StoreNetworkId | wlan-opensource/sigma-dut/dpp.c:2621-2645 | The three-second wait restores the timeout and ends no stage; a new network id is the one that the event carries. |
| DppCommands.AfterConfiguration | wlan-opensource/sigma-dut/dpp.c:2511-2538 | The step between configuration and connection ends no stage and ends the command exactly with one error; a Configurator keeps the id that its event carries. |
| DppCommands.WaitConnect | wlan-opensource/sigma-dut/dpp.c:2572-2620 | One answer, truthful if the exchange was. |
| DppCommands.ApUpdate | wlan-opensource/sigma-dut/dpp.c:2530-2537 | An AP update that ends the command has answered exactly once, also on the result that the update leaves to its caller. |
| DppCommands.RunExchange | wlan-opensource/sigma-dut/dpp.c:2202-2659 | Every exchange, with every event stream and every command failure, gives exactly one answer; without a DPPStep it is a truthful report that concludes what was asked for, or an error with its cause. |
| DppCommands.RunAuthenticated | wlan-opensource/sigma-dut/dpp.c:2439-2659 | From the configuration on: a success is reported as such, with the stage that the order asks for and the status or MUD URL that was heard. |
| DppCommands.RunOpened | wlan-opensource/sigma-dut/dpp.c:1292-2660 | The same for the whole command between opening and closing the monitor. |
| DppCommands.AutomaticDpp | wlan-opensource/sigma-dut/dpp.c:1059-2673 | **Main result.** STATUS_SENT and STATUS_SENT_ERROR mean exactly one answer, other results none and something that has just failed. Without DPPStep and self-configuration a report claims just the stage that the events vouch for: the one asked for, or with a verdict on what did not come about; an error has its cause; where everything works the answer to an order about the configuration is a given function of the events to come. |
| DppCommands.GetLocalBootstrap | wlan-opensource/sigma-dut/dpp.c:86-217 | Succeeds exactly if all its steps work, and then the bootstrap id is the number in the reply to its command, and with send_result 1 the answer is the URI of the reply behind it; with send_result 0 success means not answered; failure means one error with its cause or is left to the caller. |
| DppCommands.PeerUriOfPrinted | wlan-opensource/sigma-dut/dpp.c:220-243 | The data that a device has printed of its URI, octet by octet, gives that URI to another. |
| DppCommands.SetPeerBootstrap | wlan-opensource/sigma-dut/dpp.c:220-243 | Succeeds exactly if the data decodes and fits, and then keeps the URI up to its first NUL; otherwise the old one stays; answered exactly if it says so. |
| DppCommands.ManualDpp | wlan-opensource/sigma-dut/dpp.c:2676-2751 | **Main result.** The exact value of the timeout afterwards: that of the command if it gives one, names no role and its bootstrapping works (or no DPPBS is given), the old one otherwise; the answer is as for an automatic command. |
| DppCommands.ReconfigureConfigurator | wlan-opensource/sigma-dut/dpp.c:2754-3105 | Exactly one answer for the results that say so: a truthful report that concludes the command, or an error with its cause. |
| DppCommands.ReconfigureEnrollee | wlan-opensource/sigma-dut/dpp.c:3108-3253 | The same for the Enrollee. |
| DppCommands.DevExecAction | wlan-opensource/sigma-dut/dpp.c:3256-3290 | **Main result.** For every command, event stream and command failure: exactly one answer when the result says so and none otherwise; for ordinary commands a truthful report that concludes what was asked for or an error that has its cause; the timeout is kept except in exactly one case. |
| DppCommands.ProcessCmd | wlan-opensource/sigma-dut/sigma_dut.c:487-504 | **Main result.** A DPP command is answered with RUNNING and then exactly one result. |
| DppOrder.RolesByWord | wlan-opensource/sigma-dut/dpp.c:1059-1235 | Every role and every kind of bootstrapping is read from just one word, in any case. |
| DppOrder.FlagsByWord | wlan-opensource/sigma-dut/dpp.c:1059-1309 | So is every flag of an order, from its own parameter. |
| DppOrder.PrintedTimeout | wlan-opensource/sigma-dut/dpp.c:1293-1295 | A printed timeout is obeyed exactly if it is not zero. |
| DppResults.SuccessIsReported | wlan-opensource/sigma-dut/dpp.c:2371-2659 | **Main result.** Whatever else the monitor says in front, between and behind: authentication success and then a sent or received configuration are answered with a success of both. |
| DppResults.UrlIsReported | wlan-opensource/sigma-dut/dpp.c:2457-2480 | **Main result.** With a MUD URL line in between, the answer carries what is behind the blank of that line. |
| DppResults.DenialIsReported | wlan-opensource/sigma-dut/dpp.c:932-989 | Incompatible roles, a failed initiation and any other event are answered with their own verdict. |
| DppResults.SilenceIsReported | wlan-opensource/sigma-dut/dpp.c:932-937 | Silence before authentication is answered with a timeout of the authentication. |
| DppResults.FailureIsReported | wlan-opensource/sigma-dut/dpp.c:2471-2486 | A failed configuration is answered as failed. |
| DppResults.NoConfigurationIsReported | wlan-opensource/sigma-dut/dpp.c:2471-2475 | Silence behind authentication is answered with a timeout of the configuration. |
| DppResults.ErrorsHaveTheirCause | wlan-opensource/sigma-dut/dpp.c:1127-2659 | **Main result.** Where everything works, nothing is wrong with the order and the last line is well formed, an ordinary order is answered with a report, unless a line that it needs does not come in time or the peer does not go along with mutual authentication. |
| DppResults.OnTheWire | wlan-opensource/sigma-dut/wpa_helpers.c:295-302 | A line says what is anywhere in its text, and starts with what stands behind its level. |
| DppResults.ProvisioningGoesWell | wlan-opensource/sigma-dut/dpp.c:1127-1160 | A concrete command (automatic, QR Code, Initiator, Configurator, DPPConfIndex 1) that meets all conditions on every device on which everything works and the peer is known. |
| DppResults.ExecProvisioningCmd | wlan-opensource/sigma-dut/dpp.c:1059-2673 | **Main result.** Executing it, with a success of both to come, is answered with "BootstrapResult,OK,AuthResult,OK,ConfResult,OK". |
| DppResults.ForgetfulCmdForgets | wlan-opensource/sigma-dut/dpp.c:2714-2718 | A concrete command (manual, QR Code, timeout 7, no role) that leaves its timeout behind on every station on which its steps work. |
| DppResults.ExecForgetful | wlan-opensource/sigma-dut/dpp.c:2714-2718 | Executing it replaces any other timeout by 7. |
| DppResults.TruthfulReports | wlan-opensource/sigma-dut/dpp.c:2371-2660 | **Main result.** A truthful report of a stage rests on the events of all stages up to it, in order; on plain lines it reports every stage that was reached. |
| P2pDiscovery.CurrentIsNamed | wlan-opensource/sigma-dut/p2p.c:447-465 | The word loop says yes only where one stretch without a blank mentions both the SSID and "[CURRENT]". |
| P2pDiscovery.NamedIsCurrent | wlan-opensource/sigma-dut/p2p.c:447-465 | And wherever there is one. |
| P2pDiscovery.InterfacesOnLines | wlan-opensource/sigma-dut/p2p.c:427-473 | The interfaces that are asked are those on the lines of the reply, all of them and in their order. |
| P2pDiscovery.SelectedIsFirst | wlan-opensource/sigma-dut/p2p.c:427-473 | **Main result.** The one that is taken stands on the first line that names an interface whose status contains the SSID or whose list has it as current; without such a line there is none. |
| P2pDiscovery.DiscoveredIsTakenOver | wlan-opensource/sigma-dut/p2p.c:405-471 | The group has the role that "P2P GO" in the status says, the name of that interface, and as SSID the text behind the first blank of the id, all cut to their fields. |
| P2pDiscovery.NothingIsMissed | wlan-opensource/sigma-dut/p2p.c:405-475 | Nothing is taken over exactly when no line of the reply fits, or the id has no blank among its first fifty characters. |
| P2pGroups.RunBacked | wlan-opensource/sigma-dut/p2p.c:346-475 | **Main result.** Over every sequence of add, lookup, dissolve and reset a role flag is only set while a group in that role is listed. |
| P2pGroups.DissolveKeepsMatch | wlan-opensource/sigma-dut/p2p.c:1422-1454 | **Main result.** Where the role flags match the listed groups, they match after a dissolve exactly if no other group was listed in the role of the found one and, for a group still to be discovered, its id fits. |
| P2pGroups.RunMatches | wlan-opensource/sigma-dut/p2p.c:346-475 | **Main result.** Over every run the flags match after every operation exactly if every dissolve met that condition when it happened. |
| P2pGroups.FlagCanBeMissing | wlan-opensource/sigma-dut/p2p.c:1447-1451 | A run on which they do not: with two groups in one role, dissolving one clears the flag of the other. |
| P2pGroups.FoundIsRemoved | wlan-opensource/sigma-dut/p2p.c:1434-1452 | The group that is removed by id is the one that the lookup returned. |
| P2pGroups.DissolveRemovesFound | wlan-opensource/sigma-dut/p2p.c:1422-1454 | **Main result.** Dissolving removes exactly the found group and keeps the order of the others, if and only if it was listed already or its id fits the id field. |
| P2pGroups.Device.GroupAdd | wlan-opensource/sigma-dut/p2p.c:346-368 | A new node in front of the list, with its names cut to their fields, and the flag of its role. |
| P2pGroups.Device.Locate | wlan-opensource/sigma-dut/p2p.c:371-391 | Walking the links finds the first node with the id, and its predecessor. |
| P2pGroups.Device.GroupRemove | wlan-opensource/sigma-dut/p2p.c:371-390 | Unlinks and frees exactly the first node with the id; all others stay linked in order and unfreed. |
| P2pGroups.Device.ScanNetworks | wlan-opensource/sigma-dut/p2p.c:447-465 | True exactly if one word names the SSID as the current network. |
| P2pGroups.Device.SelectInterface | wlan-opensource/sigma-dut/p2p.c:427-473 | The first interface, of the lines of the reply, whose status or network list fits. |
| P2pGroups.Device.GroupGet | wlan-opensource/sigma-dut/p2p.c:393-476 | **Main result.** Returns the listed group, or takes over the group of the first interface of the reply that runs the network in the id, with the role, name and SSID that the texts say and the flag of its role, or nothing where no interface does; refines the lookup on values. |
| P2pGroups.Device.CmdDissolve | wlan-opensource/sigma-dut/p2p.c:1422-1454 | **Main result.** Refines dissolving on values, with its three results, and adds one operation to the run that the list stands for. |
| P2pGroups.Device.RemoveHead | wlan-opensource/sigma-dut/p2p.c:1821-1830 | Removing by the id of the head removes the head itself, whatever ids follow. |
| P2pGroups.Device.CmdReset | wlan-opensource/sigma-dut/p2p.c:1817-1830 | **Main result.** Frees every node exactly once, in list order, reads none that is freed, and ends with an empty list, also with repeated ids. |
| P2pGroups.DeviceFlags | wlan-opensource/sigma-dut/p2p.c:346-475 | **Main result.** Whatever operations a device has gone through, its role flags are backed by nodes of its linked list; if every dissolve met the condition, they are set for exactly the roles of its nodes. |
| NanTlv.DecodesEncoded | wlan-opensource/sigma-dut/nan.c:218-250 | A generic reader of type, length and value gives back every written list of elements. |
| NanTlv.EncodesDecoded | wlan-opensource/sigma-dut/nan.c:218-250 | **Main result.** What such a reader accepts is exactly the encoding of what it returns. |
| NanTlv.BuildSubAttr | wlan-opensource/sigma-dut/nan.c:235-250 | Writes the encoding of one element at its place and nothing else, and returns its size. |
| NanTlv.BuildLinkLocal | wlan-opensource/sigma-dut/nan.c:218-232 | Writes the element of the lower eight octets of the address. |
| NanTlv.BuildServiceInfo | wlan-opensource/sigma-dut/nan.c:253-303 | **Main result.** The back-patched attribute is the encoding of OUI, protocol type and sub-attributes, its length field being the number of octets that follow. |
| NanTlv.ReportedSizeIsWritten | wlan-opensource/sigma-dut/nan.c:253-303 | The returned size is that of the attribute exactly while it is a 16-bit number. |
| NanTlv.ServiceInfoReadBack | wlan-opensource/sigma-dut/nan.c:253-303 | **Main result.** The generic reader recovers the element 1 with OUI 50-6F-9A, protocol type 2, the port as element 0 and the protocol as element 1. |
| NanTlv.ServiceInfoOctets | wlan-opensource/sigma-dut/nan.c:253-303 | The sixteen octets for a port and a protocol, one by one. |
| NanTlv.Receiver.DataIndication | wlan-opensource/sigma-dut/nan.c:2248-2268 | Address and length that the receive callback keeps, for every received content. |
| NanTlv.LinkLocalReceived | wlan-opensource/sigma-dut/nan.c:218-232 | The receiver gets the fe80 prefix and the sent interface id with length 16, whatever follows. |
| NanTlv.OnlyLinkLocalArrives | wlan-opensource/sigma-dut/nan.c:2248-2268 | **Main result.** The address itself arrives exactly if its upper half is that prefix. |
| NanTlv.BuildBlob | wlan-opensource/sigma-dut/nan.c:1766-1777 | The blob is the address element followed by the service info element, and its size is right. |
| NanTlv.BlobReadBack | wlan-opensource/sigma-dut/nan.c:1766-1777 | The generic reader finds just these two elements. |
| NanFilter.SplitsJoined | wlan-opensource/sigma-dut/nan.c:133-142 | **Main result.** Splitting gives back the tokens of every text that is made of them, with any number of colons in front, between and behind. |
| NanFilter.EveryTextIsJoined | wlan-opensource/sigma-dut/nan.c:133-142 | And every text is made of its tokens in that way. |
| NanFilter.TextReadBack | wlan-opensource/sigma-dut/nan.c:128-146 | **Main result.** What is written for such a text reads as its tokens, exactly if they are of at most 255 octets. |
| NanFilter.TwoTokens | wlan-opensource/sigma-dut/nan.c:133-142 | The octets for "ab:*", one by one. |
| NanFilter.DecodesEncoded | wlan-opensource/sigma-dut/nan.c:128-146 | A length-value reader inverts the encoding of tokens of 1 to 255 octets. |
| NanFilter.EncodingIsInjective | wlan-opensource/sigma-dut/nan.c:128-146 | Different token lists of that kind have different encodings. |
| NanFilter.OnlyStarIsEmpty | wlan-opensource/sigma-dut/nan.c:136-138 | Only the wildcard token has a zero length octet. |
| NanFilter.DecodesExactly | wlan-opensource/sigma-dut/nan.c:128-146 | **Main result.** For every token list: reading gives it back if and only if all its tokens are of 1 to 255 octets. |
| NanFilter.EncodedSize | wlan-opensource/sigma-dut/nan.c:128-146 | **Main result.** The output never exceeds the input by more than one octet, and not at all behind a leading colon. |
| NanFilter.ParseToken | wlan-opensource/sigma-dut/nan.c:128-146 | **Main result.** The loop writes the encoding of the tokens of its input; it stays inside the buffer exactly if that encoding fits, and always if the buffer is longer than the input. The callers (lines 693 and 1507) have fixed buffers and do not look. |
| NanFilter.NextToken | wlan-opensource/sigma-dut/nan.c:133-142 | Skips separators and takes the text up to the next one. |
| HexText.DigitsInOrder | wlan-opensource/sigma-dut/nan.c:116-125 | The digits are 0 to 9 and then a to f in either case; nothing else counts. |
| HexText.ParseHexString | wlan-opensource/sigma-dut/nan.c:197-215 | Writes the octets that the digits stand for, up to the room, and leaves the rest of the buffer. |
| HexText.ParsedBytes | wlan-opensource/sigma-dut/nan.c:197-215 | How many octets a text gives, and each of them. |
| HexText.Ascii2HexStr | wlan-opensource/sigma-dut/ap.c:4716-4727 | What the buffer holds for every character, with signed and with unsigned char. |
| HexText.PrintedIsHeld | wlan-opensource/sigma-dut/ap.c:4716-4727 | As a C string it ends behind the first character below 0x10. |
| HexText.ParsesPrinted | wlan-opensource/sigma-dut/ap.c:4716-4727 | **Main result.** Parsing undoes printing exactly if no character in front of the last is below 0x10 and, with signed char, every character from 0x80 on is 0xFF. |
| Anqp.SplitsNames | wlan-opensource/sigma-dut/ap.c:5637-5677 | **Main result.** Splitting at commas gives back the names of every list that is made of them, empty ones included but for an unended last. |
| Anqp.EncodeDomains | wlan-opensource/sigma-dut/ap.c:5637-5677 | **Main result.** For every list: the buffer always has room for twice the unread text and 48 more, no piece is cut, and the string it holds is `Written` of the names. |
| Anqp.WrittenIsEmitted | wlan-opensource/sigma-dut/ap.c:5657-5677 | For names of at most 255 characters in 0x10 to 0x7F that is the text of their lengths and characters, one behind the other. |
| Anqp.EncodeName | wlan-opensource/sigma-dut/ap.c:5657-5677 | One turn: the piece of one more name in its place, the room that remains and the text that is left. |
| Anqp.NamesReadBack | wlan-opensource/sigma-dut/ap.c:5657-5677 | **Main result.** Parsing the hex text gives the length-prefixed names. |
| Anqp.WriteDomains | wlan-opensource/sigma-dut/ap.c:5637-5686 | The written element for every list, or nothing for an empty one. |
| Anqp.DomainLengthCountsDigits | wlan-opensource/sigma-dut/ap.c:5679-5685 | **Main result.** Behind type 268 the length field is twice the size of what it covers, and so right only for an empty list: it counts hex digits. |
| Anqp.SwappedIsLittleEndian | wlan-opensource/sigma-dut/ap.c:5608 | A byte-swapped number printed with four digits is the text of its two octets, low octet first. |
| Anqp.ScanStaysInside | wlan-opensource/sigma-dut/ap.c:5745 | The scan stays inside the tables exactly if some entry is not in use. |
| Anqp.EncodePlmns | wlan-opensource/sigma-dut/ap.c:5745-5754 | Leaves the swapped text of all listed codes, and the tables exactly if all ten entries are in use; for decimal codes it is the hex text of their octets. |
| Anqp.PlmnText | wlan-opensource/sigma-dut/ap.c:5746-5753 | The digit-swapped text of one code, with the filler for a two-digit network code, whatever its characters; for a decimal code it is the hex text of its three octets. |
| Anqp.TextReadBack | wlan-opensource/sigma-dut/ap.c:5746-5753 | The text gives a code back exactly if its third network character is not the filler character itself. |
| Anqp.TextsAreHex | wlan-opensource/sigma-dut/ap.c:5745-5754 | For decimal codes the text is the hex text of their octets. |
| Anqp.CodesReadBack | wlan-opensource/sigma-dut/ap.c:5745-5754 | The codes decode to the list that was encoded. |
| Anqp.WritePlmns | wlan-opensource/sigma-dut/ap.c:5745-5769 | **Main result.** The element is the front for the number of codes and their text, or nothing for an empty list; for decimal codes it is the hex text of the cellular network element; it is determined exactly if some entry is not in use. |
| Anqp.CellularElement | wlan-opensource/sigma-dut/ap.c:5755-5769 | **Main result.** Each of the three nested lengths is the number of octets behind it, and count and codes are those of the list. |
| MboTable.KnownIsASet | wlan-opensource/sigma-dut/ap.c:12384-12417 | Over every run the listed addresses are distinct, never the own one, and no more than the table holds. |
| MboTable.UnknownIsUnset | wlan-opensource/sigma-dut/ap.c:12400-12411 | What is not listed has no field set, so a new entry starts unset. |
| MboTable.FullIsFrozen | wlan-opensource/sigma-dut/ap.c:12433-12439 | **Main result.** Once the table is full no later command changes anything until the next reset, not even for listed access points. |
| MboTable.RepeatChangesNothing | wlan-opensource/sigma-dut/ap.c:12422-12461 | Repeating a command changes nothing. |
| MboTable.AbsorbingFollowsHistory | wlan-opensource/sigma-dut/ap.c:12384-12417 | Merging into or adding to the array is what the map from address to last set fields says. |
| MboTable.Table.ResetDefault | wlan-opensource/sigma-dut/ap.c:9851 | The count is cleared by every reset, the own tuple only by a reset for this program (lines 10064-10066). |
| MboTable.Table.Find | wlan-opensource/sigma-dut/ap.c:12370-12381 | The index of the entry with the address, or none exactly if there is none. |
| MboTable.Table.AddEntry | wlan-opensource/sigma-dut/ap.c:12384-12417 | The own tuple or the entry with the address is merged, or a new entry added while there is room. |
| MboTable.Table.SetNeighbour | wlan-opensource/sigma-dut/ap.c:12422-12461 | **Main result.** The table refines the map from address to three fields, each the last value that an accepted command has set; refused commands change and send nothing. |
| MboTable.Table.Apply | wlan-opensource/sigma-dut/ap.c:5981-6051 | **Main result.** What is sent: the clearing line, the neighbours in order with what was last set for each field, or 255, 1 and 1, and the own tuple, whose unset preference is the greatest number up to 255 below all of theirs. |
| MboTable.OwnPreferenceIsNatural | wlan-opensource/sigma-dut/ap.c:6038-6041 | That preference is negative exactly if some neighbour has a preference of zero or less. |
| ConfigEditor.MatchesText | wlan-opensource/sigma-dut/ap.c:4832-4840 | The lines that are looked for start with the field and "=", or with "#" in front of these. |
| ConfigEditor.Rewrite | wlan-opensource/sigma-dut/ap.c:4830-4859 | The line loop computes the rewritten file. |
| ConfigEditor.EditExchanges | wlan-opensource/sigma-dut/ap.c:4830-4850 | If there is a line for the field, commented out or not, the edit exchanges the first such line and nothing else. |
| ConfigEditor.EditAppends | wlan-opensource/sigma-dut/ap.c:4852-4859 | Without such a line the edit adds one at the end and changes nothing else. |
| ConfigEditor.EditSetsOneField | wlan-opensource/sigma-dut/ap.c:4830-4859 | **Main result.** After the edit a reader finds the new value for the field and the old value for every other field, exactly if there was a line to replace or the last line was ended by a newline. |
| ConfigEditor.EditIsReadBack | wlan-opensource/sigma-dut/ap.c:4852-4859 | **Main result.** The new value is found exactly if there was a line to replace or the last line was ended by a newline. |
| ConfigEditor.EditAgain | wlan-opensource/sigma-dut/ap.c:4830-4859 | **Main result.** For every file whose lines fit the buffer: the same edit again changes nothing exactly if the new line is read in one go and there was a line to replace, the last line was ended, or the last line just fills the buffer. |
| ConfigEditor.OpenFileGrows | wlan-opensource/sigma-dut/ap.c:4852-4859 | A concrete file without a final newline to which a second, equal edit adds another line. |
| ConfigEditor.EditKeepsOther | wlan-opensource/sigma-dut/ap.c:4830-4859 | **Main result.** Another field keeps its value exactly if there was a line to replace, the last line was ended, the other field has a line in front of the last one, or the last line with the new one glued to it is not for that field. |
| ConfigEditor.ConfigFile.Write | wlan-opensource/sigma-dut/ap.c:4804-4885 | What becomes of the file for every failure of the file operations. |
| ChannelPlan.ListedChannels | wlan-opensource/sigma-dut/ap.c:7522-7534 | The channels of both lists, one by one. |
| ChannelPlan.CentreOfBlock | wlan-opensource/sigma-dut/ap.c:7612-7613 | The computed centre is the middle of the block of the channel, for every width and base. |
| ChannelPlan.CentreIsNear | wlan-opensource/sigma-dut/ap.c:7612-7613 | A channel is at most (width - 20) / 10 away from its centre. |
| ChannelPlan.CentresAreApart | wlan-opensource/sigma-dut/ap.c:7612-7613 | Two centres of one base are equal or at least width / 5 apart. |
| ChannelPlan.BlocksPartition | wlan-opensource/sigma-dut/ap.c:7612-7613 | **Main result.** The channels in reach of a centre are exactly those that have this centre. |
| ChannelPlan.CentreIdx5g | wlan-opensource/sigma-dut/ap.c:7593-7614 | For every listed 5 GHz channel the function computes the centre of its block. |
| ChannelPlan.BlocksOfTwoBases | wlan-opensource/sigma-dut/ap.c:7605-7613 | **Main result.** For all listed channels of different bases and widths up to 160 MHz the centres are at least width / 5 apart, but for 160 MHz with one channel in 132 to 144 and the other in 149 to 165. |
| ChannelPlan.MasksAreDivision | wlan-opensource/sigma-dut/ap.c:7553-7569 | **Main result.** The mask forms equal the division form with base 1, for 80 and 160 MHz exactly below channel 4096. |
| ChannelPlan.CentreIdx6g | wlan-opensource/sigma-dut/ap.c:7593-7603 | For every listed 6 GHz channel the computed centre is in reach, and it is that of the block exactly if the channel is not 2. |
| ChannelPlan.CentreHasMiddle | wlan-opensource/sigma-dut/ap.c:7553-7569 | The middle of a block is its computed centre with base 1. |
| ChannelPlan.ClassOfCentre | wlan-opensource/sigma-dut/ap.c:7572-7590 | The operating class of a centre is 131, 132, 133 or 134 by width. |
| ChannelPlan.WrittenClass | wlan-opensource/sigma-dut/ap.c:8872-8873 | The configuration names the class of the primary channel, for every listed channel: 136 for channel 2, otherwise 131, which is that of the width for 20 MHz only. |
| RmBits.ParseRmBits | wlan-opensource/sigma-dut/ftm.c:512-594 | The loop leaves the rows that the automaton computes. |
| RmBits.OthersAreIgnored | wlan-opensource/sigma-dut/ftm.c:512-594 | **Main result.** Leaving out all characters but digits, colons and semicolons changes nothing, for every string. |
| RmBits.RowsAreSemicolons | wlan-opensource/sigma-dut/ftm.c:512-594 | The index is the number of semicolons, up to ten, for every string. |
| RmBits.PairsReadBack | wlan-opensource/sigma-dut/ftm.c:512-594 | **Main result.** Printing up to ten pairs and parsing gives them back, with or without the last semicolon. |
| RmBits.FindFlag | wlan-opensource/sigma-dut/ftm.c:639-642 | The value of the last row for the bit, or 25. |
| RmBits.LastPairDecides | wlan-opensource/sigma-dut/ftm.c:634-642 | **Main result.** For printed pairs that is the value of the last pair for bit 34, or 25 without one. |
| RmBits.Preset | wlan-opensource/sigma-dut/ftm.c:605-692 | One answer is sent; it is an error exactly if the chosen command fails; the disabling failure returns what asks for another answer. |
| RmBits.ProcessPreset | wlan-opensource/sigma-dut/sigma_dut.c:487-504 | **Main result.** The command is answered twice exactly if disabling is asked for and fails. |
| Dhcp.GetDhcpOption | wlan-opensource/sigma-dut/dhcp.c:53-64 | Returns the position of the first option of the type, for every content. |
| Dhcp.PositionIsLookup | wlan-opensource/sigma-dut/dhcp.c:53-64 | **Main result.** At that position lies, wholly inside, what the list of whole options has first for the type; there is none exactly if the list has none. |
| Dhcp.DecodedIsPrefix | wlan-opensource/sigma-dut/dhcp.c:58-62 | The walked options are the longest well-formed prefix. |
| Dhcp.EncodedIsDecoded | wlan-opensource/sigma-dut/dhcp.c:58-62 | An encoded option list is walked as that list. |
| Dhcp.ScanIsLookup | wlan-opensource/sigma-dut/dhcp.c:53-64 | **Main result.** On an encoded option list the scan agrees with list lookup. |
| Dhcp.MessageTypeIsValue | wlan-opensource/sigma-dut/dhcp.c:157-169 | The octet that is read as message type is the first of the value if there is one; without one it can be outside of a full buffer. |
| Dhcp.ProcessMessage | wlan-opensource/sigma-dut/dhcp.c:136-194 | What every frame leads to: it is ignored, taken with the addresses of its first netmask and router, or makes a copy or a read go too far. |
| Dhcp.CopiesStayInside | wlan-opensource/sigma-dut/dhcp.c:171-191 | The copies of an acknowledgement stay inside the address exactly if the first netmask has at most four octets, and so has the first router if both are there. |
| Dhcp.AcknowledgementIsTaken | wlan-opensource/sigma-dut/dhcp.c:156-194 | A regularly encoded acknowledgement (type 53 with value 5, at octet 282) gives just the addresses that are in it: the offered one at octet 58, option 1 and option 3. |
| NoaCheck.TestDecidesAbsence | wlan-opensource/sigma-dut/sniffer-check-p2p-noa-duration.py:68-72 | **Main result.** The modular test decides, for all frame times, whether a frame is in an announced absence, exactly if the duration is at most the interval plus 200 or at most 401. |
| NoaCheck.Check | wlan-opensource/sigma-dut/sniffer-check-p2p-noa-duration.py:32-79 | The script computes the verdict for every beacon and every list of frames. |
| NoaCheck.VerdictIsAbsence | wlan-opensource/sigma-dut/sniffer-check-p2p-noa-duration.py:54-79 | **Main result.** On the clock of the beacon: FAILURE is printed for the last frame in an absence, and success exactly without one or if that frame is numbered zero. |
| NoaCheck.EarlyFrameHidesAll | wlan-opensource/sigma-dut/sniffer-check-p2p-noa-duration.py:63-65 | A frame before the start, on the clock of the beacon, gives its own verdict whatever the others are. |

## Left out

- Command texts, sockets, processes, NFC scripts, QR Code tools and the system calls of all parts: each is a success or
  a failure, or a reply, that the model leaves open.
- Event lines and replies are not cut to the sizes of the buffers that receive them.
- The texts of the answers: a result list is a record of verdicts and an error text one of a list of faults, so a wrong
  wording would not be seen.
- The parameter checks of DPP commands that only build a command string (keys, curves, SSIDs, MUD URLs, peer addresses).
- `dpp_tests`: whether a step, frame and attribute are in that table is one open outcome.
- 60 GHz channels in `channel_to_freq`, and the overflow of `atoi`.
- DppMonitor.Dut.SendResp: calls without a connection, and the counter of answers, which only produces a log line.
- DppCommands.GetLocalBootstrap: the URI is answered as it is; the code prints its octets in hex, as in `HexText`.
- DppStart.SelectProfile: the role texts, SSIDs and passphrases of the profiles.
- Allocation failures, in `p2p_group_add` in particular, which would leave a flag without a group.
- A broken monitor connection is not told apart from a silent wait.
- DppAutomatic.ProcessAuthResponse: the wording and the delay of the QR Code display are not modelled.
- NanTlv.BuildServiceInfo: values of 65536 octets and more, which do not fit the length field; the parameters that it is
  given have two and one.
- Receive callbacks of NAN other than the address part of the data indication.
- Anqp.WritePlmns: what is written once the scan has left the tables; entries are of the sizes that the configuration
  command accepts (`ap.c:11634-11719`).
- The other ANQP elements and the attach line, which are constant texts.
- MboTable.Table.SetNeighbour: the own address is fixed, while the code asks for it with every command.
- ConfigEditor.EditAgain: files with lines of more than 155 characters, which are read in pieces, and field names with
  '=' or '#'; the same goes for the other lemmas about the edit.
- Files with NUL characters in the configuration editor.
- ChannelPlan.CentreIdx5g: widths other than 20 times a power of two; a width of zero divides by zero.
- RmBits.Preset: the interworking commands, whose outcome nobody looks at.
- Dhcp.ProcessMessage: what a copy or read that goes too far does, and the setting of the addresses that were taken.
- Pad and end options of DHCP (sections 3.1 and 3.2 of RFC 2132), which the scanner takes for options with a length.
- NoaCheck.Check: the second test on floating-point frame times, which only writes to the debug file, and the reading of
  the tshark output.
- The parameter-copying commands, output tables and the other sniffer scripts of the repository, which would only add
  easy members.
