/** Groups, and how one that is not listed is found from what the supplicant says about its interfaces. */
module P2pDiscovery {
  import opened CText
  import opened Bytes

  const GRP_ID_LEN := 128
  const GO_DEV_ADDR_LEN := 50
  const SSID_LEN := 33
  const IF_NAME_SIZE := 16

  /** `strlcpy` into a buffer of `size` characters. */
  function Truncate(s: string, size: nat): string
    requires size > 0
  {
    if |s| < size then s else s[..size - 1]
  }

  datatype Group = Group(ifname: string, go: bool, grpid: string, ssid: string)

  function NewGroup(ifname: string, go: bool, grpid: string, ssid: string): Group {
    Group(Truncate(ifname, IF_NAME_SIZE), go, Truncate(grpid, GRP_ID_LEN), Truncate(ssid, SSID_LEN))
  }

  /** What the supplicant says about one of its interfaces; None is a failed command. */
  datatype Interface = Interface(name: string, status: Option<string>, networks: Option<string>)

  /** The supplicant: its answer to INTERFACES, and to STATUS and LIST_NETWORKS for every interface name. */
  datatype Supplicant = Supplicant(
    reply: Option<string>, status: string -> Option<string>, networks: string -> Option<string>)
  {
    function Ask(name: string): Interface {
      Interface(name, status(name), networks(name))
    }

    function Interfaces(): Option<seq<Interface>> {
      match reply case None => None case Some(text) => Some(InterfacesIn(text))
    }

    /** One interface a line; the last line need not end. */
    function InterfacesIn(text: string): seq<Interface>
      decreases |text|
    {
      if text == "" then []
      else
        match IndexOf(text, '\n')
        case None => [Ask(text)]
        case Some(k) => [Ask(text[..k])] + InterfacesIn(text[k + 1..])
    }
  }

  /** One of the blank-separated words mentions both the SSID and "[CURRENT]". */
  predicate CurrentNetwork(networks: string, ssid: string)
    decreases |networks|
  {
    if networks == "" then false
    else
      match IndexOf(networks, ' ')
      case None => Contains(networks, ssid) && Contains(networks, "[CURRENT]")
      case Some(k) =>
        || (Contains(networks[..k], ssid) && Contains(networks[..k], "[CURRENT]"))
        || CurrentNetwork(networks[k + 1..], ssid)
  }

  predicate Selects(i: Interface, ssid: string) {
    || (i.status.Some? && Contains(i.status.value, ssid))
    || (i.networks.Some? && CurrentNetwork(i.networks.value, ssid))
  }

  predicate IsGo(i: Interface) {
    i.status.Some? && Contains(i.status.value, "P2P GO")
  }

  /** The SSID that a group id of the form "address ssid" asks for. */
  function WantedSsid(grpid: string): Option<string> {
    match IndexOf(grpid, ' ')
    case None => None
    case Some(k) => if k >= GO_DEV_ADDR_LEN then None else Some(Truncate(grpid[k + 1..], SSID_LEN))
  }

  function FirstSelected(interfaces: seq<Interface>, ssid: string): (r: Option<Interface>)
    ensures r.Some? ==> r.value in interfaces && Selects(r.value, ssid)
  {
    if interfaces == [] then None
    else if Selects(interfaces[0], ssid) then Some(interfaces[0])
    else FirstSelected(interfaces[1..], ssid)
  }

  /** The interface that would be taken for an unlisted group; None interfaces is a failed INTERFACES. */
  function Discover(grpid: string, interfaces: Option<seq<Interface>>): Option<Interface> {
    if WantedSsid(grpid).None? || interfaces.None? then None
    else FirstSelected(interfaces.value, WantedSsid(grpid).value)
  }

  // ------------------------- what the texts say, read without splitting them

  /** A line of a text, from one place to another. */
  ghost predicate IsLineAt(text: string, a: nat, b: nat) {
    && a <= b <= |text| && a < |text| && (a == 0 || text[a - 1] == '\n') && (b == |text| || text[b] == '\n')
    && forall i :: a <= i < b ==> text[i] != '\n'
  }

  /** A stretch without a blank mentions both the SSID and "[CURRENT]". */
  ghost predicate NamesCurrent(networks: string, ssid: string, i: nat, j: nat) {
    && i <= j <= |networks| && (forall k :: i <= k < j ==> networks[k] != ' ')
    && Contains(networks[i..j], ssid) && Contains(networks[i..j], "[CURRENT]")
  }

  /** The interface of that name runs the network. */
  ghost predicate Runs(sup: Supplicant, name: string, ssid: string) {
    || (sup.status(name).Some? && Contains(sup.status(name).value, ssid))
    || (sup.networks(name).Some? && exists i: nat, j: nat :: NamesCurrent(sup.networks(name).value, ssid, i, j))
  }

  /** The first line of a text that names such an interface. */
  ghost predicate FirstToRun(sup: Supplicant, text: string, ssid: string, a: nat, b: nat) {
    && IsLineAt(text, a, b) && Runs(sup, text[a..b], ssid)
    && forall c: nat, d: nat :: IsLineAt(text, c, d) && c < a ==> !Runs(sup, text[c..d], ssid)
  }

  lemma ContainsMore(s: string, i: nat, j: nat, t: string)
    requires i <= j <= |s| && Contains(s[i..j], t)
    ensures Contains(s, t)
  {
    var k :| 0 <= k <= j - i && StartsAt(s[i..j], k, t);
    SliceOfSlice(s, i, j, k, k + |t|);
    assert StartsAt(s, i + k, t);
  }

  lemma WordNamesCurrent(networks: string, ssid: string, k: nat, i: nat, j: nat)
    requires k <= |networks| && NamesCurrent(networks, ssid, i, j) && j <= k
    ensures Contains(networks[..k], ssid) && Contains(networks[..k], "[CURRENT]")
  {
    SliceOfSlice(networks, 0, k, i, j);
    assert networks[0..k] == networks[..k];
    ContainsMore(networks[..k], i, j, ssid);
    ContainsMore(networks[..k], i, j, "[CURRENT]");
  }

  lemma LaterNamesCurrent(networks: string, ssid: string, k: nat, i: nat, j: nat)
    requires k <= i <= j <= |networks|
    ensures NamesCurrent(networks[k..], ssid, i - k, j - k) <==> NamesCurrent(networks, ssid, i, j)
  {
    assert networks[k..][i - k..j - k] == networks[i..j];
    assert forall m :: i <= m < j ==> networks[k..][m - k] == networks[m];
  }

  /** Looking at the words one after the other finds such a stretch. */
  lemma {:induction false} CurrentIsNamed(networks: string, ssid: string) returns (i: nat, j: nat)
    requires CurrentNetwork(networks, ssid)
    ensures NamesCurrent(networks, ssid, i, j)
    decreases |networks|
  {
    IndexOfIsFirst(networks, ' ');
    var blank := IndexOf(networks, ' ');
    i, j := 0, if blank.Some? then blank.value else |networks|;
    assert networks[..|networks|] == networks && forall m :: i <= m < j ==> networks[..j][m] == networks[m];
    if !Contains(networks[..j], ssid) || !Contains(networks[..j], "[CURRENT]") {
      var k := blank.value + 1;
      i, j := CurrentIsNamed(networks[k..], ssid);
      i, j := i + k, j + k;
      LaterNamesCurrent(networks, ssid, k, i, j);
    }
  }

  /** And misses none. */
  lemma {:induction false} NamedIsCurrent(networks: string, ssid: string, i: nat, j: nat)
    requires NamesCurrent(networks, ssid, i, j)
    ensures CurrentNetwork(networks, ssid)
    decreases |networks|
  {
    IndexOfIsFirst(networks, ' ');
    var blank := IndexOf(networks, ' ');
    var k := if blank.Some? then blank.value else |networks|;
    if j <= k {
      WordNamesCurrent(networks, ssid, k, i, j);
      assert networks[..|networks|] == networks;
    } else {
      LaterNamesCurrent(networks, ssid, k + 1, i, j);
      NamedIsCurrent(networks[k + 1..], ssid, i - k - 1, j - k - 1);
    }
  }

  lemma SelectsIsRuns(sup: Supplicant, name: string, ssid: string)
    ensures Selects(sup.Ask(name), ssid) <==> Runs(sup, name, ssid)
  {
    var networks := sup.networks(name);
    if networks.Some? {
      if CurrentNetwork(networks.value, ssid) {
        var i, j := CurrentIsNamed(networks.value, ssid);
      }
      if i: nat, j: nat :| NamesCurrent(networks.value, ssid, i, j) {
        NamedIsCurrent(networks.value, ssid, i, j);
      }
    }
  }

  /** The lines of the rest of a text are the later lines of the text. */
  lemma LaterLine(text: string, k: nat, a: nat, b: nat)
    requires 0 < k <= |text| && text[k - 1] == '\n' && k <= a <= b
    ensures IsLineAt(text[k..], a - k, b - k) <==> IsLineAt(text, a, b)
    ensures IsLineAt(text, a, b) ==> text[k..][a - k..b - k] == text[a..b]
  {
    if b <= |text| {
      assert forall i :: a <= i < b ==> text[k..][i - k] == text[i];
    }
  }

  /** Two lines that start at one place, or one inside the other, are the same. */
  lemma LineStart(text: string, n: nat, c: nat, d: nat)
    requires IsLineAt(text, 0, n) && IsLineAt(text, c, d) && c <= n
    ensures c == 0 && d == n
  {}

  /** A line by its place and what it says. */
  datatype TextLine = TextLine(at: nat, name: string) {
    ghost predicate StandsIn(text: string) {
      IsLineAt(text, at, at + |name|) && text[at..at + |name|] == name
    }

    function MovedBy(n: nat): TextLine {
      TextLine(at + n, name)
    }
  }

  ghost predicate AllStand(text: string, lines: seq<TextLine>) {
    forall k {:trigger lines[k].StandsIn(text)} :: 0 <= k < |lines| ==> lines[k].StandsIn(text)
  }

  predicate Ascending(lines: seq<TextLine>) {
    forall j, k :: 0 <= j < k < |lines| ==> lines[j].at < lines[k].at
  }

  /** Every line of the text is one of these. */
  ghost predicate AreAll(text: string, lines: seq<TextLine>) {
    forall a: nat, b: nat :: IsLineAt(text, a, b) ==> exists k :: 0 <= k < |lines| && lines[k].at == a
  }

  /** These are the lines of a text, first to last. */
  ghost predicate AreLines(text: string, lines: seq<TextLine>) {
    AllStand(text, lines) && Ascending(lines) && AreAll(text, lines)
  }

  /** Where the first line ends, in front of its newline if it has one. */
  lemma FirstLineAt(text: string) returns (n: nat)
    requires text != ""
    ensures IsLineAt(text, 0, n)
    ensures match IndexOf(text, '\n') case None => n == |text| case Some(k) => n == k
  {
    IndexOfIsFirst(text, '\n');
    n := match IndexOf(text, '\n') case None => |text| case Some(k) => k;
    assert forall i :: 0 <= i < n ==> text[..n][i] == text[i];
  }

  lemma OneLine(text: string)
    requires IsLineAt(text, 0, |text|)
    ensures AreLines(text, [TextLine(0, text)])
  {
    assert text[0..|text|] == text;
    forall a: nat, b: nat | IsLineAt(text, a, b) ensures [TextLine(0, text)][0].at == a {
      LineStart(text, |text|, a, b);
    }
  }

  function Moved(lines: seq<TextLine>, n: nat): (r: seq<TextLine>)
    ensures |r| == |lines| && forall k :: 0 <= k < |lines| ==> r[k] == lines[k].MovedBy(n)
  {
    seq(|lines|, k requires 0 <= k < |lines| => lines[k].MovedBy(n))
  }

  lemma StandsLater(text: string, n: nat, line: TextLine)
    requires n < |text| && text[n] == '\n' && line.StandsIn(text[n + 1..])
    ensures line.MovedBy(n + 1).StandsIn(text)
  {
    LaterLine(text, n + 1, line.at + n + 1, line.at + n + 1 + |line.name|);
  }

  lemma AllStandLater(text: string, n: nat, lines: seq<TextLine>)
    requires IsLineAt(text, 0, n) && n < |text| && AllStand(text[n + 1..], lines)
    ensures AllStand(text, [TextLine(0, text[..n])] + Moved(lines, n + 1))
  {
    assert text[0..n] == text[..n];
    forall k | 0 <= k < |lines| ensures lines[k].MovedBy(n + 1).StandsIn(text) {
      StandsLater(text, n, lines[k]);
    }
  }

  lemma LineIsMoved(text: string, n: nat, lines: seq<TextLine>, a: nat, b: nat) returns (k: nat)
    requires IsLineAt(text, 0, n) && n < |text| && IsLineAt(text, a, b) && AreAll(text[n + 1..], lines)
    ensures k <= |lines| && a == if k == 0 then 0 else lines[k - 1].at + n + 1
  {
    if a <= n {
      LineStart(text, n, a, b);
      k := 0;
    } else {
      LaterLine(text, n + 1, a, b);
      var j :| 0 <= j < |lines| && lines[j].at == a - n - 1;
      k := j + 1;
    }
  }

  lemma AreAllLater(text: string, n: nat, lines: seq<TextLine>)
    requires IsLineAt(text, 0, n) && n < |text| && AreAll(text[n + 1..], lines)
    ensures AreAll(text, [TextLine(0, text[..n])] + Moved(lines, n + 1))
  {
    var all := [TextLine(0, text[..n])] + Moved(lines, n + 1);
    forall a: nat, b: nat | IsLineAt(text, a, b) ensures exists k :: 0 <= k < |all| && all[k].at == a {
      var k := LineIsMoved(text, n, lines, a, b);
      assert all[k].at == a;
    }
  }

  lemma AscendingLater(first: string, n: nat, lines: seq<TextLine>)
    requires Ascending(lines)
    ensures Ascending([TextLine(0, first)] + Moved(lines, n + 1))
  {}

  /** These interfaces have these names. */
  ghost predicate Asked(sup: Supplicant, interfaces: seq<Interface>, lines: seq<TextLine>) {
    |interfaces| == |lines| && forall k :: 0 <= k < |lines| ==> interfaces[k] == sup.Ask(lines[k].name)
  }

  lemma AskedLater(sup: Supplicant, interfaces: seq<Interface>, first: string, n: nat, lines: seq<TextLine>)
    requires Asked(sup, interfaces, lines)
    ensures Asked(sup, [sup.Ask(first)] + interfaces, [TextLine(0, first)] + Moved(lines, n + 1))
  {}

  /** The interfaces are those on the lines, first to last. */
  lemma {:induction false} InterfacesOnLines(sup: Supplicant, text: string) returns (lines: seq<TextLine>)
    ensures AreLines(text, lines) && Asked(sup, sup.InterfacesIn(text), lines)
    decreases |text|
  {
    lines := [];
    if text != "" {
      var n := FirstLineAt(text);
      if n == |text| {
        lines := [TextLine(0, text)];
        OneLine(text);
      } else {
        var later := InterfacesOnLines(sup, text[n + 1..]);
        lines := [TextLine(0, text[..n])] + Moved(later, n + 1);
        AllStandLater(text, n, later);
        AscendingLater(text[..n], n, later);
        AreAllLater(text, n, later);
        AskedLater(sup, sup.InterfacesIn(text[n + 1..]), text[..n], n, later);
      }
    }
  }

  /** None of the first k interfaces is selected. */
  predicate NoneSelected(interfaces: seq<Interface>, ssid: string, k: nat) {
    forall j {:trigger Selects(interfaces[j], ssid)} :: 0 <= j < k && j < |interfaces| ==> !Selects(interfaces[j], ssid)
  }

  /** The interface that is taken is the first one that fits. */
  lemma {:induction false} SelectedAt(interfaces: seq<Interface>, ssid: string) returns (k: nat)
    ensures match FirstSelected(interfaces, ssid)
            case None => k == |interfaces|
            case Some(i) => k < |interfaces| && interfaces[k] == i && Selects(i, ssid)
    ensures NoneSelected(interfaces, ssid, k)
  {
    k := 0;
    if interfaces != [] && !Selects(interfaces[0], ssid) {
      k := SelectedAt(interfaces[1..], ssid);
      k := k + 1;
      forall j | 1 <= j < k && j < |interfaces| ensures !Selects(interfaces[j], ssid) {
        assert !Selects(interfaces[1..][j - 1], ssid);
      }
    }
  }

  ghost predicate NoneRuns(sup: Supplicant, text: string, ssid: string) {
    forall c: nat, d: nat :: IsLineAt(text, c, d) ==> !Runs(sup, text[c..d], ssid)
  }

  /** A line that is not selected names no interface that runs the network. */
  lemma NotRunning(sup: Supplicant, text: string, ssid: string, line: TextLine, d: nat)
    requires line.StandsIn(text) && IsLineAt(text, line.at, d) && !Selects(sup.Ask(line.name), ssid)
    ensures !Runs(sup, text[line.at..d], ssid)
  {
    SelectsIsRuns(sup, line.name, ssid);
    assert d == line.at + |line.name|;
  }

  lemma Earlier(lines: seq<TextLine>, j: nat, k: nat)
    requires Ascending(lines) && j < |lines| && k < |lines| && lines[j].at < lines[k].at
    ensures j < k
  {}

  lemma EarlierDoNotRun(sup: Supplicant, text: string, ssid: string, lines: seq<TextLine>,
                        interfaces: seq<Interface>, k: nat, c: nat, d: nat)
    requires AreLines(text, lines) && Asked(sup, interfaces, lines) && NoneSelected(interfaces, ssid, k)
    requires IsLineAt(text, c, d) && (k < |lines| ==> c < lines[k].at)
    ensures !Runs(sup, text[c..d], ssid)
  {
    var j :| 0 <= j < |lines| && lines[j].at == c;
    if k < |lines| { Earlier(lines, j, k); }
    assert lines[j].StandsIn(text) && !Selects(interfaces[j], ssid);
    NotRunning(sup, text, ssid, lines[j], d);
  }

  lemma SelectedRuns(sup: Supplicant, text: string, ssid: string, lines: seq<TextLine>,
                     interfaces: seq<Interface>, k: nat)
    requires AreLines(text, lines) && Asked(sup, interfaces, lines) && NoneSelected(interfaces, ssid, k)
    requires k < |lines| && Selects(interfaces[k], ssid)
    ensures FirstToRun(sup, text, ssid, lines[k].at, lines[k].at + |lines[k].name|)
    ensures interfaces[k] == sup.Ask(text[lines[k].at..lines[k].at + |lines[k].name|])
  {
    var line := lines[k];
    assert line.StandsIn(text);
    SelectsIsRuns(sup, line.name, ssid);
    forall c: nat, d: nat | IsLineAt(text, c, d) && c < line.at ensures !Runs(sup, text[c..d], ssid) {
      EarlierDoNotRun(sup, text, ssid, lines, interfaces, k, c, d);
    }
  }

  lemma UnselectedDoNotRun(sup: Supplicant, text: string, ssid: string, lines: seq<TextLine>,
                           interfaces: seq<Interface>)
    requires AreLines(text, lines) && Asked(sup, interfaces, lines) && NoneSelected(interfaces, ssid, |lines|)
    ensures NoneRuns(sup, text, ssid)
  {
    forall c: nat, d: nat | IsLineAt(text, c, d) ensures !Runs(sup, text[c..d], ssid) {
      EarlierDoNotRun(sup, text, ssid, lines, interfaces, |lines|, c, d);
    }
  }

  /** The first selected interface is that of the first line that names one that runs the network. */
  lemma SelectedIsFirst(sup: Supplicant, text: string, ssid: string, interfaces: seq<Interface>, k: nat)
    returns (a: nat, b: nat)
    requires interfaces == sup.InterfacesIn(text) && k <= |interfaces| && NoneSelected(interfaces, ssid, k)
    requires k < |interfaces| ==> Selects(interfaces[k], ssid)
    ensures k == |interfaces| ==> NoneRuns(sup, text, ssid)
    ensures k < |interfaces| ==> FirstToRun(sup, text, ssid, a, b) && interfaces[k] == sup.Ask(text[a..b])
  {
    a, b := 0, 0;
    var lines := InterfacesOnLines(sup, text);
    if k < |interfaces| {
      SelectedRuns(sup, text, ssid, lines, interfaces, k);
      a, b := lines[k].at, lines[k].at + |lines[k].name|;
    } else {
      UnselectedDoNotRun(sup, text, ssid, lines, interfaces);
    }
  }

  /** `cut` is as much of a text as fits `room` characters. */
  predicate IsCut(cut: string, s: string, room: nat) {
    cut <= s && |cut| == if |s| <= room then |s| else room
  }

  /** The id has its first blank at k, not too far behind. */
  ghost predicate FirstBlank(grpid: string, k: nat) {
    k < |grpid| && k < 50 && grpid[k] == ' ' && forall i :: 0 <= i < k ==> grpid[i] != ' '
  }

  /** The group is that of the interface on the line from a to b of the reply, for an id with its first blank at k. */
  ghost predicate TakenOver(g: Group, grpid: string, sup: Supplicant, k: nat, a: nat, b: nat) {
    && FirstBlank(grpid, k) && IsCut(g.ssid, grpid[k + 1..], 32) && IsCut(g.grpid, grpid, 127)
    && sup.reply.Some? && FirstToRun(sup, sup.reply.value, g.ssid, a, b)
    && var name := sup.reply.value[a..b];
       && IsCut(g.ifname, name, 15)
       && (g.go <==> sup.status(name).Some? && Contains(sup.status(name).value, "P2P GO"))
  }

  ghost predicate IsTakenOver(g: Group, grpid: string, sup: Supplicant) {
    exists k: nat, a: nat, b: nat :: TakenOver(g, grpid, sup, k, a, b)
  }

  /** There is no group to be taken over for the id. */
  ghost predicate NothingRuns(grpid: string, sup: Supplicant) {
    forall k: nat, ssid ::
      FirstBlank(grpid, k) && IsCut(ssid, grpid[k + 1..], 32) && sup.reply.Some? ==>
        NoneRuns(sup, sup.reply.value, ssid)
  }

  lemma BlankIsFirst(grpid: string, k: nat, ssid: string)
    requires FirstBlank(grpid, k)
    ensures WantedSsid(grpid) == Some(ssid) <==> IsCut(ssid, grpid[k + 1..], 32)
  {
    FirstIsIndexOf(grpid, ' ', k);
    var rest := grpid[k + 1..];
    if ssid <= rest { assert ssid == rest[..|ssid|]; }
    assert rest[..|rest|] == rest;
  }

  lemma WantedHasBlank(grpid: string) returns (k: nat)
    requires WantedSsid(grpid).Some?
    ensures FirstBlank(grpid, k)
  {
    IndexOfIsFirst(grpid, ' ');
    k := IndexOf(grpid, ' ').value;
    assert forall i :: 0 <= i < k ==> grpid[..k][i] == grpid[i];
  }

  /** What the lookup discovers is the group of the first interface that runs the network that the id asks for. */
  lemma DiscoveredIsTakenOver(grpid: string, sup: Supplicant, i: Interface)
    requires Discover(grpid, sup.Interfaces()) == Some(i)
    ensures IsTakenOver(NewGroup(i.name, IsGo(i), grpid, WantedSsid(grpid).value), grpid, sup)
  {
    var k := WantedHasBlank(grpid);
    BlankIsFirst(grpid, k, WantedSsid(grpid).value);
    var interfaces, ssid := sup.InterfacesIn(sup.reply.value), WantedSsid(grpid).value;
    var n := SelectedAt(interfaces, ssid);
    var a, b := SelectedIsFirst(sup, sup.reply.value, ssid, interfaces, n);
    assert TakenOver(NewGroup(i.name, IsGo(i), grpid, WantedSsid(grpid).value), grpid, sup, k, a, b);
  }

  /** And it misses none. */
  lemma NothingIsMissed(grpid: string, sup: Supplicant)
    requires Discover(grpid, sup.Interfaces()).None?
    ensures NothingRuns(grpid, sup)
  {
    forall k: nat, ssid | FirstBlank(grpid, k) && IsCut(ssid, grpid[k + 1..], 32) && sup.reply.Some?
      ensures NoneRuns(sup, sup.reply.value, ssid)
    {
      BlankIsFirst(grpid, k, ssid);
      var interfaces := sup.InterfacesIn(sup.reply.value);
      var n := SelectedAt(interfaces, ssid);
      var _, _ := SelectedIsFirst(sup, sup.reply.value, ssid, interfaces, n);
    }
  }
}
