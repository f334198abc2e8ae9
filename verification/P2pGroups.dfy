/** The list of P2P groups of the device, kept as a singly linked list of heap nodes. */
module P2pGroups {
  import opened CText
  import opened P2pDiscovery

  /** What the controller can tell from outside: the role flags and the groups, newest first. */
  datatype State = State(go: bool, client: bool, groups: seq<Group>)

  const NO_GROUPS := State(false, false, [])

  // --------------------------------------------------------------- on values

  function Added(s: State, ifname: string, go: bool, grpid: string, ssid: string): State {
    State(s.go || go, s.client || !go, [NewGroup(ifname, go, grpid, ssid)] + s.groups)
  }

  /** The index of the first group with an id. */
  function FirstIndex(groups: seq<Group>, grpid: string): (r: Option<nat>)
    ensures r.Some? ==> r.value < |groups| && groups[r.value].grpid == grpid
    ensures r.Some? ==> forall j :: 0 <= j < r.value ==> groups[j].grpid != grpid
    ensures r.None? ==> forall j :: 0 <= j < |groups| ==> groups[j].grpid != grpid
  {
    if groups == [] then None
    else if groups[0].grpid == grpid then Some(0)
    else match FirstIndex(groups[1..], grpid)
      case None => None
      case Some(k) => Some(k + 1)
  }

  function RemovedAt<T>(xs: seq<T>, k: nat): (r: seq<T>)
    requires k < |xs|
    ensures |r| == |xs| - 1
    ensures forall i {:trigger r[i]} :: 0 <= i < |r| ==> r[i] == if i < k then xs[i] else xs[i + 1]
  {
    xs[..k] + xs[k + 1..]
  }

  function RemovedFirst(groups: seq<Group>, grpid: string): seq<Group> {
    match FirstIndex(groups, grpid)
    case None => groups
    case Some(k) => RemovedAt(groups, k)
  }

  /** `p2p_group_get`: the state afterwards, and the index of the group it returns. */
  function Looked(s: State, grpid: string, interfaces: Option<seq<Interface>>): (r: (State, Option<nat>))
    ensures r.1.Some? ==> r.1.value < |r.0.groups|
  {
    if FirstIndex(s.groups, grpid).Some? then (s, FirstIndex(s.groups, grpid))
    else
      match Discover(grpid, interfaces)
      case None => (s, None)
      case Some(i) =>
        (Added(s, i.name, IsGo(i), grpid, WantedSsid(grpid).value), Some(0))
  }

  /** Clear the role flag of group `k` and remove the first group with the id. */
  function Dropped(s: State, k: nat, grpid: string): State
    requires k < |s.groups|
  {
    var go := s.groups[k].go;
    State(s.go && !go, s.client && go, RemovedFirst(s.groups, grpid))
  }

  /** `cmd_sta_p2p_dissolve` with a group id. */
  function Dissolved(s: State, grpid: string, interfaces: Option<seq<Interface>>): State {
    var (s', found) := Looked(s, grpid, interfaces);
    match found
    case None => s'
    case Some(k) => Dropped(s', k, grpid)
  }

  datatype Op =
    | Add(ifname: string, go: bool, grpid: string, ssid: string)
    | Lookup(grpid: string, interfaces: Option<seq<Interface>>)
    | Dissolve(grpid: string, interfaces: Option<seq<Interface>>)
    | Reset

  function Step(s: State, op: Op): State {
    match op
    case Add(ifname, go, grpid, ssid) => Added(s, ifname, go, grpid, ssid)
    case Lookup(grpid, interfaces) => Looked(s, grpid, interfaces).0
    case Dissolve(grpid, interfaces) => Dissolved(s, grpid, interfaces)
    case Reset => NO_GROUPS
  }

  function Run(ops: seq<Op>): State {
    if ops == [] then NO_GROUPS else Step(Run(ops[..|ops| - 1]), ops[|ops| - 1])
  }

  lemma RunOneMore(ops: seq<Op>, op: Op)
    ensures Run(ops + [op]) == Step(Run(ops), op)
  {
    assert (ops + [op])[..|ops|] == ops;
  }

  ghost predicate Lists(s: State, go: bool) {
    exists i :: 0 <= i < |s.groups| && s.groups[i].go == go
  }

  /** A role flag is only set while a group in that role is listed. */
  ghost predicate FlagsBacked(s: State) {
    (s.go ==> Lists(s, true)) && (s.client ==> Lists(s, false))
  }

  lemma AddedBacked(s: State, ifname: string, go: bool, grpid: string, ssid: string)
    requires FlagsBacked(s)
    ensures FlagsBacked(Added(s, ifname, go, grpid, ssid))
  {
    var s' := Added(s, ifname, go, grpid, ssid);
    assert s'.groups[0].go == go;
    if s.go {
      var i :| 0 <= i < |s.groups| && s.groups[i].go == true;
      assert s'.groups[i + 1].go == true;
    }
    if s.client {
      var i :| 0 <= i < |s.groups| && s.groups[i].go == false;
      assert s'.groups[i + 1].go == false;
    }
  }

  /** Removing one group keeps a group of every role that the removed one did not have. */
  lemma OthersStay(s: State, k: nat, role: bool)
    requires k < |s.groups| && s.groups[k].go != role && Lists(s, role)
    ensures Lists(s.(groups := RemovedAt(s.groups, k)), role)
  {
    var i :| 0 <= i < |s.groups| && s.groups[i].go == role;
    var rest := RemovedAt(s.groups, k);
    if i < k { assert rest[i].go == role; } else { assert rest[i - 1].go == role; }
  }

  lemma StepBacked(s: State, op: Op)
    requires FlagsBacked(s)
    ensures FlagsBacked(Step(s, op))
  {
    match op {
      case Add(ifname, go, grpid, ssid) => AddedBacked(s, ifname, go, grpid, ssid);
      case Lookup(grpid, interfaces) => LookedBacked(s, grpid, interfaces);
      case Reset =>
      case Dissolve(grpid, interfaces) =>
        LookedBacked(s, grpid, interfaces);
        var (s', found) := Looked(s, grpid, interfaces);
        if found.Some? && FirstIndex(s'.groups, grpid).Some? {
          var k := FirstIndex(s'.groups, grpid).value;
          assert s'.groups[k].go == s'.groups[found.value].go by { FoundIsRemoved(s, grpid, interfaces); }
          if s'.groups[k].go {
            if s'.client { OthersStay(s', k, false); }
          } else if s'.go {
            OthersStay(s', k, true);
          }
        }
    }
  }

  lemma LookedBacked(s: State, grpid: string, interfaces: Option<seq<Interface>>)
    requires FlagsBacked(s)
    ensures FlagsBacked(Looked(s, grpid, interfaces).0)
  {
    match Discover(grpid, interfaces) {
      case None =>
      case Some(i) =>
        AddedBacked(s, i.name, IsGo(i), grpid, WantedSsid(grpid).value);
    }
  }

  /** If the group is removed at all, then it is the one that the lookup returned. */
  lemma FoundIsRemoved(s: State, grpid: string, interfaces: Option<seq<Interface>>)
    ensures var (s', found) := Looked(s, grpid, interfaces);
            && (found.None? ==> FirstIndex(s'.groups, grpid).None?)
            && (found.Some? && FirstIndex(s'.groups, grpid).Some? ==> FirstIndex(s'.groups, grpid) == found)
  {
  }

  /** Over every run, the role flags are backed by listed groups. */
  lemma {:induction false} RunBacked(ops: seq<Op>)
    ensures FlagsBacked(Run(ops))
  {
    if ops != [] {
      RunBacked(ops[..|ops| - 1]);
      StepBacked(Run(ops[..|ops| - 1]), ops[|ops| - 1]);
    }
  }

  /** The role flags are set for exactly the roles in which a group is listed. */
  ghost predicate FlagsMatch(s: State) {
    s.go == Lists(s, true) && s.client == Lists(s, false)
  }

  /** A group besides the one at a position is listed in a role. */
  ghost predicate OtherIn(groups: seq<Group>, k: nat, role: bool) {
    exists i :: 0 <= i < |groups| && i != k && groups[i].go == role
  }

  /**
   What to look at before a group is dissolved: no other group is listed in its role. A group that is still to be
   discovered must have an id that fits, too.
   */
  ghost predicate KeepsMatch(s: State, grpid: string, interfaces: Option<seq<Interface>>) {
    match FirstIndex(s.groups, grpid)
    case Some(k) => !OtherIn(s.groups, k, s.groups[k].go)
    case None =>
      match Discover(grpid, interfaces)
      case None => true
      case Some(i) => |grpid| < GRP_ID_LEN && !Lists(s, IsGo(i))
  }

  lemma ListsWithout(s: State, k: nat, role: bool)
    requires k < |s.groups|
    ensures Lists(s.(groups := RemovedAt(s.groups, k)), role) <==> OtherIn(s.groups, k, role)
  {
    var rest := RemovedAt(s.groups, k);
    if i :| 0 <= i < |rest| && rest[i].go == role {
      assert s.groups[if i < k then i else i + 1].go == role;
    }
    if i :| 0 <= i < |s.groups| && i != k && s.groups[i].go == role {
      assert rest[if i < k then i else i - 1].go == role;
    }
  }

  /** A listed group that is dropped leaves matching flags exactly if it was the only one in its role. */
  lemma DroppedMatches(s: State, k: nat, grpid: string)
    requires FlagsMatch(s) && FirstIndex(s.groups, grpid) == Some(k)
    ensures FlagsMatch(Dropped(s, k, grpid)) <==> !OtherIn(s.groups, k, s.groups[k].go)
  {
    var role := s.groups[k].go;
    ListsWithout(s, k, role);
    ListsWithout(s, k, !role);
    assert Lists(s, !role) <==> OtherIn(s.groups, k, !role);
  }

  lemma ListsMore(s: State, s': State, g: Group, role: bool)
    requires s'.groups == [g] + s.groups
    ensures Lists(s', role) <==> g.go == role || Lists(s, role)
    ensures OtherIn(s'.groups, 0, role) <==> Lists(s, role)
  {
    assert s'.groups[0] == g;
    if i :| 0 <= i < |s.groups| && s.groups[i].go == role {
      assert s'.groups[i + 1].go == role;
    }
    if i :| 0 < i < |s'.groups| && s'.groups[i].go == role {
      assert s.groups[i - 1].go == role;
    }
  }

  lemma AddedMatches(s: State, ifname: string, go: bool, grpid: string, ssid: string)
    requires FlagsMatch(s)
    ensures FlagsMatch(Added(s, ifname, go, grpid, ssid))
    ensures OtherIn(Added(s, ifname, go, grpid, ssid).groups, 0, go) <==> Lists(s, go)
  {
    var s', g := Added(s, ifname, go, grpid, ssid), NewGroup(ifname, go, grpid, ssid);
    ListsMore(s, s', g, true);
    ListsMore(s, s', g, false);
  }

  /** Whatever state the flags match in, they match after a dissolve exactly under that condition. */
  lemma DissolveKeepsMatch(s: State, grpid: string, interfaces: Option<seq<Interface>>)
    requires FlagsMatch(s)
    ensures FlagsMatch(Looked(s, grpid, interfaces).0)
    ensures FlagsMatch(Dissolved(s, grpid, interfaces)) <==> KeepsMatch(s, grpid, interfaces)
  {
    if FirstIndex(s.groups, grpid).Some? {
      DroppedMatches(s, FirstIndex(s.groups, grpid).value, grpid);
    } else if Discover(grpid, interfaces).Some? {
      var i := Discover(grpid, interfaces).value;
      DiscoveredMatches(s, i.name, IsGo(i), grpid, WantedSsid(grpid).value);
    }
  }

  /** The same for a group that is added by the lookup. */
  lemma DiscoveredMatches(s: State, ifname: string, go: bool, grpid: string, ssid: string)
    requires FlagsMatch(s) && FirstIndex(s.groups, grpid).None?
    ensures var s' := Added(s, ifname, go, grpid, ssid);
            && FlagsMatch(s')
            && (FlagsMatch(Dropped(s', 0, grpid)) <==> |grpid| < GRP_ID_LEN && !Lists(s, go))
  {
    var s' := Added(s, ifname, go, grpid, ssid);
    AddedMatches(s, ifname, go, grpid, ssid);
    assert s'.groups[0].go == go && s'.groups[0].grpid == Truncate(grpid, GRP_ID_LEN) && s'.groups[1..] == s.groups;
    if |grpid| < GRP_ID_LEN {
      DroppedMatches(s', 0, grpid);
    } else {
      assert FirstIndex(s'.groups, grpid).None?;
      assert Dropped(s', 0, grpid).groups[0].go == go;
    }
  }

  /** The flags match after every operation of a run. */
  ghost predicate AlwaysMatches(ops: seq<Op>) {
    FlagsMatch(Run(ops)) && (ops == [] || AlwaysMatches(ops[..|ops| - 1]))
  }

  /** Every dissolve of a run meets the condition when it happens. */
  ghost predicate DissolvesKeepMatch(ops: seq<Op>) {
    ops == [] ||
    var before, op := ops[..|ops| - 1], ops[|ops| - 1];
    DissolvesKeepMatch(before) && (op.Dissolve? ==> KeepsMatch(Run(before), op.grpid, op.interfaces))
  }

  /** Over every run the flags match all the way exactly if every dissolve meets the condition. */
  lemma {:induction false} RunMatches(ops: seq<Op>)
    ensures AlwaysMatches(ops) <==> DissolvesKeepMatch(ops)
  {
    if ops != [] {
      var before, op := ops[..|ops| - 1], ops[|ops| - 1];
      RunMatches(before);
      if FlagsMatch(Run(before)) { StepMatches(Run(before), op); }
    } else {
      assert !Lists(NO_GROUPS, true) && !Lists(NO_GROUPS, false);
    }
  }

  lemma StepMatches(s: State, op: Op)
    requires FlagsMatch(s)
    ensures FlagsMatch(Step(s, op)) <==> (op.Dissolve? ==> KeepsMatch(s, op.grpid, op.interfaces))
  {
    match op {
      case Add(ifname, go, grpid, ssid) => AddedMatches(s, ifname, go, grpid, ssid);
      case Lookup(grpid, interfaces) => DissolveKeepsMatch(s, grpid, interfaces);
      case Dissolve(grpid, interfaces) => DissolveKeepsMatch(s, grpid, interfaces);
      case Reset => assert !Lists(NO_GROUPS, true) && !Lists(NO_GROUPS, false);
    }
  }

  /** A run on which they do not: a second group outlives its flag. */
  lemma FlagCanBeMissing(a: string, b: string)
    requires a != b && |a| < GRP_ID_LEN && |b| < GRP_ID_LEN
    ensures var s := Run([Add("p2p0", true, a, "x"), Add("p2p1", true, b, "y"), Dissolve(a, None)]);
            !s.go && Lists(s, true)
  {
    var ops := [Add("p2p0", true, a, "x"), Add("p2p1", true, b, "y"), Dissolve(a, None)];
    assert ops[..2][..1][..0] == [];
    assert ops[..2][1] == ops[1] && ops[..2][..1][0] == ops[0];
    var s1 := Run(ops[..2][..1]);
    var s2 := Run(ops[..2]);
    assert Run(ops[..2][..1][..0]) == NO_GROUPS;
    assert s1 == Added(NO_GROUPS, "p2p0", true, a, "x");
    assert s2 == Added(s1, "p2p1", true, b, "y");
    assert s2.groups[0].grpid == b && s2.groups[1].grpid == a;
    assert FirstIndex(s2.groups, a) == Some(1);
    var s := Run(ops);
    assert s.groups[0].go;
  }

  /**
   Dissolving takes exactly the group that the lookup returned out of the list and
   keeps the order of the others, if and only if the group was listed already or
   its id fits the id field. A longer id stays listed, cut off, with its flag cleared.
   */
  lemma DissolveRemovesFound(s: State, grpid: string, interfaces: Option<seq<Interface>>)
    ensures var (s', found) := Looked(s, grpid, interfaces);
            found.Some? ==>
              (Dissolved(s, grpid, interfaces).groups == RemovedAt(s'.groups, found.value)
               <==> FirstIndex(s.groups, grpid).Some? || |grpid| < 128)
  {
    var (s', found) := Looked(s, grpid, interfaces);
    if found.Some? && FirstIndex(s.groups, grpid).None? {
      assert s'.groups[0].grpid == Truncate(grpid, GRP_ID_LEN);
      assert s'.groups[1..] == s.groups;
      if |grpid| >= GRP_ID_LEN {
        assert forall j :: 0 <= j < |s'.groups| ==> s'.groups[j].grpid != grpid;
        assert |Dissolved(s, grpid, interfaces).groups| == |s'.groups|;
      }
    }
  }

  // ------------------------------------------------------------------ on nodes

  /** `struct wfa_cs_p2p_group`; once a group is listed only its link changes. */
  class Node {
    const group: Group
    var next: Node?

    constructor (group: Group, next: Node?)
      ensures this.group == group && this.next == next
    {
      this.group, this.next := group, next;
    }
  }

  ghost function GroupsOf(nodes: seq<Node>): (r: seq<Group>)
    ensures |r| == |nodes| && forall i :: 0 <= i < |nodes| ==> r[i] == nodes[i].group
  {
    seq(|nodes|, i requires 0 <= i < |nodes| => nodes[i].group)
  }

  ghost predicate Distinct(nodes: seq<Node>) {
    forall i, j :: 0 <= i < j < |nodes| ==> nodes[i] != nodes[j]
  }

  /** `head` starts a list that runs through `nodes` and then ends. */
  ghost predicate Linked(head: Node?, nodes: seq<Node>)
    reads nodes
  {
    && head == At(nodes, 0)
    && forall i {:trigger nodes[i]} :: 0 <= i < |nodes| ==> nodes[i].next == At(nodes, i + 1)
  }

  /** The node at a position, and null behind the last one. */
  ghost function At(nodes: seq<Node>, i: nat): Node? {
    if i < |nodes| then nodes[i] else null
  }

  ghost predicate NoneFreed(nodes: seq<Node>, freed: seq<Node>) {
    forall n :: n in nodes ==> n !in freed
  }

  lemma DistinctWithout(nodes: seq<Node>, k: nat)
    requires Distinct(nodes) && k < |nodes|
    ensures Distinct(RemovedAt(nodes, k)) && nodes[k] !in RemovedAt(nodes, k)
    ensures GroupsOf(RemovedAt(nodes, k)) == RemovedAt(GroupsOf(nodes), k)
  {
  }

  lemma AtBehind(node: Node, nodes: seq<Node>, i: nat)
    requires 0 < i
    ensures At([node] + nodes, i) == At(nodes, i - 1)
  {}

  lemma LinkedFront(node: Node, nodes: seq<Node>)
    requires Distinct(nodes) && node !in nodes && node.next == At(nodes, 0) && Linked(At(nodes, 0), nodes)
    ensures Distinct([node] + nodes) && Linked(node, [node] + nodes)
    ensures GroupsOf([node] + nodes) == [node.group] + GroupsOf(nodes)
  {
    var longer := [node] + nodes;
    forall i | 0 <= i < |longer| ensures longer[i].next == At(longer, i + 1) {
      AtBehind(node, nodes, i + 1);
      if i > 0 { AtBehind(node, nodes, i); }
    }
  }

  lemma NextOf(all: seq<Node>, m: nat, before: seq<Node>, prev: Node)
    requires m < |all| && prev == all[m..][0]
    ensures all[m..][1..] == all[m + 1..]
    ensures before + all[..m] + [prev] == before + all[..m + 1]
  {
  }

  lemma FreedWithout(nodes: seq<Node>, freed: seq<Node>, k: nat)
    requires Distinct(nodes) && k < |nodes| && NoneFreed(nodes, freed)
    ensures NoneFreed(RemovedAt(nodes, k), freed + [nodes[k]])
  {
    DistinctWithout(nodes, k);
    forall n | n in RemovedAt(nodes, k) ensures n in nodes {}
  }

  /** Once its predecessor, or the head, skips a node, the rest is a list. */
  lemma LinkedWithout(head: Node?, nodes: seq<Node>, k: nat)
    requires Distinct(nodes) && k < |nodes|
    requires head == if k == 0 then At(nodes, 1) else nodes[0]
    requires forall i {:trigger nodes[i]} :: 0 <= i < |nodes| && i != k ==>
               nodes[i].next == if i + 1 == k then At(nodes, k + 1) else At(nodes, i + 1)
    ensures Linked(head, RemovedAt(nodes, k))
  {
    var rest := RemovedAt(nodes, k);
    forall i | 0 <= i < |rest| ensures rest[i].next == At(rest, i + 1) {
      assert rest[i] == if i < k then nodes[i] else nodes[i + 1];
    }
  }

  /** `struct sigma_dut` as far as P2P groups go, and the allocator's view of the nodes. */
  class Device {
    var go: bool
    var client: bool
    var head: Node?
    ghost var nodes: seq<Node>
    /** The nodes given back to the allocator, in order. */
    ghost var freed: seq<Node>
    /** The operations so far. */
    ghost var ops: seq<Op>

    /** The list is sound, and none of its nodes has been freed. */
    ghost predicate Valid()
      reads this, nodes
    {
      Distinct(nodes) && Linked(head, nodes) && NoneFreed(nodes, freed)
    }

    ghost function Abstract(): State
      reads this
    {
      State(go, client, GroupsOf(nodes))
    }

    /** The heap list is what the operations so far have made of it. */
    ghost predicate Recorded()
      reads this
    {
      Abstract() == Run(ops)
    }

    constructor ()
      ensures Valid() && Recorded() && ops == []
      ensures Abstract() == NO_GROUPS && freed == [] && nodes == []
    {
      go, client, head := false, false, null;
      nodes, freed, ops := [], [], [];
    }

    /** Note an operation that has been carried out since `before`. */
    ghost method Record(before: seq<Op>, op: Op)
      requires Abstract() == Step(Run(before), op)
      modifies `ops
      ensures Recorded() && ops == before + [op]
    {
      RunOneMore(before, op);
      ops := before + [op];
    }

    /** `p2p_group_add`, with memory available. */
    method GroupAdd(ifname: string, isGo: bool, grpid: string, ssid: string)
      requires Valid() && Recorded()
      modifies this
      ensures Valid() && freed == old(freed)
      ensures Recorded() && ops == old(ops) + [Add(ifname, isGo, grpid, ssid)]
      ensures |nodes| > 0 && fresh(nodes[0]) && nodes == [nodes[0]] + old(nodes)
      ensures Abstract() == Added(old(Abstract()), ifname, isGo, grpid, ssid)
    {
      if isGo { go := true; } else { client := true; }
      Prepend(NewGroup(ifname, isGo, grpid, ssid));
      Record(ops, Add(ifname, isGo, grpid, ssid));
    }

    method Prepend(group: Group)
      requires Valid()
      modifies `head, `nodes
      ensures Valid()
      ensures |nodes| > 0 && fresh(nodes[0]) && nodes == [nodes[0]] + old(nodes)
      ensures GroupsOf(nodes) == [group] + GroupsOf(old(nodes))
    {
      var node := new Node(group, head);
      LinkedFront(node, nodes);
      head := node;
      nodes := [node] + nodes;
    }

    /** `free`: only of a node that has not been freed. */
    ghost method Free(n: Node)
      requires n !in freed
      modifies `freed
      ensures freed == old(freed) + [n]
    {
      freed := freed + [n];
    }

    /** The index of the first listed node with the id, found by walking the links; also its predecessor. */
    method Locate(grpid: string) returns (prev: Node?, grp: Node?, ghost k: nat)
      requires Valid()
      ensures grp == null ==> FirstIndex(GroupsOf(nodes), grpid).None?
      ensures grp != null ==> k < |nodes| && grp == nodes[k] && FirstIndex(GroupsOf(nodes), grpid) == Some(k)
      ensures grp != null ==> prev == if k == 0 then null else nodes[k - 1]
    {
      prev, grp, k := null, head, 0;
      while grp != null
        invariant k <= |nodes| && grp == At(nodes, k)
        invariant prev == if k == 0 then null else nodes[k - 1]
        invariant forall j :: 0 <= j < k ==> GroupsOf(nodes)[j].grpid != grpid
        decreases |nodes| - k
      {
        assert grp in nodes && grp !in freed;
        if grp.group.grpid == grpid { return; }
        prev, grp, k := grp, grp.next, k + 1;
      }
    }

    /** `p2p_group_remove`: unlink and free the first node with the id. */
    method GroupRemove(grpid: string) returns (ok: bool)
      requires Valid()
      modifies `head, `nodes, `freed, nodes
      ensures Valid()
      ensures ok == FirstIndex(GroupsOf(old(nodes)), grpid).Some?
      ensures GroupsOf(nodes) == RemovedFirst(GroupsOf(old(nodes)), grpid)
      ensures !ok ==> nodes == old(nodes) && freed == old(freed)
      ensures ok ==>
                var k := FirstIndex(GroupsOf(old(nodes)), grpid).value;
                nodes == RemovedAt(old(nodes), k) && freed == old(freed) + [old(nodes)[k]]
    {
      var prev, grp;
      ghost var k;
      prev, grp, k := Locate(grpid);
      if grp == null { return false; }
      DistinctWithout(nodes, k);
      UnlinkAt(prev, grp, k);
      ok := true;
    }

    method UnlinkAt(prev: Node?, grp: Node, ghost k: nat)
      requires Valid() && k < |nodes| && grp == nodes[k] && prev == if k == 0 then null else nodes[k - 1]
      modifies `head, `nodes, `freed, nodes
      ensures Valid() && nodes == RemovedAt(old(nodes), k) && freed == old(freed) + [grp]
    {
      DistinctWithout(nodes, k);
      FreedWithout(nodes, freed, k);
      Bypass(prev, grp, k);
      nodes := RemovedAt(nodes, k);
      Free(grp);
    }

    /** The pointer update: the predecessor, or the head, skips the node. */
    method Bypass(prev: Node?, grp: Node, ghost k: nat)
      requires Distinct(nodes) && Linked(head, nodes)
      requires k < |nodes| && grp == nodes[k] && prev == if k == 0 then null else nodes[k - 1]
      modifies `head, nodes
      ensures Linked(head, RemovedAt(nodes, k))
    {
      assert grp.next == At(nodes, k + 1);
      if prev != null {
        prev.next := grp.next;
        assert forall i {:trigger nodes[i]} :: 0 <= i < |nodes| && i != k - 1 ==> nodes[i].next == At(nodes, i + 1);
      } else {
        head := grp.next;
      }
      LinkedWithout(head, nodes, k);
    }

    /** The word loop over the answer to LIST_NETWORKS. */
    static method ScanNetworks(networks: string, ssid: string) returns (found: bool)
      ensures found == CurrentNetwork(networks, ssid)
    {
      var line := networks;
      while line != ""
        invariant CurrentNetwork(line, ssid) == CurrentNetwork(networks, ssid)
        decreases |line|
      {
        var end := IndexOf(line, ' ');
        var word := if end.Some? then line[..end.value] else line;
        if Contains(word, ssid) && Contains(word, "[CURRENT]") {
          return true;
        }
        line := if end.Some? then line[end.value + 1..] else "";
      }
      found := false;
    }

    /** The interface loop over the answer to INTERFACES. */
    static method SelectInterface(supplicant: Supplicant, reply: string, ssid: string) returns (r: Option<Interface>)
      ensures r == FirstSelected(supplicant.InterfacesIn(reply), ssid)
    {
      var ifname := reply;
      while ifname != ""
        invariant FirstSelected(supplicant.InterfacesIn(ifname), ssid) ==
                  FirstSelected(supplicant.InterfacesIn(reply), ssid)
        decreases |ifname|
      {
        var pos := IndexOf(ifname, '\n');
        var i := supplicant.Ask(if pos.Some? then ifname[..pos.value] else ifname);
        var add := i.status.Some? && Contains(i.status.value, ssid);
        if !add && i.networks.Some? {
          add := ScanNetworks(i.networks.value, ssid);
        }
        assert add == Selects(i, ssid);
        if add { return Some(i); }
        ifname := if pos.Some? then ifname[pos.value + 1..] else "";
      }
      r := None;
    }

    /** `p2p_group_get`: look the id up, or take over a group that the supplicant runs. */
    method GroupGet(grpid: string, supplicant: Supplicant) returns (grp: Node?)
      requires Valid() && Recorded()
      modifies this
      ensures Valid() && freed == old(freed)
      ensures Recorded() && ops == old(ops) + [Lookup(grpid, supplicant.Interfaces())]
      ensures nodes == old(nodes) || (|nodes| > 0 && fresh(nodes[0]) && nodes == [nodes[0]] + old(nodes))
      ensures Abstract() == Looked(old(Abstract()), grpid, supplicant.Interfaces()).0
      ensures var found := Looked(old(Abstract()), grpid, supplicant.Interfaces()).1;
              grp == if found.Some? then nodes[found.value] else null
      ensures nodes != old(nodes) ==> grp == nodes[0] && IsTakenOver(grp.group, grpid, supplicant)
      ensures nodes != old(nodes) ==> go == (old(go) || grp.group.go) && client == (old(client) || !grp.group.go)
      ensures grp == null ==> NothingRuns(grpid, supplicant)
    {
      ghost var found := Discover(grpid, supplicant.Interfaces());
      if found.Some? {
        DiscoveredIsTakenOver(grpid, supplicant, found.value);
      } else {
        NothingIsMissed(grpid, supplicant);
      }
      grp := LookUp(grpid, supplicant);
      Record(old(ops), Lookup(grpid, supplicant.Interfaces()));
    }

    method LookUp(grpid: string, supplicant: Supplicant) returns (grp: Node?)
      requires Valid() && Recorded()
      modifies this
      ensures Valid() && freed == old(freed)
      ensures nodes == old(nodes) || (|nodes| > 0 && fresh(nodes[0]) && nodes == [nodes[0]] + old(nodes))
      ensures Abstract() == Looked(old(Abstract()), grpid, supplicant.Interfaces()).0
      ensures var found := Looked(old(Abstract()), grpid, supplicant.Interfaces()).1;
              grp == if found.Some? then nodes[found.value] else null
    {
      var prev;
      ghost var k;
      prev, grp, k := Locate(grpid);
      if grp != null { return; }
      var ssid := WantedSsid(grpid);
      if ssid.None? || supplicant.reply.None? { return; }
      var i := SelectInterface(supplicant, supplicant.reply.value, ssid.value);
      if i.None? { return; }
      GroupAdd(i.value.name, IsGo(i.value), grpid, ssid.value);
      grp := head;
    }

    method ClearFlag(group: Group)
      modifies `go, `client
      ensures go == (old(go) && !group.go) && client == (old(client) && group.go)
    {
      if group.go { go := false; } else { client := false; }
    }

    method DropGroup(grp: Node, ghost k: nat, grpid: string)
      requires Valid() && k < |nodes| && grp == nodes[k]
      modifies this, nodes
      ensures Valid() && Abstract() == Dropped(old(Abstract()), k, grpid)
    {
      assert grp in nodes && grp !in freed;
      ClearFlag(grp.group);
      ghost var groups := GroupsOf(nodes);
      assert groups[k] == grp.group && groups == old(Abstract()).groups;
      var removed := GroupRemove(grpid);
      assert GroupsOf(nodes) == RemovedFirst(groups, grpid);
    }

    /** `cmd_sta_p2p_dissolve`: -1 without a group id, 0 with an error sent, 1 for success. */
    method CmdDissolve(grpid: Option<string>, supplicant: Supplicant) returns (r: int)
      requires Valid() && Recorded()
      modifies this, nodes
      ensures Valid() && Recorded()
      ensures ops == old(ops) + if grpid.None? then [] else [Dissolve(grpid.value, supplicant.Interfaces())]
      ensures r == if grpid.None? then -1
                   else if Looked(old(Abstract()), grpid.value, supplicant.Interfaces()).1.None? then 0 else 1
      ensures Abstract() == if grpid.None? then old(Abstract())
                            else Dissolved(old(Abstract()), grpid.value, supplicant.Interfaces())
    {
      if grpid.None? { return -1; }
      var grp := GroupGet(grpid.value, supplicant);
      r := 0;
      if grp != null {
        DropGroup(grp, Looked(old(Abstract()), grpid.value, supplicant.Interfaces()).1.value, grpid.value);
        r := 1;
      }
      Record(old(ops), Dissolve(grpid.value, supplicant.Interfaces()));
    }

    /** Remove by the id of the head, which can only hit the head itself. */
    method RemoveHead(prev: Node)
      requires Valid() && head == prev
      modifies `head, `nodes, `freed, nodes
      ensures Valid() && head == old(prev.next)
      ensures nodes == old(nodes)[1..] && freed == old(freed) + [prev]
    {
      assert prev == nodes[0] && prev !in freed;
      assert GroupsOf(nodes)[0] == prev.group;
      assert At(nodes, 1) == prev.next;
      var removed := GroupRemove(prev.group.grpid);
      assert RemovedAt(old(nodes), 0) == old(nodes)[1..];
    }

    /** The reset loop. */
    method FreeAll()
      requires Valid()
      modifies `head, `nodes, `freed, nodes
      ensures Valid() && nodes == [] && freed == old(freed) + old(nodes)
    {
      var grp := head;
      ghost var all, before, m := nodes, freed, 0;
      while grp != null
        invariant Valid() && 0 <= m <= |all| && grp == head
        invariant nodes == all[m..] && freed == before + all[..m]
        decreases |all| - m
      {
        var prev := grp;
        NextOf(all, m, before, prev);
        grp := grp.next;
        RemoveHead(prev);
        m := m + 1;
      }
    }

    /**
     The list part of `cmd_sta_p2p_reset`. Whatever the ids are, every node is freed
     exactly once, in list order, and none is touched after that.
     */
    method CmdReset()
      requires Valid() && Recorded()
      modifies this, nodes
      ensures Valid() && nodes == [] && head == null
      ensures Recorded() && ops == old(ops) + [Reset]
      ensures freed == old(freed) + old(nodes)
      ensures Abstract() == NO_GROUPS
    {
      go, client := false, false;
      FreeAll();
      Record(old(ops), Reset);
    }
  }

  /** One of the nodes is a group in that role. */
  ghost predicate RoleListed(nodes: seq<Node>, role: bool) {
    exists i :: 0 <= i < |nodes| && nodes[i].group.go == role
  }

  lemma RoleListedLists(d: Device, role: bool)
    ensures RoleListed(d.nodes, role) <==> Lists(d.Abstract(), role)
  {
    if i :| 0 <= i < |d.nodes| && d.nodes[i].group.go == role {
      assert d.Abstract().groups[i].go == role;
    }
    if i :| 0 <= i < |d.nodes| && d.Abstract().groups[i].go == role {
      assert d.nodes[i].group.go == role;
    }
  }

  /**
   Whatever operations a device has gone through, its role flags are backed by nodes of
   its list. If no dissolve on the way broke the condition, they also miss none.
   */
  lemma DeviceFlags(d: Device)
    requires d.Valid() && d.Recorded()
    ensures d.go ==> RoleListed(d.nodes, true)
    ensures d.client ==> RoleListed(d.nodes, false)
    ensures DissolvesKeepMatch(d.ops) ==>
              d.go == RoleListed(d.nodes, true) && d.client == RoleListed(d.nodes, false)
  {
    RunBacked(d.ops);
    RunMatches(d.ops);
    RoleListedLists(d, true);
    RoleListedLists(d, false);
  }
}
