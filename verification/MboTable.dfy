/** The neighbour table for Multi Band Operation: a bounded array of access points that commands merge into. */
module MboTable {
  import opened CText

  /** The six octets of an address, as one number. */
  type Mac = m: int | 0 <= m < 0x1_0000_0000_0000

  /** MBO_MAX_PREF_BSSIDS */
  const CAPACITY: nat := 10

  const UNSET := -1

  datatype Field = Class | Channel | Pref

  /** `struct mbo_pref_ap` */
  datatype Entry = Entry(mac: Mac, class_: int, channel: int, pref: int) {
    function Get(f: Field): int {
      match f case Class => class_ case Channel => channel case Pref => pref
    }

    /** What is set in the command replaces what is here. */
    function Merged(c: Command): (e: Entry)
      ensures e.mac == mac && forall f: Field :: e.Get(f) == if c.Get(f) != UNSET then c.Get(f) else Get(f)
    {
      Entry(mac, if c.class_ != UNSET then c.class_ else class_, if c.channel != UNSET then c.channel else channel,
            if c.pref != UNSET then c.pref else pref)
    }
  }

  /** A neighbour command: the address, None if it is missing or malformed, and three numbers, UNSET if not given. */
  datatype Command = Command(bssid: Option<Mac>, class_: int, channel: int, pref: int) {
    function Get(f: Field): int {
      match f case Class => class_ case Channel => channel case Pref => pref
    }
  }

  // ------------------------------------------------------------------- history

  /** All that has happened to the table since the program was started. */
  datatype Run = Boot | Reset(before: Run, mbo: bool) | Then(before: Run, cmd: Command)

  /** The neighbours that the table knows, in the order of their first command. */
  function Known(run: Run, own: Mac): seq<Mac>
    decreases run, 0
  {
    match run
    case Boot => []
    case Reset(_, _) => []
    case Then(before, c) =>
      var known := Known(before, own);
      if Accepts(before, c, own) && c.bssid.value != own && c.bssid.value !in known then known + [c.bssid.value]
      else known
  }

  /** A command is refused if the table is full, whatever access point it is for. */
  predicate Accepts(run: Run, c: Command, own: Mac)
    decreases run, 1
  {
    c.bssid.Some? && |Known(run, own)| < CAPACITY
  }

  /** The last value that an accepted command has set for one field of one access point since the reset. */
  function LastSet(run: Run, own: Mac, m: Mac, f: Field): int {
    match run
    case Boot => if m == own then 0 else UNSET
    case Reset(before, mbo) => if mbo || m != own then UNSET else LastSet(before, own, m, f)
    case Then(before, c) =>
      if Accepts(before, c, own) && c.bssid.value == m && c.Get(f) != UNSET then c.Get(f)
      else LastSet(before, own, m, f)
  }

  function Tuple(run: Run, own: Mac, m: Mac): Entry {
    Entry(m, LastSet(run, own, m, Class), LastSet(run, own, m, Channel), LastSet(run, own, m, Pref))
  }

  /** Addresses stay distinct, none is the own one, and there is room for all of them. */
  lemma {:induction false} KnownIsASet(run: Run, own: Mac)
    ensures |Known(run, own)| <= 10 && own !in Known(run, own)
    ensures forall i, j :: 0 <= i < j < |Known(run, own)| ==> Known(run, own)[i] != Known(run, own)[j]
  {
    if run.Then? { KnownIsASet(run.before, own); }
  }

  /** An access point other than the own one that the table does not know has nothing set. */
  lemma {:induction false} UnknownIsUnset(run: Run, own: Mac, m: Mac, f: Field)
    requires m != own && m !in Known(run, own)
    ensures LastSet(run, own, m, f) == UNSET
  {
    if run.Then? {
      UnknownIsUnset(run.before, own, m, f);
    }
  }

  /** A run that goes on with more commands and no reset. */
  function After(run: Run, cmds: seq<Command>): Run
    decreases |cmds|
  {
    if cmds == [] then run else After(Then(run, cmds[0]), cmds[1..])
  }

  /** Once the table is full no command changes anything, not even for access points that it knows. */
  lemma {:induction false} FullIsFrozen(run: Run, own: Mac, cmds: seq<Command>)
    requires |Known(run, own)| == 10
    ensures Known(After(run, cmds), own) == Known(run, own)
    ensures forall m, f :: LastSet(After(run, cmds), own, m, f) == LastSet(run, own, m, f)
    decreases |cmds|
  {
    if cmds != [] { FullIsFrozen(Then(run, cmds[0]), own, cmds[1..]); }
  }

  /** Giving a command again changes nothing, also when the first one took the last place. */
  lemma RepeatChangesNothing(run: Run, own: Mac, c: Command)
    ensures var once, twice := Then(run, c), Then(Then(run, c), c);
            && Known(twice, own) == Known(once, own)
            && forall m, f :: LastSet(twice, own, m, f) == LastSet(once, own, m, f)
  {}

  /** The entries that this history leaves in the table. */
  function Entries(run: Run, own: Mac): (es: seq<Entry>)
    ensures |es| == |Known(run, own)|
    ensures forall i :: 0 <= i < |es| ==> es[i] == Tuple(run, own, Known(run, own)[i])
  {
    var known := Known(run, own);
    seq(|known|, i requires 0 <= i < |known| => Tuple(run, own, known[i]))
  }

  predicate Has(es: seq<Entry>, mac: Mac) {
    exists i :: 0 <= i < |es| && es[i].mac == mac
  }

  function Updated(es: seq<Entry>, mac: Mac, c: Command): (r: seq<Entry>)
    ensures |r| == |es| && forall i :: 0 <= i < |es| ==> r[i] == if es[i].mac == mac then es[i].Merged(c) else es[i]
  {
    seq(|es|, i requires 0 <= i < |es| => if es[i].mac == mac then es[i].Merged(c) else es[i])
  }

  /** An entry is merged into, or added as long as there is room. */
  function Absorb(es: seq<Entry>, mac: Mac, c: Command): seq<Entry> {
    if Has(es, mac) then Updated(es, mac, c)
    else if |es| < CAPACITY then es + [Entry(mac, UNSET, UNSET, UNSET).Merged(c)]
    else es
  }

  lemma TupleMerges(run: Run, own: Mac, c: Command, m: Mac)
    requires Accepts(run, c, own)
    ensures Tuple(Then(run, c), own, m) ==
            if c.bssid.value == m then Tuple(run, own, m).Merged(c) else Tuple(run, own, m)
  {}

  lemma AbsorbingFollowsHistory(run: Run, own: Mac, c: Command)
    requires Accepts(run, c, own) && c.bssid.value != own
    ensures Absorb(Entries(run, own), c.bssid.value, c) == Entries(Then(run, c), own)
  {
    var m := c.bssid.value;
    var es, later := Entries(run, own), Entries(Then(run, c), own);
    var known := Known(run, own);
    forall i | 0 <= i < |es| ensures later[i] == if known[i] == m then es[i].Merged(c) else es[i] {
      TupleMerges(run, own, c, known[i]);
    }
    if m in known {
      var i :| 0 <= i < |known| && known[i] == m;
      assert es[i].mac == m;
    } else {
      UnknownIsUnset(run, own, m, Class);
      UnknownIsUnset(run, own, m, Channel);
      UnknownIsUnset(run, own, m, Pref);
      TupleMerges(run, own, c, m);
    }
  }

  // -------------------------------------------------------------------- emission

  /** The arguments of one `setbssidpref`. */
  datatype Sent = Sent(mac: Mac, pref: int, class_: int, channel: int)

  /** What is sent for a neighbour is what was last set for it, with preference 255, class 1 and channel 1 if unset. */
  predicate IsNeighbour(s: Sent, run: Run, own: Mac, m: Mac) {
    && s.mac == m
    && s.pref == (if LastSet(run, own, m, Pref) == -1 then 255 else LastSet(run, own, m, Pref))
    && s.class_ == (if LastSet(run, own, m, Class) == -1 then 1 else LastSet(run, own, m, Class))
    && s.channel == (if LastSet(run, own, m, Channel) == -1 then 1 else LastSet(run, own, m, Channel))
  }

  /** The own tuple is for the channel that is in use, unless it is set, and comes below every neighbour. */
  ghost predicate IsOwn(s: Sent, run: Run, own: Mac, apChannel: int, sent: seq<Sent>) {
    var class_, channel, pref :=
      LastSet(run, own, own, Class), LastSet(run, own, own, Channel), LastSet(run, own, own, Pref);
    && s.mac == own
    && s.class_ == (if class_ != -1 then class_ else if apChannel <= 11 then 81 else 115)
    && s.channel == (if channel != -1 then channel else apChannel)
    && if pref != -1 then s.pref == pref else IsJustBelow(s.pref, sent)
  }

  /** The greatest number up to 255 that is below all preferences. */
  ghost predicate IsJustBelow(pref: int, sent: seq<Sent>) {
    && pref <= 255
    && (forall i :: 0 <= i < |sent| ==> pref < sent[i].pref)
    && (pref == 255 || exists i :: 0 <= i < |sent| && sent[i].pref == pref + 1)
  }

  /** It is a preference that can be sent, none below zero, exactly if no neighbour is at zero or below. */
  lemma OwnPreferenceIsNatural(pref: int, sent: seq<Sent>)
    requires IsJustBelow(pref, sent)
    ensures pref >= 0 <==> forall i :: 0 <= i < |sent| ==> sent[i].pref > 0
  {}

  // ----------------------------------------------------------------------- table

  class Table {
    const own: Mac
    var aps: array<Entry>
    var cnt: nat
    var self: Entry
    ghost var run: Run

    /** The table is exactly what its history says. */
    ghost predicate Valid()
      reads this, aps
    {
      && aps.Length == CAPACITY && cnt <= CAPACITY
      && aps[..cnt] == Entries(run, own)
      && self == Tuple(run, own, own)
    }

    constructor (mac: Mac)
      ensures Valid() && own == mac && run == Boot && fresh(aps)
    {
      own := mac;
      aps := new Entry[CAPACITY](_ => Entry(0, 0, 0, 0));
      cnt := 0;
      self := Entry(mac, 0, 0, 0);
      run := Boot;
    }

    /** The two parts of `cmd_ap_reset_default` that touch the table. */
    method ResetDefault(mbo: bool)
      requires Valid()
      modifies this
      ensures Valid() && aps == old(aps) && run == Reset(old(run), mbo)
    {
      cnt := 0;
      if mbo { self := Entry(own, UNSET, UNSET, UNSET); }
      run := Reset(run, mbo);
    }

    /** `mbo_find_nebor_ap_entry` */
    method Find(mac: Mac) returns (at: Option<nat>)
      requires cnt <= aps.Length
      ensures at.Some? ==> at.value < cnt && aps[at.value].mac == mac
      ensures at.None? <==> !Has(aps[..cnt], mac)
    {
      for i := 0 to cnt
        invariant forall j :: 0 <= j < i ==> aps[j].mac != mac
      {
        if aps[i].mac == mac {
          assert aps[..cnt][i].mac == mac;
          return Some(i);
        }
      }
      return None;
    }

    /** `mbo_add_nebor_entry` */
    method AddEntry(mac: Mac, c: Command)
      requires aps.Length == CAPACITY && cnt <= CAPACITY
      requires forall i, j :: 0 <= i < j < cnt ==> aps[i].mac != aps[j].mac
      modifies this, aps
      ensures aps == old(aps) && cnt <= CAPACITY && run == old(run)
      ensures mac == own ==> self == old(self).Merged(c) && aps[..cnt] == old(aps[..cnt])
      ensures mac != own ==> self == old(self) && aps[..cnt] == Absorb(old(aps[..cnt]), mac, c)
    {
      if mac == own {
        self := self.Merged(c);
        return;
      }
      var at := Find(mac);
      if at.None? {
        if cnt >= CAPACITY { return; }
        aps[cnt] := Entry(mac, UNSET, UNSET, UNSET).Merged(c);
        cnt := cnt + 1;
      } else {
        aps[at.value] := aps[at.value].Merged(c);
      }
    }

    /** `ath_set_nebor_bssid`: refused commands return false and send nothing. */
    method SetNeighbour(c: Command, apChannel: int) returns (ok: bool, sent: seq<Sent>)
      requires Valid()
      modifies this, aps
      ensures Valid() && aps == old(aps) && run == Then(old(run), c)
      ensures ok == Accepts(old(run), c, own)
      ensures if ok then IsSent(sent, apChannel) else sent == []
    {
      KnownIsASet(run, own);
      ghost var before := run;
      if cnt >= CAPACITY || c.bssid.None? {
        run := Then(run, c);
        RefusedChangesNothing(before, own, c);
        return false, [];
      }
      assert forall i :: 0 <= i < cnt ==> aps[i].mac == Known(run, own)[i];
      AddEntry(c.bssid.value, c);
      run := Then(run, c);
      TupleMerges(before, own, c, own);
      if c.bssid.value == own {
        OwnKeepsEntries(before, own, c);
      } else {
        AbsorbingFollowsHistory(before, own, c);
      }
      sent := Apply(apChannel);
      ok := true;
    }

    /** What is sent for the table as it is: the clearing line, the neighbours in order, and the own tuple. */
    ghost predicate IsSent(sent: seq<Sent>, apChannel: int)
      requires Valid()
      reads this, aps
    {
      && |sent| == cnt + 2 && sent[0] == Sent(0, 0, 0, 0)
      && (forall i :: 0 <= i < cnt ==> IsNeighbour(sent[i + 1], run, own, Known(run, own)[i]))
      && IsOwn(sent[cnt + 1], run, own, apChannel, sent[1..cnt + 1])
    }

    /** `apply_mbo_pref_ap_list` */
    method Apply(apChannel: int) returns (sent: seq<Sent>)
      requires Valid()
      ensures IsSent(sent, apChannel)
    {
      var list, leastPref := SendNeighbours();
      var class_ := if self.class_ == UNSET then (if apChannel <= 11 then 81 else 115) else self.class_;
      var channel := if self.channel == UNSET then apChannel else self.channel;
      var pref := if self.pref == UNSET then leastPref - 1 else self.pref;
      sent := [Sent(0, 0, 0, 0)] + list + [Sent(own, pref, class_, channel)];
      assert sent[1..cnt + 1] == list;
      assert forall i :: 0 <= i < cnt ==> sent[i + 1] == list[i];
    }

    /** Its loop over the entries. */
    method SendNeighbours() returns (list: seq<Sent>, leastPref: int)
      requires Valid()
      ensures |list| == cnt && IsJustBelow(leastPref - 1, list)
      ensures forall i :: 0 <= i < cnt ==> IsNeighbour(list[i], run, own, Known(run, own)[i])
    {
      leastPref := 256;
      list := [];
      for i := 0 to cnt
        invariant |list| == i && IsJustBelow(leastPref - 1, list)
        invariant forall j :: 0 <= j < i ==> IsNeighbour(list[j], run, own, Known(run, own)[j])
      {
        var class_, pref, channel := 1, 255, 1;
        if aps[i].pref != UNSET { pref := aps[i].pref; }
        if aps[i].class_ != UNSET { class_ := aps[i].class_; }
        if aps[i].channel != UNSET { channel := aps[i].channel; }
        assert aps[i] == aps[..cnt][i] == Tuple(run, own, Known(run, own)[i]);
        ghost var least := leastPref;
        if pref < leastPref { leastPref := pref; }
        BelowAlsoThis(least, list, Sent(aps[i].mac, pref, class_, channel));
        list := list + [Sent(aps[i].mac, pref, class_, channel)];
      }
    }
  }

  lemma BelowAlsoThis(least: int, list: seq<Sent>, s: Sent)
    requires IsJustBelow(least - 1, list)
    ensures IsJustBelow((if s.pref < least then s.pref else least) - 1, list + [s])
  {
    var more := list + [s];
    assert more[|list|] == s;
    if s.pref >= least && least - 1 != 255 {
      var i :| 0 <= i < |list| && list[i].pref == least;
      assert more[i] == list[i];
    }
  }

  lemma RefusedChangesNothing(run: Run, own: Mac, c: Command)
    requires !Accepts(run, c, own)
    ensures Entries(Then(run, c), own) == Entries(run, own) && Tuple(Then(run, c), own, own) == Tuple(run, own, own)
  {}

  lemma OwnKeepsEntries(run: Run, own: Mac, c: Command)
    requires Accepts(run, c, own) && c.bssid.value == own
    ensures Entries(Then(run, c), own) == Entries(run, own)
  {
    KnownIsASet(run, own);
    var known := Known(run, own);
    forall i | 0 <= i < |known| ensures Entries(Then(run, c), own)[i] == Entries(run, own)[i] {
      TupleMerges(run, own, c, known[i]);
    }
  }
}
