/** The radio measurement capability bits of `loc_cmd_sta_preset_testparameters`. */
module RmBits {
  import opened CText

  /** LOC_MAX_RM_FLAGS */
  const ROWS: nat := 10

  /** The bit position of the fine timing measurement range report. */
  const FTMRR: nat := 34

  /** What the flag is when no row is for that bit. */
  const NO_FLAG: nat := 25

  type Cell = c: int | 0 <= c < 256

  /** One row of `rmBitFlags`. */
  datatype Row = Row(bit: Cell, val: Cell)

  // ----------------------------------------------------------------- the automaton

  datatype State = LookingForBit | LookingForVal

  /** The variables of `parse_rm_bits` between two characters. */
  datatype Parser = Parser(rows: seq<Row>, idx: nat, bitPos: nat, state: State)

  predicate Valid(p: Parser) {
    |p.rows| == ROWS && p.idx <= ROWS
  }

  function DigitOf(c: char): nat
    requires IsDigit(c)
  {
    c as nat - '0' as nat
  }

  function Appended(bitPos: nat, digit: nat): nat {
    (bitPos * 10 + digit) % 0x1_0000_0000
  }

  function SetBit(p: Parser): (q: Parser)
    requires Valid(p) && p.idx < ROWS
    ensures Valid(q)
  {
    p.(rows := p.rows[p.idx := p.rows[p.idx].(bit := p.bitPos % 256)])
  }

  function SetVal(p: Parser, v: Cell): (q: Parser)
    requires Valid(p) && p.idx < ROWS
    ensures Valid(q)
  {
    p.(rows := p.rows[p.idx := p.rows[p.idx].(val := v)])
  }

  /** What one character does. */
  function Step(p: Parser, c: char): (q: Parser)
    requires Valid(p) && p.idx < ROWS
    ensures Valid(q)
  {
    match p.state
    case LookingForBit =>
      if IsDigit(c) then p.(bitPos := Appended(p.bitPos, DigitOf(c)))
      else if c == ':' then SetBit(p).(state := LookingForVal)
      else if c == ';' then SetBit(p).(bitPos := 0, idx := p.idx + 1)
      else p
    case LookingForVal =>
      if c == '0' || c == '1' then SetVal(p, DigitOf(c))
      else if c == ';' then p.(bitPos := 0, idx := p.idx + 1, state := LookingForBit)
      else p
  }

  function Run(p: Parser, s: string): (q: Parser)
    requires Valid(p)
    ensures Valid(q)
    decreases |s|
  {
    if s == "" || p.idx == ROWS then p else Run(Step(p, s[0]), s[1..])
  }

  function Start(rows: seq<Row>): Parser {
    Parser(rows, 0, 0, LookingForBit)
  }

  /** `parse_rm_bits`; without a string nothing is written. */
  method ParseRmBits(text: Option<string>, flags: array<Row>)
    requires flags.Length == ROWS
    modifies flags
    ensures flags[..] == if text.None? then old(flags[..]) else Run(Start(old(flags[..])), text.value).rows
  {
    if text.None? { return; }
    var s := text.value;
    var at, idx, bitPos, state := 0, 0, 0, LookingForBit;
    assert s[0..] == s;
    while at < |s| && idx < ROWS
      invariant 0 <= at <= |s| && 0 <= idx <= ROWS && 0 <= bitPos
      invariant Run(Parser(flags[..], idx, bitPos, state), s[at..]) == Run(Start(old(flags[..])), s)
    {
      ghost var p := Parser(flags[..], idx, bitPos, state);
      var temp := s[at];
      assert s[at..][0] == temp && s[at..][1..] == s[at + 1..];
      at := at + 1;
      match state {
        case LookingForBit =>
          if IsDigit(temp) {
            bitPos := Appended(bitPos, DigitOf(temp));
          } else if temp == ':' {
            flags[idx] := Row(bitPos % 256, flags[idx].val);
            state := LookingForVal;
          } else if temp == ';' {
            flags[idx] := Row(bitPos % 256, flags[idx].val);
            bitPos, idx := 0, idx + 1;
          }
        case LookingForVal =>
          if temp == '0' || temp == '1' {
            flags[idx] := Row(flags[idx].bit, DigitOf(temp));
          } else if temp == ';' {
            bitPos, idx, state := 0, idx + 1, LookingForBit;
          }
      }
      assert Parser(flags[..], idx, bitPos, state) == Step(p, temp);
    }
  }

  // --------------------------------------------------------------- any string at all

  /** Only digits, ':' and ';' are looked at. */
  predicate Counts(c: char) { IsDigit(c) || c == ':' || c == ';' }

  function Kept(s: string): string {
    if s == "" then "" else if Counts(s[0]) then [s[0]] + Kept(s[1..]) else Kept(s[1..])
  }

  /** Leaving all other characters out changes nothing. */
  lemma {:induction false} OthersAreIgnored(p: Parser, s: string)
    requires Valid(p)
    ensures Run(p, Kept(s)) == Run(p, s)
    decreases |s|
  {
    if s != "" && p.idx < ROWS {
      OthersAreIgnored(Step(p, s[0]), s[1..]);
      if Counts(s[0]) {
        assert Kept(s)[0] == s[0] && Kept(s)[1..] == Kept(s[1..]);
      }
    }
  }

  function Semicolons(s: string): nat {
    if s == "" then 0 else (if s[0] == ';' then 1 else 0) + Semicolons(s[1..])
  }

  /** A row is finished with every ';', up to the last row there is. */
  lemma {:induction false} RowsAreSemicolons(p: Parser, s: string)
    requires Valid(p)
    ensures var n := p.idx + Semicolons(s);
            Run(p, s).idx == if n <= ROWS then n else ROWS
    decreases |s|
  {
    if s != "" && p.idx < ROWS { RowsAreSemicolons(Step(p, s[0]), s[1..]); }
  }

  // ----------------------------------------------------------------- printed pairs

  datatype Pair = Pair(bit: nat, val: nat)

  predicate IsPair(p: Pair) { p.bit < 256 && p.val <= 1 }

  predicate ArePairs(ps: seq<Pair>) { forall i :: 0 <= i < |ps| ==> IsPair(ps[i]) }

  /** "bit:val" */
  function Printed(p: Pair): string
    requires IsPair(p)
  {
    Decimal(p.bit) + [':', DigitChar(p.val)]
  }

  /** "bit:val;bit:val;", with or without the last ';'. */
  function AllPrinted(ps: seq<Pair>, ended: bool): string
    requires ArePairs(ps)
  {
    if ps == [] then ""
    else Printed(ps[0]) + if |ps| == 1 && !ended then "" else [';'] + AllPrinted(ps[1..], ended)
  }

  /** The rows of these pairs, and zeros behind them. */
  function RowsOf(ps: seq<Pair>): (rows: seq<Row>)
    requires ArePairs(ps) && |ps| <= ROWS
    ensures |rows| == ROWS
    ensures forall i :: 0 <= i < ROWS ==> rows[i] == if i < |ps| then Row(ps[i].bit, ps[i].val) else Row(0, 0)
  {
    seq(ROWS, i requires 0 <= i => if i < |ps| then Row(ps[i].bit, ps[i].val) else Row(0, 0))
  }

  lemma {:induction false} RunJoined(p: Parser, a: string, b: string)
    requires Valid(p)
    ensures Run(p, a + b) == Run(Run(p, a), b)
    decreases |a|
  {
    if a == "" {
      assert a + b == b;
    } else if p.idx < ROWS {
      RunJoined(Step(p, a[0]), a[1..], b);
      assert (a + b)[1..] == a[1..] + b;
    }
  }

  lemma {:induction false} ReadDecimal(p: Parser, n: nat)
    requires Valid(p) && p.idx < ROWS && p.state.LookingForBit? && p.bitPos == 0 && n < 0x1_0000_0000
    ensures Run(p, Decimal(n)) == p.(bitPos := n)
  {
    if n < 10 {
      assert Run(Step(p, DigitChar(n)), "") == Step(p, DigitChar(n));
      assert Decimal(n)[1..] == "";
    } else {
      ReadDecimal(p, n / 10);
      RunJoined(p, Decimal(n / 10), [DigitChar(n % 10)]);
      OneChar(p.(bitPos := n / 10), DigitChar(n % 10));
    }
  }

  lemma OneChar(p: Parser, c: char)
    requires Valid(p) && p.idx < ROWS
    ensures Run(p, [c]) == Step(p, c)
  {
    assert [c][1..] == "";
  }

  /** One printed pair fills the row that is next. */
  lemma ReadPrinted(p: Parser, pair: Pair)
    requires Valid(p) && p.idx < ROWS && p.state.LookingForBit? && p.bitPos == 0 && IsPair(pair)
    ensures Run(p, Printed(pair)) ==
            Parser(p.rows[p.idx := Row(pair.bit, pair.val)], p.idx, pair.bit, LookingForVal)
  {
    ReadDecimal(p, pair.bit);
    RunJoined(p, Decimal(pair.bit), [':', DigitChar(pair.val)]);
    ReadValue(p.(bitPos := pair.bit), pair.val);
  }

  /** What is behind the bit of a pair. */
  lemma ReadValue(p: Parser, val: nat)
    requires Valid(p) && p.idx < ROWS && p.state.LookingForBit? && p.bitPos < 256 && val <= 1
    ensures Run(p, [':', DigitChar(val)]) ==
            p.(rows := p.rows[p.idx := Row(p.bitPos, val)], state := LookingForVal)
  {
    RunJoined(p, [':'], [DigitChar(val)]);
    assert [':'] + [DigitChar(val)] == [':', DigitChar(val)];
    OneChar(p, ':');
    OneChar(Step(p, ':'), DigitChar(val));
  }

  lemma ReadEnded(p: Parser, pair: Pair)
    requires Valid(p) && p.idx < ROWS && p.state.LookingForBit? && p.bitPos == 0 && IsPair(pair)
    ensures Run(p, Printed(pair) + [';']) ==
            Parser(p.rows[p.idx := Row(pair.bit, pair.val)], p.idx + 1, 0, LookingForBit)
  {
    ReadPrinted(p, pair);
    RunJoined(p, Printed(pair), [';']);
    OneChar(Run(p, Printed(pair)), ';');
  }

  /** Pairs that are printed behind `done` others are read into the rows behind them. */
  lemma {:induction false} ReadAllPrinted(done: seq<Pair>, ps: seq<Pair>, ended: bool)
    requires ArePairs(done) && ArePairs(ps) && |done| + |ps| <= ROWS
    ensures ArePairs(done + ps)
    ensures Run(Parser(RowsOf(done), |done|, 0, LookingForBit), AllPrinted(ps, ended)).rows == RowsOf(done + ps)
    decreases |ps|
  {
    var p := Parser(RowsOf(done), |done|, 0, LookingForBit);
    if ps == [] {
      assert done + ps == done;
    } else {
      var more := done + [ps[0]];
      RowAdded(done, ps[0]);
      if |ps| == 1 && !ended {
        ReadPrinted(p, ps[0]);
        assert AllPrinted(ps, ended) == Printed(ps[0]);
        assert done + ps == more;
      } else {
        ReadOneMore(p, ps[0], AllPrinted(ps[1..], ended));
        assert AllPrinted(ps, ended) == Printed(ps[0]) + ([';'] + AllPrinted(ps[1..], ended));
        ReadAllPrinted(more, ps[1..], ended);
        assert more + ps[1..] == done + ps;
      }
    }
  }

  lemma RowAdded(done: seq<Pair>, pair: Pair)
    requires ArePairs(done) && IsPair(pair) && |done| < ROWS
    ensures ArePairs(done + [pair]) && RowsOf(done)[|done| := Row(pair.bit, pair.val)] == RowsOf(done + [pair])
  {}

  lemma ReadOneMore(p: Parser, pair: Pair, rest: string)
    requires Valid(p) && p.idx < ROWS && p.state.LookingForBit? && p.bitPos == 0 && IsPair(pair)
    ensures Run(p, Printed(pair) + ([';'] + rest)) ==
            Run(Parser(p.rows[p.idx := Row(pair.bit, pair.val)], p.idx + 1, 0, LookingForBit), rest)
  {
    ReadEnded(p, pair);
    RunJoined(p, Printed(pair) + [';'], rest);
    assert Printed(pair) + ([';'] + rest) == (Printed(pair) + [';']) + rest;
  }

  /** Printing and parsing gives the pairs back, with or without the last ';'. */
  lemma PairsReadBack(ps: seq<Pair>, ended: bool)
    requires ArePairs(ps) && |ps| <= ROWS
    ensures Run(Start(RowsOf([])), AllPrinted(ps, ended)).rows == RowsOf(ps)
  {
    ReadAllPrinted([], ps, ended);
    assert [] + ps == ps;
  }

  // ------------------------------------------------------------------- the consumer

  /** The value of the last row for a bit. */
  function LastFor(rows: seq<Row>, bit: nat): Option<Cell> {
    if rows == [] then None
    else
      var later := LastFor(rows[1..], bit);
      if later.Some? then later else if rows[0].bit == bit then Some(rows[0].val) else None
  }

  lemma {:induction false} LastForLast(rows: seq<Row>, row: Row, bit: nat)
    ensures LastFor(rows + [row], bit) == if row.bit == bit then Some(row.val) else LastFor(rows, bit)
  {
    if rows == [] {
      assert rows + [row] == [row] && [row][1..] == [];
    } else {
      LastForLast(rows[1..], row, bit);
      assert (rows + [row])[1..] == rows[1..] + [row];
    }
  }

  /** The value of the last pair for a bit. */
  function LastPair(ps: seq<Pair>, bit: nat): Option<nat> {
    if ps == [] then None
    else
      var later := LastPair(ps[1..], bit);
      if later.Some? then later else if ps[0].bit == bit then Some(ps[0].val) else None
  }

  function FlagOf(rows: seq<Row>): nat {
    match LastFor(rows, FTMRR) case Some(v) => v case None => NO_FLAG
  }

  /** The loop over the rows. */
  method FindFlag(flags: array<Row>) returns (flag: nat)
    ensures flag == FlagOf(flags[..])
  {
    flag := NO_FLAG;
    for i := 0 to flags.Length
      invariant flag == FlagOf(flags[..i])
    {
      LastForLast(flags[..i], flags[i], FTMRR);
      assert flags[..i] + [flags[i]] == flags[..i + 1];
      if flags[i].bit == FTMRR { flag := flags[i].val; }
    }
    assert flags[..flags.Length] == flags[..];
  }

  /** What comes of a bitmap. */
  function Decided(bitmap: string): nat {
    FlagOf(Run(Start(RowsOf([])), bitmap).rows)
  }

  lemma {:induction false} LastRowIsLastPair(ps: seq<Pair>, bit: nat, k: nat)
    requires ArePairs(ps) && |ps| <= ROWS && k <= ROWS && bit != 0
    ensures LastFor(RowsOf(ps)[k..], bit) == LastPair(if k <= |ps| then ps[k..] else [], bit)
    decreases ROWS - k
  {
    if k < ROWS {
      LastRowIsLastPair(ps, bit, k + 1);
      assert RowsOf(ps)[k..][1..] == RowsOf(ps)[k + 1..];
      if k < |ps| {
        assert ps[k..][1..] == ps[k + 1..];
      }
    }
  }

  /** The last pair for the bit decides, and without one there is no setting. */
  lemma LastPairDecides(ps: seq<Pair>, ended: bool)
    requires ArePairs(ps) && |ps| <= 10
    ensures Decided(AllPrinted(ps, ended)) ==
            match LastPair(ps, 34) case Some(v) => v case None => 25
  {
    PairsReadBack(ps, ended);
    LastRowIsLastPair(ps, FTMRR, 0);
    assert RowsOf(ps)[0..] == RowsOf(ps) && ps[0..] == ps;
  }

  // -------------------------------------------------------------------- the command

  datatype Answer = Complete | Error | Invalid

  /** The results of a command that `process_cmd` tells apart; a plain -1 reads as InvalidSendStatus. */
  datatype CmdResult = InvalidSendStatus | StatusSent

  /**
   `loc_cmd_sta_preset_testparameters`: what it answers and returns. The flags tell whether
   the commands that disable and enable the report succeed.
   */
  method Preset(bitmap: Option<string>, interworking: bool, disables: bool, enables: bool)
      returns (sent: seq<Answer>, r: CmdResult)
    ensures |sent| == 1
    ensures sent[0].Error? <==>
            bitmap.Some? && match Decided(bitmap.value) { case 0 => !disables case 1 => !enables case _ => false }
    ensures !sent[0].Invalid?
    ensures r.InvalidSendStatus? <==> bitmap.Some? && Decided(bitmap.value) == 0 && !disables
  {
    if bitmap.None? && !interworking { return [Complete], StatusSent; }
    if bitmap.Some? {
      var flags := new Row[ROWS](_ => Row(0, 0));
      assert flags[..] == RowsOf([]);
      ParseRmBits(bitmap, flags);
      var flag := FindFlag(flags);
      if flag == 0 {
        if !disables { return [Error], InvalidSendStatus; }
      } else if flag == 1 {
        if !enables { return [Error], StatusSent; }
      }
    }
    return [Complete], StatusSent;
  }

  /** `process_cmd` around it: the command is answered twice exactly if disabling the report is asked for and fails. */
  method ProcessPreset(bitmap: Option<string>, interworking: bool, disables: bool, enables: bool)
      returns (sent: seq<Answer>)
    ensures if bitmap.Some? && Decided(bitmap.value) == 0 && !disables then sent == [Error, Invalid] else |sent| == 1
  {
    var r;
    sent, r := Preset(bitmap, interworking, disables, enables);
    if r.InvalidSendStatus? { sent := sent + [Invalid]; }
  }
}
