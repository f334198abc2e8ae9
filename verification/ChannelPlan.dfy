/** Centre channels of the 5 and 6 GHz bands: `get_oper_centr_freq_seq_idx` and its helpers. */
module ChannelPlan {
  import opened Division

  /** The 5 GHz list; 56 and 136 are not in it. */
  predicate In5g(channel: int) {
    || (36 <= channel <= 64 && channel % 4 == 0 && channel != 56)
    || (100 <= channel <= 144 && channel % 4 == 0 && channel != 136)
    || (149 <= channel <= 165 && channel % 4 == 1)
  }

  /** The 6 GHz list: 2, and then every fourth channel from 1 to 233. */
  predicate In6g(channel: int) {
    channel == 2 || (1 <= channel <= 233 && channel % 4 == 1)
  }

  /** The lists, channel by channel where they have gaps. */
  lemma ListedChannels(c: int)
    ensures In5g(c) <==> c in {36, 40, 44, 48, 52, 60, 64, 100, 104, 108, 112, 116, 120, 124, 128, 132, 140, 144,
                               149, 153, 157, 161, 165}
    ensures In6g(c) <==> c == 2 || exists k :: 0 <= k <= 58 && c == Channel(1, k)
  {
    if In6g(c) && c != 2 { assert c == Channel(1, c / 4); }
  }

  /** `check_channel` finds the channel. */
  predicate IsListed(band6g: bool, channel: int) {
    if band6g then In6g(channel) else In5g(channel)
  }

  /** Bitwise and. */
  function And(x: nat, y: nat): nat {
    if x == 0 || y == 0 then 0 else 2 * And(x / 2, y / 2) + if x % 2 == 1 && y % 2 == 1 then 1 else 0
  }

  /** `get_oper_center_freq_6g` */
  function Centre6g(width: int, channel: nat): int {
    if width == 20 then channel
    else if width == 40 then if And(channel, 0x7) == 0x1 then channel + 2 else channel - 2
    else if width == 80 then And(channel, 0xFF1) + 6
    else if width == 160 then And(channel, 0xFE1) + 14
    else -1
  }

  /** `get_6g_ch_op_class` */
  function OpClass6g(channel: nat): int {
    if And(channel, 0x3) == 0x1 then 131
    else if And(channel, 0x7) == 0x3 then 132
    else if And(channel, 0xF) == 0x7 then 133
    else if And(channel, 0x1F) == 0xF then 134
    else if channel == 2 then 136
    else 0
  }

  function Base(channel: int): nat {
    if 36 <= channel <= 64 then 36 else if 100 <= channel <= 144 then 100 else 149
  }

  /** The arithmetic of `get_oper_centr_freq_seq_idx`, for a channel so far from its base. */
  function BlockCentre(base: nat, width: int, offset: int): int
    requires width > 0
  {
    var period := offset * 5 / width;
    base + period * width / 5 + (width - 20) / 10
  }

  /** `get_oper_centr_freq_seq_idx` */
  function CentreIdx(band6g: bool, width: int, channel: int): int
    requires width > 0
  {
    if !IsListed(band6g, channel) then -1
    else if band6g then Centre6g(width, channel)
    else
      BlockCentre(Base(channel), width, channel % Base(channel))
  }

  // ------------------------------------------------------------ blocks of channels

  function Pow2(j: nat): (p: nat)
    ensures p >= 1
  {
    if j == 0 then 1 else 2 * Pow2(j - 1)
  }

  /** 20, 40, 80, 160 MHz and so on. */
  function Width(j: nat): (w: nat)
    ensures w >= 20
  {
    20 * Pow2(j)
  }

  /** How far the outermost channels of a block are from its centre. */
  function Reach(j: nat): nat {
    (Width(j) - 20) / 10
  }

  /** The k-th 20 MHz channel from a base. */
  function Channel(base: nat, k: nat): nat {
    base + 4 * k
  }

  /** The centre of its block, as the code computes it. */
  function Centre(base: nat, j: nat, k: nat): int {
    BlockCentre(base, Width(j), 4 * k)
  }

  /** Where the block of the k-th channel starts, when blocks have p channels. */
  function Start(p: nat, k: nat): (s: nat)
    requires p > 0
    ensures s <= k < s + p
  {
    if k < p then 0 else p + Start(p, k - p)
  }

  lemma {:induction false} StartsAreApart(p: nat, k: nat, k': nat)
    requires p > 0
    ensures var s, s' := Start(p, k), Start(p, k');
            s == s' || s + p <= s' || s' + p <= s
    decreases k
  {
    if k >= p && k' >= p { StartsAreApart(p, k - p, k' - p); }
  }

  lemma {:induction false} StartIsMultiple(p: nat, k: nat) returns (q: nat)
    requires p > 0
    ensures Start(p, k) == p * q
  {
    if k < p {
      q := 0;
    } else {
      var less := StartIsMultiple(p, k - p);
      q := less + 1;
    }
  }

  /** Dividing and multiplying again, as the code does it. */
  lemma ScaledQuotient(p: nat, k: nat)
    requires p > 0
    ensures 20 * k / (20 * p) * (20 * p) == 20 * Start(p, k)
  {
    var q := StartIsMultiple(p, k);
    Scaled(20, p, q);
    DivisionIsUnique(20 * k, 20 * p, q, 20 * (k - Start(p, k)));
  }

  /** The centre is in the middle of the block. */
  lemma CentreOfBlock(base: nat, p: nat, k: nat)
    requires p > 0
    ensures BlockCentre(base, 20 * p, 4 * k) == base + 4 * Start(p, k) + 2 * (p - 1)
  {
    ScaledQuotient(p, k);
    assert 4 * k * 5 == 20 * k;
  }

  /** A channel is in reach of its centre. */
  lemma CentreIsNear(base: nat, j: nat, k: nat)
    ensures Centre(base, j, k) - Reach(j) <= Channel(base, k) <= Centre(base, j, k) + Reach(j)
  {
    CentreOfBlock(base, Pow2(j), k);
  }

  /** The blocks of one base do not overlap: two centres are the same or a whole width apart. */
  lemma CentresAreApart(base: nat, j: nat, k: nat, k': nat)
    ensures var c, c' := Centre(base, j, k), Centre(base, j, k');
            c == c' || c' - c >= Width(j) / 5 || c - c' >= Width(j) / 5
  {
    CentreOfBlock(base, Pow2(j), k);
    CentreOfBlock(base, Pow2(j), k');
    StartsAreApart(Pow2(j), k, k');
  }

  /** So the channels in reach of a centre are exactly those that have this centre. */
  lemma BlocksPartition(base: nat, j: nat, k: nat, k': nat)
    ensures Centre(base, j, k') == Centre(base, j, k)
       <==> Centre(base, j, k) - Reach(j) <= Channel(base, k') <= Centre(base, j, k) + Reach(j)
  {
    CentreIsNear(base, j, k');
    CentresAreApart(base, j, k, k');
  }

  lemma Powers()
    ensures Pow2(2) == 4 && Pow2(3) == 8 && Pow2(4) == 16 && Pow2(5) == 32 && Pow2(7) == 128 && Pow2(8) == 256
  {}

  /** The block centres of the four widths that have a name. */
  lemma Centres(base: nat, k: nat)
    ensures Centre(base, 0, k) == base + 4 * k
    ensures Centre(base, 1, k) == base + 8 * (k / 2) + 2
    ensures Centre(base, 2, k) == base + 16 * (k / 4) + 6
    ensures Centre(base, 3, k) == base + 32 * (k / 8) + 14
  {
    Powers();
    CentreByDivision(base, 1, k);
    CentreByDivision(base, 2, k);
    CentreByDivision(base, 4, k);
    CentreByDivision(base, 8, k);
  }

  lemma CentreByDivision(base: nat, p: nat, k: nat)
    requires p > 0
    ensures BlockCentre(base, 20 * p, 4 * k) == base + 4 * (p * (k / p)) + 2 * (p - 1)
  {
    CentreOfBlock(base, p, k);
    var q := StartIsMultiple(p, k);
    DivisionIsUnique(k, p, q, k - Start(p, k));
  }

  // --------------------------------------------------------------------- 5 GHz

  lemma ListedIsOnGrid(channel: int)
    requires In5g(channel)
    ensures Base(channel) <= channel < 2 * Base(channel) && (channel - Base(channel)) % 4 == 0
  {}

  /** The function computes the block centre of a listed channel, counted from its base. */
  lemma CentreIdx5g(j: nat, channel: int)
    requires In5g(channel)
    ensures var base := Base(channel);
            var k := (channel - base) / 4;
            Channel(base, k) == channel && CentreIdx(false, Width(j), channel) == Centre(base, j, k)
  {
    ListedIsOnGrid(channel);
    DivisionIsUnique(channel, Base(channel), 1, channel - Base(channel));
  }

  /** The middle of the block of the k-th channel, for the four widths that have a name. */
  function Middle(base: int, j: nat, k: nat): int {
    if j == 0 then base + 4 * k
    else if j == 1 then base + 8 * (k / 2) + 2
    else if j == 2 then base + 16 * (k / 4) + 6
    else base + 32 * (k / 8) + 14
  }

  lemma CentreIsMiddle(j: nat, channel: int, c: int)
    requires In5g(channel) && j <= 3 && c == CentreIdx(false, Width(j), channel)
    ensures c == Middle(Base(channel), j, (channel - Base(channel)) / 4)
  {
    CentreIdx5g(j, channel);
    Centres(Base(channel), (channel - Base(channel)) / 4);
  }

  /** One channel is in the upper half of the middle band and the other one in the upper band. */
  predicate FacesUpperBand(channel: int, channel': int) {
    132 <= channel <= 144 && 149 <= channel' <= 165
  }

  lemma MiddlesAreApart(j: nat, channel: int, channel': int)
    requires j <= 3 && In5g(channel) && In5g(channel') && Base(channel) < Base(channel')
    ensures var m := Middle(Base(channel), j, (channel - Base(channel)) / 4);
            var m' := Middle(Base(channel'), j, (channel' - Base(channel')) / 4);
            var step := if j == 0 then 4 else if j == 1 then 8 else if j == 2 then 16 else 32;
            m < m' && (m' - m >= step <==> !(j == 3 && FacesUpperBand(channel, channel')))
  {
    var k, k' := (channel - Base(channel)) / 4, (channel' - Base(channel')) / 4;
    assert k <= if Base(channel) == 36 then 7 else 11;
    assert Base(channel) == 100 ==> (channel >= 132 <==> k / 8 == 1);
  }

  /** Up to 160 MHz blocks of different bases keep apart, but for those of 132 to 144 and 149 to 165 with 160 MHz. */
  lemma BlocksOfTwoBases(j: nat, channel: int, channel': int, c: int, c': int)
    requires j <= 3 && In5g(channel) && In5g(channel') && Base(channel) < Base(channel')
    requires c == CentreIdx(false, Width(j), channel) && c' == CentreIdx(false, Width(j), channel')
    ensures c < c'
    ensures c' - c >= Width(j) / 5 <==> !(j == 3 && FacesUpperBand(channel, channel'))
  {
    CentreIsMiddle(j, channel, c);
    CentreIsMiddle(j, channel', c');
    MiddlesAreApart(j, channel, channel');
    Powers();
  }

  // --------------------------------------------------------------------- 6 GHz

  /** The lowest bit and the others of a remainder. */
  lemma HalfOfRemainder(x: nat, p: nat)
    requires p > 0
    ensures x % (2 * p) == 2 * (x / 2 % p) + x % 2 && x / (2 * p) == x / 2 / p
  {
    var y := x / 2;
    Divide(y, p);
    Scaled(2, p, y / p);
    DivisionIsUnique(x, 2 * p, y / p, 2 * (y % p) + x % 2);
  }

  /** A mask of low bits is a remainder. */
  lemma {:induction false} LowBits(x: nat, m: nat)
    ensures And(x, Pow2(m) - 1) == x % Pow2(m)
  {
    if m > 0 {
      LowBits(x / 2, m - 1);
      HalfOfRemainder(x, Pow2(m - 1));
      assert (2 * Pow2(m - 1) - 1) / 2 == Pow2(m - 1) - 1;
    }
  }

  lemma AndStep(x: nat, y: nat)
    ensures And(x, 2 * y) == 2 * And(x / 2, y)
    ensures And(x, 2 * y + 1) == 2 * And(x / 2, y) + x % 2
  {
    assert 2 * y / 2 == y && (2 * y + 1) / 2 == y;
  }

  function ShiftLeft(x: nat, m: nat): nat {
    if m == 0 then x else 2 * ShiftLeft(x, m - 1)
  }

  function ShiftRight(x: nat, m: nat): nat {
    if m == 0 then x else ShiftRight(x / 2, m - 1)
  }

  lemma {:induction false} SkippedBits(x: nat, m: nat, y: nat)
    ensures And(x, ShiftLeft(y, m)) == ShiftLeft(And(ShiftRight(x, m), y), m)
  {
    if m > 0 {
      SkippedBits(x / 2, m - 1, y);
      AndStep(x, ShiftLeft(y, m - 1));
    }
  }

  /** A mask of the lowest bit and n others, with a hole of m bits between them. */
  lemma MaskWithHole(x: nat, m: nat, n: nat)
    ensures And(x, 2 * ShiftLeft(Pow2(n) - 1, m) + 1) == 2 * ShiftLeft(ShiftRight(x / 2, m) % Pow2(n), m) + x % 2
  {
    AndStep(x, ShiftLeft(Pow2(n) - 1, m));
    SkippedBits(x / 2, m, Pow2(n) - 1);
    LowBits(ShiftRight(x / 2, m), n);
  }

  lemma Shifts(x: nat)
    ensures ShiftLeft(x, 3) == 8 * x && ShiftRight(x, 3) == x / 8
    ensures ShiftLeft(x, 4) == 16 * x && ShiftRight(x, 4) == x / 16
  {
    assert ShiftLeft(x, 1) == 2 * x;
    assert ShiftLeft(x, 2) == 4 * x;
    assert ShiftLeft(x, 3) == 8 * x;
    var eighth := x / 2 / 2 / 2;
    assert ShiftRight(eighth, 1) == eighth / 2;
    assert ShiftRight(x / 2 / 2, 2) == ShiftRight(eighth, 1);
    assert ShiftRight(x / 2 / 2, 1) == eighth;
  }

  /** The masks of the op class. */
  lemma SmallMasks(x: nat)
    ensures And(x, 0x3) == x % 4 && And(x, 0x7) == x % 8 && And(x, 0xF) == x % 16 && And(x, 0x1F) == x % 32
  {
    assert Pow2(3) == 8 && Pow2(5) == 32;
    LowBits(x, 2);
    LowBits(x, 3);
    LowBits(x, 4);
    LowBits(x, 5);
  }

  lemma Mask80(x: nat)
    ensures And(x, 0xFF1) == 16 * (x / 2 / 8 % 256) + x % 2
  {
    Powers();
    MaskWithHole(x, 3, 8);
    Shifts(0xFF);
    Shifts(x / 2);
    Shifts(x / 2 / 8 % 256);
  }

  lemma Mask160(x: nat)
    ensures And(x, 0xFE1) == 32 * (x / 2 / 16 % 128) + x % 2
  {
    Powers();
    MaskWithHole(x, 4, 7);
    Shifts(0x7F);
    Shifts(x / 2);
    Shifts(x / 2 / 16 % 128);
  }

  lemma Centre80(k: nat)
    ensures Centre6g(80, Channel(1, k)) == 16 * (k / 4 % 256) + 7
  {
    Mask80(Channel(1, k));
    assert Channel(1, k) / 2 == 2 * k && 2 * k / 8 == k / 4;
  }

  lemma Centre160(k: nat)
    ensures Centre6g(160, Channel(1, k)) == 32 * (k / 8 % 128) + 15
  {
    Mask160(Channel(1, k));
    assert Channel(1, k) / 2 == 2 * k && 2 * k / 16 == k / 8;
  }

  lemma Centre40(k: nat)
    ensures Centre6g(40, Channel(1, k)) == 8 * (k / 2) + 3
  {
    var q, r := k / 2, k % 2;
    assert Channel(1, k) == 8 * q + (4 * r + 1);
    SmallMasks(Channel(1, k));
    DivisionIsUnique(Channel(1, k), 8, q, 4 * r + 1);
  }

  /** The masks compute the block centre with base 1, for 80 and 160 MHz exactly if the channel is below 4096. */
  lemma MasksAreDivision(j: nat, k: nat)
    requires j <= 3
    ensures Centre6g(Width(j), Channel(1, k)) == Centre(1, j, k) <==> j <= 1 || Channel(1, k) < 4096
  {
    Powers();
    Centres(1, k);
    if j == 1 {
      Centre40(k);
    } else if j == 2 {
      Centre80(k);
      FitsBits(k / 4, 256);
    } else if j == 3 {
      Centre160(k);
      FitsBits(k / 8, 128);
    }
  }

  lemma FitsBits(q: nat, m: nat)
    requires m > 0
    ensures q % m == q <==> q < m
  {}

  lemma ClassOf20(q: nat)
    ensures OpClass6g(4 * q + 1) == 131
  {
    SmallMasks(4 * q + 1);
  }

  lemma ClassOf40(q: nat)
    ensures OpClass6g(8 * q + 3) == 132
  {
    SmallMasks(8 * q + 3);
  }

  lemma ClassOf80(q: nat)
    ensures OpClass6g(16 * q + 7) == 133
  {
    SmallMasks(16 * q + 7);
    DivisionIsUnique(16 * q + 7, 4, 4 * q + 1, 3);
    DivisionIsUnique(16 * q + 7, 8, 2 * q, 7);
    DivisionIsUnique(16 * q + 7, 16, q, 7);
  }

  lemma ClassOf160(q: nat)
    ensures OpClass6g(32 * q + 15) == 134
  {
    SmallMasks(32 * q + 15);
    DivisionIsUnique(32 * q + 15, 4, 8 * q + 3, 3);
    DivisionIsUnique(32 * q + 15, 8, 4 * q + 1, 7);
    DivisionIsUnique(32 * q + 15, 16, 2 * q, 15);
    DivisionIsUnique(32 * q + 15, 32, q, 15);
  }

  /** The op class of a centre tells the width: 131, 132, 133 or 134. */
  lemma ClassOfCentre(j: nat, k: nat, centre: nat)
    requires j <= 3 && centre == Centre(1, j, k)
    ensures OpClass6g(centre) == 131 + j
  {
    Centres(1, k);
    if j == 0 {
      ClassOf20(k);
    } else if j == 1 {
      ClassOf40(k / 2);
    } else if j == 2 {
      ClassOf80(k / 4);
    } else {
      ClassOf160(k / 8);
    }
  }

  /**
   The configuration names the class of the primary channel instead: 136 for
   channel 2, and otherwise the class of the width for 20 MHz only.
   */
  lemma WrittenClass(j: nat, channel: int)
    requires j <= 3 && In6g(channel)
    ensures OpClass6g(channel) == if channel == 2 then 136 else 131
    ensures OpClass6g(channel) == 131 + j <==> j == 0 && channel != 2
  {
    if channel == 2 {
      SmallMasks(2);
    } else {
      ClassOf20(channel / 4);
    }
  }

  /** What the function computes for channel 2. */
  lemma CentreOf2(width: int)
    requires width == 20 || width == 40 || width == 80 || width == 160
    ensures CentreIdx(true, width, 2) ==
            if width == 20 then 2 else if width == 40 then 0 else if width == 80 then 6 else 14
  {
    SmallMasks(2);
    Mask80(2);
    Mask160(2);
  }

  lemma FourWidths(j: nat)
    requires j <= 3
    ensures Width(j) == if j == 0 then 20 else if j == 1 then 40 else if j == 2 then 80 else 160
  {
    Powers();
  }

  lemma Channel2(j: nat, c: int)
    requires j <= 3 && c == CentreIdx(true, Width(j), 2)
    ensures 2 - Reach(j) <= c <= 2 + Reach(j) && c != Middle(1, j, 0)
  {
    FourWidths(j);
    CentreOf2(Width(j));
  }

  lemma CentreHasMiddle(j: nat, k: nat)
    requires j <= 3
    ensures Centre(1, j, k) == Middle(1, j, k)
  {
    Centres(1, k);
  }

  lemma OtherChannels(j: nat, channel: int)
    requires j <= 3 && In6g(channel) && channel != 2
    ensures CentreIdx(true, Width(j), channel) == Centre(1, j, channel / 4)
    ensures channel - Reach(j) <= CentreIdx(true, Width(j), channel) <= channel + Reach(j)
  {
    MasksAreDivision(j, channel / 4);
    CentreIsNear(1, j, channel / 4);
  }

  /** Every channel of the 6 GHz list is in reach of what the function computes, its centre but for channel 2. */
  lemma CentreIdx6g(j: nat, channel: int, c: int)
    requires j <= 3 && In6g(channel) && c == CentreIdx(true, Width(j), channel)
    ensures channel - Reach(j) <= c <= channel + Reach(j)
    ensures c == Middle(1, j, channel / 4) <==> channel != 2
  {
    CentreHasMiddle(j, channel / 4);
    if channel == 2 {
      Channel2(j, c);
    } else {
      OtherChannels(j, channel);
    }
  }
}
