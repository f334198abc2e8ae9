/** `nan_parse_token`: match filters as length-value pairs. */
module NanFilter {
  import opened Buffers
  import opened Bytes

  const COLON: Byte := 0x3a
  const STAR: Byte := 0x2a

  /** The tokens that `strtok_r(..., ":")` delivers: the pieces between colons that are not empty. */
  function Tokens(s: seq<Byte>): (ts: seq<seq<Byte>>)
    ensures forall i :: 0 <= i < |ts| ==> ts[i] != []
    decreases |s|
  {
    if s == [] then []
    else if s[0] == COLON then Tokens(s[1..])
    else
      var k := Break(s, COLON);
      [s[..k]] + if k == |s| then [] else Tokens(s[k + 1..])
  }

  // ------------------------------------------------------------ texts of tokens

  /** A run of separators. */
  function Colons(n: nat): (s: seq<Byte>)
    ensures |s| == n && forall i :: 0 <= i < n ==> s[i] == 0x3a
  {
    seq(n, _ => 0x3a)
  }

  /** The tokens one behind the other: `lead` separators in front of the first, and `gaps` behind each of them. */
  function Joined(lead: nat, ts: seq<seq<Byte>>, gaps: seq<nat>): seq<Byte>
    requires |ts| == |gaps|
    decreases |ts|
  {
    Colons(lead) + if ts == [] then [] else ts[0] + Joined(gaps[0], ts[1..], gaps[1..])
  }

  predicate IsToken(t: seq<Byte>) {
    t != [] && 0x3a !in t
  }

  /** Tokens with at least one separator between any two of them. */
  predicate AreTokens(ts: seq<seq<Byte>>, gaps: seq<nat>) {
    |ts| == |gaps| && forall i :: 0 <= i < |ts| ==> IsToken(ts[i]) && (i < |ts| - 1 ==> gaps[i] > 0)
  }

  lemma {:induction false} SkipsColons(n: nat, rest: seq<Byte>)
    ensures Tokens(Colons(n) + rest) == Tokens(rest)
  {
    if n == 0 {
      assert Colons(0) + rest == rest;
    } else {
      assert (Colons(n) + rest)[1..] == Colons(n - 1) + rest;
      SkipsColons(n - 1, rest);
    }
  }

  lemma TakesToken(t: seq<Byte>, rest: seq<Byte>)
    requires IsToken(t) && (rest != [] ==> rest[0] == 0x3a)
    ensures Tokens(t + rest) == [t] + Tokens(rest)
  {
    var s := t + rest;
    var k := Break(s, COLON);
    assert forall i :: 0 <= i < |t| ==> s[i] == t[i] && t[i] in t;
    assert rest != [] ==> s[|t|] == rest[0];
    assert s[..|t|] == t;
    if rest != [] {
      assert s[|t| + 1..] == rest[1..];
    }
  }

  /** Splitting gives back the tokens of every text that is made of them. */
  lemma {:induction false} SplitsJoined(lead: nat, ts: seq<seq<Byte>>, gaps: seq<nat>)
    requires AreTokens(ts, gaps)
    ensures Tokens(Joined(lead, ts, gaps)) == ts
    decreases |ts|
  {
    if ts == [] {
      SkipsColons(lead, []);
    } else {
      var rest := Joined(gaps[0], ts[1..], gaps[1..]);
      SplitsJoined(gaps[0], ts[1..], gaps[1..]);
      assert |ts| == 1 ==> rest == Colons(gaps[0]) + [];
      TakesToken(ts[0], rest);
      SkipsColons(lead, ts[0] + rest);
      assert [ts[0]] + ts[1..] == ts;
    }
  }

  /** And every text is made of its tokens in that way. */
  lemma {:induction false} EveryTextIsJoined(s: seq<Byte>) returns (lead: nat, gaps: seq<nat>)
    ensures AreTokens(Tokens(s), gaps) && s == Joined(lead, Tokens(s), gaps)
    ensures s != [] && s[0] == 0x3a ==> lead > 0
    decreases |s|
  {
    lead, gaps := 0, [];
    if s != [] && s[0] == COLON {
      lead, gaps := EveryTextIsJoined(s[1..]);
      lead := lead + 1;
      JoinedLead(lead - 1, Tokens(s), gaps);
      assert [s[0]] + s[1..] == s;
    } else if s != [] {
      var k := Break(s, COLON);
      var t, rest := s[..k], s[k..];
      assert t + rest == s && IsToken(t);
      var later, more := EveryTextIsJoined(rest);
      TakesToken(t, rest);
      gaps := [later] + more;
      JoinedFirst(t, later, Tokens(rest), more);
    }
  }

  lemma JoinedLead(lead: nat, ts: seq<seq<Byte>>, gaps: seq<nat>)
    requires |ts| == |gaps|
    ensures Joined(lead + 1, ts, gaps) == [0x3a] + Joined(lead, ts, gaps)
  {
    assert Colons(lead + 1) == [0x3a] + Colons(lead);
  }

  lemma JoinedFirst(t: seq<Byte>, lead: nat, ts: seq<seq<Byte>>, gaps: seq<nat>)
    requires IsToken(t) && AreTokens(ts, gaps) && (ts != [] ==> lead > 0)
    ensures AreTokens([t] + ts, [lead] + gaps)
    ensures Joined(0, [t] + ts, [lead] + gaps) == t + Joined(lead, ts, gaps)
  {
    assert ([t] + ts)[1..] == ts && ([lead] + gaps)[1..] == gaps;
    var text := Colons(0) + (t + Joined(lead, ts, gaps));
    assert Joined(0, [t] + ts, [lead] + gaps) == text;
  }

  // -------------------------------------------------------------------- encoding

  /** What one token becomes: the wildcard is empty, and the length byte is cut to eight bits. */
  function Encoded(t: seq<Byte>): seq<Byte> {
    [|Payload(t)| % 0x100] + Payload(t)
  }

  function Payload(t: seq<Byte>): seq<Byte> {
    if t == [STAR] then [] else t
  }

  function EncodedAll(ts: seq<seq<Byte>>): seq<Byte> {
    if ts == [] then [] else Encoded(ts[0]) + EncodedAll(ts[1..])
  }

  lemma {:induction false} EncodedAllJoined(ts: seq<seq<Byte>>, us: seq<seq<Byte>>)
    ensures EncodedAll(ts + us) == EncodedAll(ts) + EncodedAll(us)
  {
    if ts == [] {
      assert [] + us == us;
    } else {
      EncodedAllJoined(ts[1..], us);
      RestOfJoined(ts, us);
      Regroup(Encoded(ts[0]), EncodedAll(ts[1..]), EncodedAll(us));
    }
  }

  lemma EncodedAllFirst(t: seq<Byte>, ts: seq<seq<Byte>>)
    ensures EncodedAll([t] + ts) == Encoded(t) + EncodedAll(ts)
  {
    assert ([t] + ts)[1..] == ts;
  }

  /** A length-value reader; a zero length stands for the wildcard. */
  datatype Decoded = Malformed | Filters(tokens: seq<seq<Byte>>)

  function Decode(bytes: seq<Byte>): Decoded
    decreases |bytes|
  {
    if bytes == [] then Filters([])
    else if |bytes| < 1 + bytes[0] as int then Malformed
    else
      match Decode(bytes[1 + bytes[0] as int..])
      case Malformed => Malformed
      case Filters(rest) => Filters([if bytes[0] == 0 then [STAR] else bytes[1..1 + bytes[0] as int]] + rest)
  }

  predicate Encodable(ts: seq<seq<Byte>>) {
    forall i :: 0 <= i < |ts| ==> 0 < |ts[i]| < 0x100
  }

  lemma DecodesFirst(t: seq<Byte>, rest: seq<Byte>)
    requires 0 < |t| < 0x100
    ensures Decode(Encoded(t) + rest) ==
            match Decode(rest) case Malformed => Malformed case Filters(ts) => Filters([t] + ts)
  {
    var bytes := Encoded(t) + rest;
    assert bytes[|Encoded(t)|..] == rest;
    if t != [STAR] {
      assert bytes[0] == |t| && bytes[1..1 + |t|] == t;
    }
  }

  /** Reading gives the tokens back, so the encoding is injective on tokens of 1 to 255 bytes. */
  lemma {:induction false} DecodesEncoded(ts: seq<seq<Byte>>)
    requires Encodable(ts)
    ensures Decode(EncodedAll(ts)) == Filters(ts)
  {
    if ts != [] {
      DecodesEncoded(ts[1..]);
      DecodesFirst(ts[0], EncodedAll(ts[1..]));
      assert [ts[0]] + ts[1..] == ts;
    }
  }

  lemma EncodingIsInjective(ts: seq<seq<Byte>>, us: seq<seq<Byte>>)
    requires Encodable(ts) && Encodable(us) && EncodedAll(ts) == EncodedAll(us)
    ensures ts == us
  {
    DecodesEncoded(ts);
    DecodesEncoded(us);
  }

  /** Only the wildcard '*' has a zero length byte. */
  lemma OnlyStarIsEmpty(t: seq<Byte>)
    requires 0 < |t| < 0x100
    ensures Encoded(t)[0] == 0 <==> t == [0x2a]
  {
  }

  /** Whatever is read, the tokens are of 1 to 255 bytes. */
  lemma {:induction false} DecodedIsEncodable(bytes: seq<Byte>)
    requires Decode(bytes).Filters?
    ensures Encodable(Decode(bytes).tokens)
    decreases |bytes|
  {
    if bytes != [] { DecodedIsEncodable(bytes[1 + bytes[0] as int..]); }
  }

  /** So reading gives a list back exactly if all its tokens are of that size. */
  lemma DecodesExactly(ts: seq<seq<Byte>>)
    ensures Decode(EncodedAll(ts)) == Filters(ts) <==> Encodable(ts)
  {
    if Encodable(ts) {
      DecodesEncoded(ts);
    } else if Decode(EncodedAll(ts)).Filters? {
      DecodedIsEncodable(EncodedAll(ts));
    }
  }

  /** What is written for a text reads as the tokens that the text is made of. */
  lemma TextReadBack(lead: nat, ts: seq<seq<Byte>>, gaps: seq<nat>)
    requires AreTokens(ts, gaps)
    ensures Decode(EncodedAll(Tokens(Joined(lead, ts, gaps)))) == Filters(ts)
       <==> forall i :: 0 <= i < |ts| ==> |ts[i]| < 0x100
  {
    SplitsJoined(lead, ts, gaps);
    DecodesExactly(ts);
  }

  /** The tokens of "ab:*" */
  lemma TwoTokens()
    ensures EncodedAll([[0x61, 0x62], [0x2a]]) == [2, 0x61, 0x62, 0]
  {
    EncodedAllFirst([0x2a], []);
    EncodedAllFirst([0x61, 0x62], [[0x2a]]);
  }

  /** The output needs at most one byte more than the filter text. */
  lemma {:induction false} EncodedSize(s: seq<Byte>)
    ensures |EncodedAll(Tokens(s))| <= |s| + 1
    ensures s != [] && s[0] == COLON ==> |EncodedAll(Tokens(s))| <= |s|
    decreases |s|
  {
    if s != [] {
      if s[0] == COLON {
        EncodedSize(s[1..]);
      } else {
        var k := Break(s, COLON);
        var rest := if k == |s| then [] else Tokens(s[k + 1..]);
        assert Tokens(s)[1..] == rest;
        if k < |s| { EncodedSize(s[k + 1..]); }
      }
    }
  }

  /** The token loop, filling the output buffer until a write would leave it. */
  method ParseToken(tokenIn: seq<Byte>, tokenOut: array<Byte>) returns (inside: bool, filterLen: nat)
    modifies tokenOut
    ensures inside <==> |EncodedAll(Tokens(tokenIn))| <= tokenOut.Length
    ensures inside ==> filterLen <= tokenOut.Length && tokenOut[..filterLen] == EncodedAll(Tokens(tokenIn))
    ensures |tokenIn| < tokenOut.Length ==> inside
  {
    EncodedSize(tokenIn);
    ghost var done: seq<seq<Byte>> := [];
    filterLen := 0;
    var token, rest := NextToken(tokenIn);
    while token != []
      invariant Tokens(tokenIn) == done + (if token == [] then [] else [token] + Tokens(rest))
      invariant filterLen <= tokenOut.Length && tokenOut[..filterLen] == EncodedAll(done)
      decreases |token| + |rest|
    {
      EncodedAllJoined(done, [token] + Tokens(rest));
      EncodedAllFirst(token, Tokens(rest));
      if filterLen + 1 + |Payload(token)| > tokenOut.Length { return false, filterLen; }
      filterLen := EmitToken(tokenOut, filterLen, token);
      EncodedAllJoined(done, [token]);
      EncodedAllFirst(token, []);
      Regroup(done, [token], Tokens(rest));
      done := done + [token];
      token, rest := NextToken(rest);
    }
    assert done + [] == done;
    inside := true;
  }

  /** The length byte of one token and its bytes, unless it is the wildcard. */
  method EmitToken(tokenOut: array<Byte>, at: nat, token: seq<Byte>) returns (end: nat)
    requires at + 1 + |Payload(token)| <= tokenOut.Length && token != []
    modifies tokenOut
    ensures end == at + |Encoded(token)|
    ensures tokenOut[..end] == old(tokenOut[..at]) + Encoded(token)
  {
    var len := |Payload(token)|;
    ghost var before := tokenOut[..at];
    tokenOut[at] := len % 0x100;
    assert tokenOut[..at + 1] == before + [len % 0x100];
    ghost var now := tokenOut[..];
    CopyIn(tokenOut, at + 1, token[..len]);
    end := at + 1 + len;
    PutBehind(now, at + 1, token[..len]);
    Regroup(before, [len % 0x100], token[..len]);
    assert token[..|token|] == token;
  }

  /** The colons in front of a token are skipped. */
  method SkipColons(s: seq<Byte>) returns (rest: seq<Byte>)
    ensures Tokens(rest) == Tokens(s) && |rest| <= |s| && (|rest| > 0 ==> rest[0] != COLON)
  {
    rest := s;
    while |rest| > 0 && rest[0] == COLON
      invariant Tokens(rest) == Tokens(s) && |rest| <= |s|
      decreases |rest|
    {
      rest := rest[1..];
    }
  }

  /** `strtok_r`: skip colons, then take everything up to the next one; empty at the end. */
  method NextToken(s: seq<Byte>) returns (token: seq<Byte>, rest: seq<Byte>)
    ensures Tokens(s) == if token == [] then [] else [token] + Tokens(rest)
    ensures |token| + (if rest == [] then 0 else 1 + |rest|) <= |s|
  {
    rest := SkipColons(s);
    if |rest| == 0 { return [], []; }
    var k := Break(rest, COLON);
    token, rest := rest[..k], if k == |rest| then [] else rest[k + 1..];
  }
}
