/** `sigma_write_cfg`: one field of a configuration file is set. */
module ConfigEditor {
  import opened CText
  import opened Bytes

  /** What `fgets` reads at most: MAX_CONF_LINE_LEN without the terminator. */
  const CHUNK: nat := 155

  /** What fits the line buffer that a new line is printed to. */
  const LINE: nat := 156

  // ----------------------------------------------------------------- the editor

  /** Where the first line of a text ends, behind its newline. */
  function LineEnd(s: string): (n: nat)
    requires |s| > 0
    ensures 0 < n <= |s|
    ensures forall i :: 0 <= i < n - 1 ==> s[i] != '\n'
    ensures n < |s| ==> s[n - 1] == '\n'
  {
    if s[0] == '\n' || |s| == 1 then 1 else 1 + LineEnd(s[1..])
  }

  /** How much one `fgets` reads. */
  function ChunkEnd(s: string): (n: nat)
    requires |s| > 0
    ensures 0 < n <= |s|
  {
    if LineEnd(s) <= CHUNK then LineEnd(s) else CHUNK
  }

  /** A line that starts with the field and '='. */
  predicate IsFor(line: string, field: string) {
    |field| < |line| && line[..|field|] == field && line[|field|] == '='
  }

  /** The line that the editor looks for: it may be commented out. */
  predicate Matches(line: string, field: string) {
    IsFor(if |line| > 0 && line[0] == '#' then line[1..] else line, field)
  }

  function NewLine(field: string, value: string): string {
    field + "=" + value + "\n"
  }

  /** What `snprintf` leaves of a line in the buffer. */
  function Cut(line: string): string {
    if |line| <= LINE then line else line[..LINE]
  }

  /** The file that the editor makes of a file. */
  function Rewritten(s: string, field: string, value: string): string
    decreases |s|
  {
    if |s| == 0 then NewLine(field, value)
    else
      var n := ChunkEnd(s);
      if Matches(s[..n], field) then Cut(NewLine(field, value)) + s[n..]
      else s[..n] + Rewritten(s[n..], field, value)
  }

  /** What is still to be written when `unread` has not been read. */
  function Remainder(unread: string, found: bool, field: string, value: string): string {
    if found then unread else Rewritten(unread, field, value)
  }

  /** The line that is read next, as it is written, and whether the field has been found by then. */
  method NextLine(unread: string, was: bool, field: string, value: string) returns (n: nat, buf: string, found: bool)
    requires |unread| > 0
    ensures 0 < n <= |unread|
    ensures Remainder(unread, was, field, value) == buf + Remainder(unread[n..], found, field, value)
  {
    n := ChunkEnd(unread);
    buf, found := unread[..n], was;
    if !found && Matches(buf, field) {
      buf, found := Cut(NewLine(field, value)), true;
    }
    assert unread == unread[..n] + unread[n..];
  }

  /** The loop over the lines of the file. */
  method Rewrite(file: string, field: string, value: string) returns (out: string)
    ensures out == Rewritten(file, field, value)
  {
    var unread, found := file, false;
    out := "";
    while |unread| > 0
      invariant Rewritten(file, field, value) == out + Remainder(unread, found, field, value)
      decreases |unread|
    {
      var n, buf, now := NextLine(unread, found, field, value);
      Regroup(out, buf, Remainder(unread[n..], now, field, value));
      out, unread, found := out + buf, unread[n..], now;
    }
    if !found {
      out := out + NewLine(field, value);
    }
  }

  // ------------------------------------------------------------------- a reader

  /** What a reader of the file finds for a field: the value in the first line for it, however long the lines are. */
  function Lookup(s: string, field: string): Option<string>
    decreases |s|
  {
    if |s| == 0 then None
    else
      var n := LineEnd(s);
      if IsFor(s[..n], field) then Some(Trimmed(s[|field| + 1..n])) else Lookup(s[n..], field)
  }

  function Trimmed(s: string): string {
    if |s| > 0 && s[|s| - 1] == '\n' then s[..|s| - 1] else s
  }

  /** Every line is read in one go. */
  predicate Fits(s: string)
    decreases |s|
  {
    |s| > 0 ==> LineEnd(s) <= CHUNK && Fits(s[LineEnd(s)..])
  }

  /** There is a line for the field, commented out or not. */
  predicate Found(s: string, field: string)
    decreases |s|
  {
    |s| > 0 && (Matches(s[..LineEnd(s)], field) || Found(s[LineEnd(s)..], field))
  }

  /** The last line, ended or not. */
  function LastLine(s: string): string
    decreases |s|
  {
    if |s| == 0 || LineEnd(s) == |s| then s else LastLine(s[LineEnd(s)..])
  }

  /** A line in front of the last one is for the field. */
  predicate InFront(s: string, field: string)
    decreases |s|
  {
    |s| > 0 && LineEnd(s) < |s| && (IsFor(s[..LineEnd(s)], field) || InFront(s[LineEnd(s)..], field))
  }

  predicate Terminated(s: string) {
    |s| > 0 ==> s[|s| - 1] == '\n'
  }

  predicate IsName(field: string) {
    '=' !in field && '#' !in field && '\n' !in field
  }

  /** A field and a value that make one line. */
  predicate IsSetting(field: string, value: string) {
    IsName(field) && '\n' !in value && |NewLine(field, value)| <= LINE
  }

  // --------------------------------------------------------------------- lemmas

  predicate IsLine(line: string) {
    |line| > 0 && line[|line| - 1] == '\n' && forall i :: 0 <= i < |line| - 1 ==> line[i] != '\n'
  }

  lemma {:induction false} FirstBreak(line: string, rest: string)
    requires IsLine(line)
    ensures LineEnd(line + rest) == |line| && (line + rest)[..|line|] == line && (line + rest)[|line|..] == rest
  {
    if |line| > 1 {
      FirstBreak(line[1..], rest);
      RestOfJoined(line, rest);
    }
  }

  lemma {:induction false} NoBreak(s: string)
    requires |s| > 0 && forall i :: 0 <= i < |s| - 1 ==> s[i] != '\n'
    ensures LineEnd(s) == |s|
  {
    if |s| > 1 { NoBreak(s[1..]); }
  }

  lemma NameEnds(line: string, f: string)
    requires IsName(f) && IsFor(line, f)
    ensures forall i :: 0 <= i < |f| ==> line[i] != '='
    ensures line[0] != '#'
  {
    assert forall i :: 0 <= i < |f| ==> line[i] == f[i];
  }

  /** A line is for one field only. */
  lemma OneField(line: string, f: string, g: string)
    requires IsName(f) && IsName(g) && IsFor(line, f) && IsFor(line, g)
    ensures f == g
  {
    NameEnds(line, f);
    NameEnds(line, g);
  }

  lemma NewLineIsFor(f: string, v: string)
    requires IsSetting(f, v)
    ensures IsLine(NewLine(f, v)) && IsFor(NewLine(f, v), f) && Matches(NewLine(f, v), f)
    ensures Trimmed(NewLine(f, v)[|f| + 1..]) == v
  {
    var line := NewLine(f, v);
    assert line[..|f|] == f && line[|f| + 1..] == v + "\n";
    assert |f| > 0 ==> line[0] == f[0];
  }

  /** A line that the editor replaces is for no other field. */
  lemma MatchedIsForNoOther(line: string, f: string, g: string)
    requires IsName(f) && IsName(g) && |line| > 0
    ensures IsFor(line, f) ==> Matches(line, f)
    ensures Matches(line, f) && IsFor(line, g) ==> f == g
  {
    if IsFor(line, f) { NameEnds(line, f); }
    if Matches(line, f) && IsFor(line, g) {
      NameEnds(line, g);
      OneField(line, f, g);
    }
  }

  /** A line in front of a text is looked at first. */
  lemma LookupFirst(line: string, rest: string, g: string)
    requires IsLine(line)
    ensures Lookup(line + rest, g) == if IsFor(line, g) then Some(Trimmed(line[|g| + 1..])) else Lookup(rest, g)
  {
    FirstBreak(line, rest);
    if IsFor(line, g) {
      assert (line + rest)[|g| + 1..|line|] == line[|g| + 1..];
    }
  }

  lemma LookupNew(f: string, v: string, rest: string, g: string)
    requires IsSetting(f, v) && IsName(g)
    ensures Lookup(NewLine(f, v) + rest, g) == if g == f then Some(v) else Lookup(rest, g)
  {
    NewLineIsFor(f, v);
    LookupFirst(NewLine(f, v), rest, g);
    if IsFor(NewLine(f, v), g) { OneField(NewLine(f, v), f, g); }
  }

  /** The first line of a text and the rest, when the rest is not all there is to edit. */
  lemma FirstLine(s: string, f: string)
    requires |s| > 0 && (Found(s, f) || Terminated(s)) && !Matches(s[..LineEnd(s)], f)
    ensures IsLine(s[..LineEnd(s)])
    ensures Found(s[LineEnd(s)..], f) || Terminated(s[LineEnd(s)..])
  {
    var n := LineEnd(s);
    if Terminated(s) && n < |s| { assert s[n..][|s| - n - 1] == s[|s| - 1]; }
  }

  /** A line that is not for the field is copied. */
  lemma RewriteOther(line: string, rest: string, f: string, v: string)
    requires IsLine(line) && |line| <= CHUNK && !Matches(line, f)
    ensures Rewritten(line + rest, f, v) == line + Rewritten(rest, f, v)
  {
    FirstBreak(line, rest);
  }

  lemma EditCopiesOther(line: string, rest: string, f: string, v: string, g: string)
    requires IsSetting(f, v) && IsName(g) && IsLine(line) && |line| <= CHUNK && !Matches(line, f)
    requires Lookup(Rewritten(rest, f, v), g) == if g == f then Some(v) else Lookup(rest, g)
    ensures Lookup(Rewritten(line + rest, f, v), g) == if g == f then Some(v) else Lookup(line + rest, g)
  {
    RewriteOther(line, rest, f, v);
    LookupFirst(line, Rewritten(rest, f, v), g);
    LookupFirst(line, rest, g);
    MatchedIsForNoOther(line, g, f);
  }

  lemma EditReplacesFirst(line: string, rest: string, f: string, v: string, g: string)
    requires IsSetting(f, v) && IsName(g) && IsLine(line) && |line| <= CHUNK && Matches(line, f)
    ensures Lookup(Rewritten(line + rest, f, v), g) == if g == f then Some(v) else Lookup(line + rest, g)
  {
    FirstBreak(line, rest);
    LookupNew(f, v, rest, g);
    LookupFirst(line, rest, g);
    MatchedIsForNoOther(line, f, g);
  }

  /** The last line may be without a newline. */
  lemma EditReplacesLast(line: string, f: string, v: string, g: string)
    requires IsSetting(f, v) && IsName(g) && 0 < |line| <= CHUNK && LineEnd(line) == |line| && Matches(line, f)
    ensures Lookup(Rewritten(line, f, v), g) == if g == f then Some(v) else Lookup(line, g)
  {
    LookupNew(f, v, "", g);
    assert line[..|line|] == line && line[|line|..] == "";
    MatchedIsForNoOther(line, f, g);
  }

  /** After the edit the field has its new value and every other field the value that it had. */
  lemma {:induction false} EditKeepsFields(s: string, f: string, v: string, g: string)
    requires IsSetting(f, v) && IsName(g) && Fits(s) && (Found(s, f) || Terminated(s))
    ensures Lookup(Rewritten(s, f, v), g) == if g == f then Some(v) else Lookup(s, g)
    decreases |s|
  {
    if |s| == 0 {
      LookupNew(f, v, "", g);
      assert NewLine(f, v) + "" == NewLine(f, v);
    } else {
      var n := LineEnd(s);
      var line, rest := s[..n], s[n..];
      assert line + rest == s;
      if !Matches(line, f) {
        FirstLine(s, f);
        EditKeepsFields(rest, f, v, g);
        EditCopiesOther(line, rest, f, v, g);
      } else if n < |s| {
        EditReplacesFirst(line, rest, f, v, g);
      } else {
        assert line == s;
        EditReplacesLast(s, f, v, g);
      }
    }
  }

  /** A new line behind one that has no newline is for another field. */
  lemma NotForGlued(line: string, f: string, v: string)
    requires IsName(f) && |line| > 0 && !IsFor(line, f)
    ensures !IsFor(line + NewLine(f, v), f)
  {
    var glued := line + NewLine(f, v);
    if |f| >= |line| {
      assert glued[|f|] == f[|f| - |line|];
    } else {
      assert glued[..|f|] == line[..|f|];
    }
  }

  lemma GluedIsNotFor(line: string, f: string, v: string)
    requires IsSetting(f, v) && |line| > 0 && '\n' !in line && !Matches(line, f)
    ensures Lookup(line + NewLine(f, v), f) == None
  {
    var glued := line + NewLine(f, v);
    NoBreak(glued);
    MatchedIsForNoOther(line, f, f);
    NotForGlued(line, f, v);
    assert glued[..|glued|] == glued && glued[|glued|..] == "";
  }

  lemma RewriteOpen(s: string, f: string, v: string)
    requires 0 < |s| <= CHUNK && LineEnd(s) == |s| && !Matches(s, f)
    ensures Rewritten(s, f, v) == s + NewLine(f, v)
  {
    assert s[..|s|] == s && s[|s|..] == "";
  }

  /** The last line of a text that does not end with a newline. */
  lemma OpenLine(s: string, f: string, v: string)
    requires IsSetting(f, v) && 0 < |s| <= CHUNK && LineEnd(s) == |s| && !Matches(s, f) && !Terminated(s)
    ensures Lookup(Rewritten(s, f, v), f) == None
  {
    RewriteOpen(s, f, v);
    GluedIsNotFor(s, f, v);
  }

  lemma {:induction false} EditOfOpenLineIsLost(s: string, f: string, v: string)
    requires IsSetting(f, v) && Fits(s) && !Found(s, f) && !Terminated(s)
    ensures Lookup(Rewritten(s, f, v), f) == None
    decreases |s|
  {
    var n := LineEnd(s);
    var line, rest := s[..n], s[n..];
    assert line + rest == s;
    if n == |s| {
      assert line == s;
      OpenLine(s, f, v);
    } else {
      assert rest[|rest| - 1] == s[|s| - 1];
      EditOfOpenLineIsLost(rest, f, v);
      RewriteOther(line, rest, f, v);
      LookupFirst(line, Rewritten(rest, f, v), f);
      MatchedIsForNoOther(line, f, f);
    }
  }

  /** The new value is read back exactly if there was a line to replace or the last line was ended. */
  lemma EditIsReadBack(s: string, f: string, v: string)
    requires IsSetting(f, v) && Fits(s)
    ensures Lookup(Rewritten(s, f, v), f) == Some(v) <==> Found(s, f) || Terminated(s)
  {
    if Found(s, f) || Terminated(s) {
      EditKeepsFields(s, f, v, f);
    } else {
      EditOfOpenLineIsLost(s, f, v);
    }
  }

  /** To a reader one text is the other with one field set. */
  ghost predicate SetsOnly(s: string, out: string, f: string, v: string) {
    forall g | IsName(g) :: Lookup(out, g) == if g == f then Some(v) else Lookup(s, g)
  }

  /** The edit sets the field and leaves all others alone under just that condition. */
  lemma EditSetsOneField(s: string, f: string, v: string)
    requires IsSetting(f, v) && Fits(s)
    ensures SetsOnly(s, Rewritten(s, f, v), f, v) <==> Found(s, f) || Terminated(s)
  {
    if Found(s, f) || Terminated(s) {
      forall g | IsName(g) ensures Lookup(Rewritten(s, f, v), g) == if g == f then Some(v) else Lookup(s, g) {
        EditKeepsFields(s, f, v, g);
      }
    } else {
      EditIsReadBack(s, f, v);
    }
  }

  /** The lines that the editor looks for start with the field and '=', or with a comment sign in front of these. */
  lemma MatchesText(line: string, f: string)
    requires IsName(f)
    ensures Matches(line, f) <==> f + "=" <= line || "#" + f + "=" <= line
    ensures IsFor(line, f) <==> f + "=" <= line
  {
    StartsText(line, f);
    if |line| > 0 && line[0] == '#' {
      StartsText(line[1..], f);
      assert "#" + f + "=" == "#" + (f + "=");
      assert line == "#" + line[1..];
      CommentIsNoName(line, f);
    }
  }

  lemma CommentIsNoName(line: string, f: string)
    requires IsName(f) && |line| > 0 && line[0] == '#'
    ensures !(f + "=" <= line)
  {
    assert (f + "=")[0] == if f == "" then '=' else f[0];
  }

  lemma StartsText(line: string, f: string)
    ensures IsFor(line, f) <==> f + "=" <= line
  {
    if f + "=" <= line {
      assert line[..|f| + 1] == f + "=" && line[..|f|] == line[..|f| + 1][..|f|];
      assert line[|f|] == line[..|f| + 1][|f|];
    }
    if IsFor(line, f) {
      assert line[..|f| + 1] == line[..|f|] + [line[|f|]];
    }
  }

  /** Editing behind a new line: it is found again, whole or but for its newline. */
  lemma RewriteNew(f: string, v: string, rest: string)
    requires IsSetting(f, v)
    ensures Rewritten(NewLine(f, v) + rest, f, v) == NewLine(f, v) + rest <==> |NewLine(f, v)| <= CHUNK
  {
    var line := NewLine(f, v);
    NewLineIsFor(f, v);
    FirstBreak(line, rest);
    if |line| > CHUNK {
      var chunk := (line + rest)[..CHUNK];
      assert chunk == line[..CHUNK];
      assert IsFor(chunk, f) by { assert chunk[..|f|] == line[..|f|]; }
      NameEnds(chunk, f);
      assert |Rewritten(line + rest, f, v)| == |line| + (1 + |rest|);
    }
  }

  /** Where there is a line to replace or the last line is ended, a second edit finds the new line again. */
  lemma {:induction false} EditAgainEnded(s: string, f: string, v: string)
    requires IsSetting(f, v) && Fits(s) && (Found(s, f) || Terminated(s))
    ensures Rewritten(Rewritten(s, f, v), f, v) == Rewritten(s, f, v) <==> |NewLine(f, v)| <= CHUNK
    decreases |s|
  {
    if |s| == 0 {
      RewriteNew(f, v, "");
      assert NewLine(f, v) + "" == NewLine(f, v);
    } else {
      var n := LineEnd(s);
      var line, rest := s[..n], s[n..];
      if Matches(line, f) {
        RewriteNew(f, v, rest);
      } else {
        FirstLine(s, f);
        EditAgainEnded(rest, f, v);
        AgainBehind(line, Rewritten(rest, f, v), f, v);
      }
    }
  }

  /** A line that is not for the field takes no part in a second edit. */
  lemma AgainBehind(line: string, once: string, f: string, v: string)
    requires IsLine(line) && |line| <= CHUNK && !Matches(line, f)
    ensures Rewritten(line + once, f, v) == line + once <==> Rewritten(once, f, v) == once
  {
    RewriteOther(line, once, f, v);
    Behind(line, once);
    Behind(line, Rewritten(once, f, v));
  }

  /** A text without a newline but at its end, as the editor reads it. */
  lemma RewriteGlued(s: string, f: string, v: string)
    requires |s| > 0 && LineEnd(s) == |s| <= 2 * CHUNK && |NewLine(f, v)| <= LINE
    ensures var n := if |s| <= CHUNK then |s| else CHUNK;
            Rewritten(s, f, v) ==
            if Matches(s[..n], f) then NewLine(f, v) + s[n..] else s[..n] + Rewritten(s[n..], f, v)
  {}

  /** A piece of a line that is read on its own: what is written for it is longer in either case. */
  lemma RewriteTail(tail: string, f: string, v: string)
    requires 0 < |tail| <= CHUNK && LineEnd(tail) == |tail| && |tail| < |NewLine(f, v)| <= LINE
    ensures |Rewritten(tail, f, v)| > |tail|
  {
    RewriteGlued(tail, f, v);
    assert tail[..|tail|] == tail && tail[|tail|..] == "";
  }

  lemma StartsFor(line: string, n: nat, f: string)
    requires n <= |line| && Matches(line[..n], f)
    ensures Matches(line, f)
  {
    if line[0] == '#' {
      var short := line[..n][1..];
      assert short[..|f|] == line[1..][..|f|];
    } else {
      assert line[..n][..|f|] == line[..|f|];
    }
  }

  /** Behind an unended line the new one is not seen as one for the field, but for a lone comment sign. */
  lemma GluedMatches(p: string, f: string, v: string)
    requires IsSetting(f, v) && |p| > 0 && !Matches(p, f) && Matches(p + NewLine(f, v), f)
    ensures p == "#"
  {
    var new_ := NewLine(f, v);
    if p[0] != '#' {
      NotForGlued(p, f, v);
    } else if |p| > 1 {
      RestOfJoined(p, new_);
      NotForGlued(p[1..], f, v);
    }
  }

  /** If the comment sign makes it a line for the field, it loses that sign. */
  lemma GluedLosesSign(p: string, f: string, v: string, n: nat)
    requires IsSetting(f, v) && |p| > 0 && !Matches(p, f) && 0 < n <= |p + NewLine(f, v)|
    requires Matches((p + NewLine(f, v))[..n], f)
    ensures NewLine(f, v) + (p + NewLine(f, v))[n..] != p + NewLine(f, v)
  {
    var new_ := NewLine(f, v);
    StartsFor(p + new_, n, f);
    GluedMatches(p, f, v);
    NewLineIsFor(f, v);
    NameEnds(new_, f);
    assert (new_ + (p + new_)[n..])[0] == new_[0];
  }

  /** If it is not one, what is read of it last is followed by another new line. */
  lemma GluedGrows(glued: string, n: nat, f: string, v: string)
    requires IsSetting(f, v) && 0 < n <= |glued| && |glued| - n <= CHUNK && |glued| - n < |NewLine(f, v)|
    requires n < |glued| ==> LineEnd(glued[n..]) == |glued| - n
    ensures |glued[..n] + Rewritten(glued[n..], f, v)| > |glued|
  {
    if n < |glued| { RewriteTail(glued[n..], f, v); }
  }

  /** A second edit of a glued line that is not read as two pieces at the seam: it changes something. */
  lemma GluedChanges(p: string, f: string, v: string)
    requires IsSetting(f, v) && 0 < |p| < CHUNK && '\n' !in p && !Matches(p, f)
    ensures Rewritten(p + NewLine(f, v), f, v) != p + NewLine(f, v)
  {
    var glued := p + NewLine(f, v);
    NewLineIsFor(f, v);
    NoBreak(glued);
    RewriteGlued(glued, f, v);
    var n := if |glued| <= CHUNK then |glued| else CHUNK;
    if Matches(glued[..n], f) {
      GluedLosesSign(p, f, v, n);
    } else {
      if n < |glued| { NoBreak(glued[n..]); }
      GluedGrows(glued, n, f, v);
    }
  }

  /** A last line that just fills the buffer is read on its own the second time, too. */
  lemma FullLineAgain(p: string, f: string, v: string)
    requires IsSetting(f, v) && |p| == CHUNK && '\n' !in p && !Matches(p, f)
    ensures Rewritten(p + NewLine(f, v), f, v) == p + NewLine(f, v) <==> |NewLine(f, v)| <= CHUNK
  {
    var new_ := NewLine(f, v);
    var glued := p + new_;
    NewLineIsFor(f, v);
    NoBreak(glued);
    assert glued[..CHUNK] == p && glued[CHUNK..] == new_;
    RewriteNew(f, v, "");
    assert new_ + "" == new_;
    Behind(p, new_);
    Behind(p, Rewritten(new_, f, v));
  }

  lemma {:induction false} EditAgainOpen(s: string, f: string, v: string)
    requires IsSetting(f, v) && Fits(s) && !Found(s, f) && !Terminated(s)
    ensures Rewritten(Rewritten(s, f, v), f, v) == Rewritten(s, f, v)
       <==> |NewLine(f, v)| <= CHUNK && |LastLine(s)| == CHUNK
    decreases |s|
  {
    var n := LineEnd(s);
    var line, rest := s[..n], s[n..];
    assert line + rest == s;
    if n == |s| {
      assert line == s;
      RewriteOpen(s, f, v);
      if |s| < CHUNK { GluedChanges(s, f, v); } else { FullLineAgain(s, f, v); }
    } else {
      assert rest[|rest| - 1] == s[|s| - 1];
      EditAgainOpen(rest, f, v);
      RewriteOther(line, rest, f, v);
      AgainBehind(line, Rewritten(rest, f, v), f, v);
    }
  }

  /**
   Making the same edit again changes nothing, exactly if the new line can be read in one go and is a line of
   its own: there was one to replace, the last one was ended, or it just fills the buffer.
   */
  lemma EditAgain(s: string, f: string, v: string)
    requires IsSetting(f, v) && Fits(s)
    ensures Rewritten(Rewritten(s, f, v), f, v) == Rewritten(s, f, v)
       <==> |NewLine(f, v)| <= 155 && (Found(s, f) || Terminated(s) || |LastLine(s)| == 155)
  {
    if Found(s, f) || Terminated(s) {
      EditAgainEnded(s, f, v);
    } else {
      EditAgainOpen(s, f, v);
    }
  }

  /** A file to which the second edit adds another line. */
  lemma OpenFileGrows()
    ensures Rewritten("a=1", "b", "2") == "a=1b=2\n"
    ensures Rewritten("a=1b=2\n", "b", "2") == "a=1b=2\nb=2\n"
  {
    NoBreak("a=1");
    NoBreak("a=1b=2\n");
    assert "a=1"[..3] == "a=1" && "a=1"[3..] == "";
    assert "a=1b=2\n"[..7] == "a=1b=2\n" && "a=1b=2\n"[7..] == "";
  }

  // ------------------------------------------------- other fields of an open file

  lemma LookupLine(line: string, g: string)
    requires |line| > 0 && LineEnd(line) == |line|
    ensures Lookup(line, g) == if IsFor(line, g) then Some(Trimmed(line[|g| + 1..])) else None
  {
    assert line[..|line|] == line && line[|line|..] == "";
  }

  lemma GluedKeeps(p: string, f: string, v: string, g: string)
    requires IsSetting(f, v) && |p| > 0 && '\n' !in p
    ensures Lookup(p + NewLine(f, v), g) == Lookup(p, g) <==> !IsFor(p + NewLine(f, v), g)
  {
    var glued := p + NewLine(f, v);
    NewLineIsFor(f, v);
    NoBreak(p);
    NoBreak(glued);
    LookupLine(p, g);
    LookupLine(glued, g);
    if IsFor(p, g) { GluedValue(p, NewLine(f, v), g); }
  }

  /** What is glued to a line becomes part of its value. */
  lemma GluedValue(p: string, tail: string, g: string)
    requires IsFor(p, g) && '\n' !in p && |tail| > 1
    ensures IsFor(p + tail, g) && |Trimmed((p + tail)[|g| + 1..])| > |Trimmed(p[|g| + 1..])|
  {
    assert (p + tail)[..|g|] == p[..|g|] && (p + tail)[|g|] == p[|g|];
  }

  /** With an unended last line, a field is kept if it has a line in front or the glued line is not for it. */
  lemma {:induction false} OpenEditKeeps(s: string, f: string, v: string, g: string)
    requires IsSetting(f, v) && Fits(s) && !Found(s, f) && !Terminated(s)
    ensures Lookup(Rewritten(s, f, v), g) == Lookup(s, g)
       <==> InFront(s, g) || !IsFor(LastLine(s) + NewLine(f, v), g)
    decreases |s|
  {
    var n := LineEnd(s);
    var line, rest := s[..n], s[n..];
    assert line + rest == s;
    if n == |s| {
      assert line == s;
      RewriteOpen(s, f, v);
      GluedKeeps(s, f, v, g);
    } else {
      assert rest[|rest| - 1] == s[|s| - 1];
      OpenEditKeeps(rest, f, v, g);
      RewriteOther(line, rest, f, v);
      LookupFirst(line, Rewritten(rest, f, v), g);
      LookupFirst(line, rest, g);
    }
  }

  /** The edit leaves another field alone exactly under this condition on the file. */
  lemma EditKeepsOther(s: string, f: string, v: string, g: string)
    requires IsSetting(f, v) && IsName(g) && g != f && Fits(s)
    ensures Lookup(Rewritten(s, f, v), g) == Lookup(s, g)
       <==> Found(s, f) || Terminated(s) || InFront(s, g) || !IsFor(LastLine(s) + NewLine(f, v), g)
  {
    if Found(s, f) || Terminated(s) {
      EditKeepsFields(s, f, v, g);
    } else {
      OpenEditKeeps(s, f, v, g);
    }
  }

  /** One text is the other with `line`, the first one for the field, exchanged for a new line. */
  predicate Exchanged(s: string, out: string, f: string, new_: string, front: string, line: string, rest: string) {
    && s == front + (line + rest) && Matches(line, f) && !Found(front, f)
    && out == front + (new_ + rest)
  }

  lemma ExchangedHere(line: string, rest: string, f: string, new_: string)
    requires Matches(line, f)
    ensures Exchanged(line + rest, new_ + rest, f, new_, "", line, rest)
  {
    assert "" + (line + rest) == line + rest && "" + (new_ + rest) == new_ + rest;
  }

  lemma ExchangedBehind(first: string, s: string, out: string, f: string, new_: string,
                        front: string, line: string, rest: string)
    requires IsLine(first) && !Matches(first, f) && Exchanged(s, out, f, new_, front, line, rest)
    ensures Exchanged(first + s, first + out, f, new_, first + front, line, rest)
  {
    FirstBreak(first, front);
    Regroup(first, front, line + rest);
    Regroup(first, front, new_ + rest);
  }

  lemma LineInside(s: string)
    requires 0 < |s| && LineEnd(s) < |s|
    ensures IsLine(s[..LineEnd(s)])
  {
    var n := LineEnd(s);
    assert s[..n][n - 1] == s[n - 1];
  }

  /** What the edit does with the first line of a text that fits. */
  lemma RewriteFirst(s: string, f: string, v: string)
    requires |s| > 0 && Fits(s)
    ensures var n := LineEnd(s);
            && Found(s, f) == (Matches(s[..n], f) || Found(s[n..], f))
            && Rewritten(s, f, v) == if Matches(s[..n], f) then Cut(NewLine(f, v)) + s[n..]
                                     else s[..n] + Rewritten(s[n..], f, v)
  {}

  /** The edit exchanges the first line for the field and nothing else. */
  lemma {:induction false} EditExchanges(s: string, f: string, v: string)
      returns (front: string, line: string, rest: string)
    requires Fits(s) && Found(s, f)
    ensures Exchanged(s, Rewritten(s, f, v), f, Cut(NewLine(f, v)), front, line, rest)
    decreases |s|
  {
    var n := LineEnd(s);
    var first, later := s[..n], s[n..];
    assert first + later == s;
    RewriteFirst(s, f, v);
    if Matches(first, f) {
      front, line, rest := "", first, later;
      ExchangedHere(first, later, f, Cut(NewLine(f, v)));
    } else {
      LineInside(s);
      front, line, rest := EditExchanges(later, f, v);
      ExchangedBehind(first, later, Rewritten(later, f, v), f, Cut(NewLine(f, v)), front, line, rest);
      front := first + front;
    }
  }

  /** Without such a line it adds one at the end. */
  lemma {:induction false} EditAppends(s: string, f: string, v: string)
    requires Fits(s) && !Found(s, f)
    ensures Rewritten(s, f, v) == s + NewLine(f, v)
    decreases |s|
  {
    if |s| > 0 {
      var n := LineEnd(s);
      EditAppends(s[n..], f, v);
      Regroup(s[..n], s[n..], NewLine(f, v));
      assert s[..n] + s[n..] == s;
    }
  }

  // ------------------------------------------------------------------- the file

  /** The configuration file; None when there is none. */
  class ConfigFile {
    var content: Option<string>

    /**
     `sigma_write_cfg`. The flags tell whether the file and the temporary file can be opened, whether the
     latter can be renamed and whether the access rights can be set; if not these, the file is removed.
     */
    method Write(field: string, value: string, opens: bool, tempOpens: bool, renames: bool, chmods: bool)
        returns (res: int)
      modifies this
      ensures res == 0 <==> old(content).Some? && opens && tempOpens && renames && chmods
      ensures res == 0 ==> content == Some(Rewritten(old(content).value, field, value))
      ensures res != 0 ==> res == -1
      ensures res != 0 ==> content == if old(content).Some? && opens && tempOpens && !chmods then None else old(content)
    {
      if content.None? || !opens || !tempOpens { return -1; }
      var temp := Rewrite(content.value, field, value);
      if renames { content := Some(temp); }
      if !chmods {
        content := None;
        return -1;
      }
      if !renames { return -1; }
      return 0;
    }
  }
}
