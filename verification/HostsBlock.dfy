/** The appliance's managed block in `/etc/hosts`. */
module HostsBlock {
  import opened Text

  const BEGIN := "# BEGIN zon-appliance-dns"
  const END := "# END zon-appliance-dns"

  predicate At(s: string, p: string, i: int) { 0 <= i && i + |p| <= |s| && s[i..i + |p|] == p }

  /** `strings.Index`: the first occurrence, or -1. */
  function Index(s: string, p: string): (i: int)
    ensures i >= 0 ==> At(s, p, i)
    ensures i < 0 ==> i == -1
    ensures forall j | 0 <= j && (i < 0 || j < i) :: !At(s, p, j)
  {
    if |s| < |p| then -1
    else if s[..|p|] == p then 0
    else if s == "" then -1
    else
      var i := Index(s[1..], p);
      assert forall j | 0 < j :: At(s, p, j) <==> At(s[1..], p, j - 1) by { ShiftAt(s, p); }
      if i < 0 then -1 else i + 1
  }

  lemma ShiftAt(s: string, p: string)
    requires s != ""
    ensures forall j | 0 < j :: At(s, p, j) <==> At(s[1..], p, j - 1)
  {
    forall j | 0 < j ensures At(s, p, j) <==> At(s[1..], p, j - 1) {
      if j + |p| <= |s| { assert s[1..][j - 1..j - 1 + |p|] == s[j..j + |p|]; }
    }
  }

  predicate Contains(s: string, p: string) { Index(s, p) >= 0 }

  predicate LineEnd(c: char) { c == '\n' || c == '\r' }

  /** The index after the line breaks that start at `i`. */
  function SkipLineEnds(s: string, i: nat): (e: nat)
    requires i <= |s|
    ensures i <= e <= |s|
    ensures forall k | i <= k < e :: LineEnd(s[k])
    ensures e < |s| ==> !LineEnd(s[e])
    decreases |s| - i
  {
    if i < |s| && LineEnd(s[i]) then SkipLineEnds(s, i + 1) else i
  }

  datatype Span = NoBlock | Malformed | Span(start: nat, end: nat)

  /** The first block with the line breaks after it. */
  function FirstBlock(body: string): (r: Span)
    ensures r.Span? ==> r.start <= r.end <= |body|
  {
    var start := Index(body, BEGIN);
    if start < 0 then NoBlock
    else
      var end := Index(body[start..], END);
      if end < 0 then Malformed else Span(start, SkipLineEnds(body, start + end + |END|))
  }

  function Terminated(body: string): string { if body != "" && body[|body| - 1] != '\n' then body + "\n" else body }

  /** What a block replaces, or follows. */
  function Before(body: string): string {
    var b := FirstBlock(body);
    if b.Span? then body[..b.start] else Terminated(body)
  }

  function After(body: string): string {
    var b := FirstBlock(body);
    if b.Span? then body[b.end..] else ""
  }

  function Replaced(body: string, block: string): Outcome<string> {
    if FirstBlock(body).Malformed? then Err else Ok(Before(body) + block + After(body))
  }

  function Stripped(body: string): string {
    var b := FirstBlock(body);
    if b.Span? then body[..b.start] + body[b.end..] else body
  }

  /** The scan with its index-advancing loop. */
  method Locate(body: string) returns (span: Span)
    ensures span == FirstBlock(body)
  {
    var start := Index(body, BEGIN);
    if start < 0 { return NoBlock; }
    var end := Index(body[start..], END);
    if end < 0 { return Malformed; }
    end := start + end + |END|;
    ghost var from := end;
    while end < |body| && LineEnd(body[end])
      invariant from <= end <= |body|
      invariant SkipLineEnds(body, from) == SkipLineEnds(body, end)
    {
      end := end + 1;
    }
    return Span(start, end);
  }

  method ReplaceOrAppend(body: string, block: string) returns (r: Outcome<string>)
    ensures r == Replaced(body, block)
  {
    var span := Locate(body);
    match span
    case NoBlock =>
      var text := body;
      if text != "" && text[|text| - 1] != '\n' { text := text + "\n"; }
      assert text + block == text + block + "";
      return Ok(text + block);
    case Malformed => return Err;
    case Span(start, end) => return Ok(body[..start] + block + body[end..]);
  }

  method Strip(body: string) returns (r: string, changed: bool)
    ensures r == Stripped(body) && (changed <==> FirstBlock(body).Span?)
  {
    var span := Locate(body);
    if span.Span? { return body[..span.start] + body[span.end..], true; }
    return body, false;
  }

  // ---- Blocks ----------------------------------------------------------------------------------

  function Block(line: string): string { BEGIN + "\n" + line + "\n" + END + "\n" }

  /** One line without a marker in it. */
  predicate GoodLine(line: string) { '\n' !in line && !Contains(line, BEGIN) && !Contains(line, END) }

  /** A line without number signs, such as an address and host names, has no marker in it. */
  lemma PlainLineIsGood(line: string)
    requires '\n' !in line && '#' !in line
    ensures GoodLine(line)
  {
    MarkersHaveNoBorder();
    NoNumberSign(line, BEGIN);
    NoNumberSign(line, END);
  }

  lemma NoNumberSign(line: string, marker: string)
    requires '#' !in line && marker != "" && marker[0] == '#'
    ensures !Contains(line, marker)
  {
    assert forall i | At(line, marker, i) :: line[i] == line[i..i + |marker|][0];
  }

  lemma IndexIs(s: string, p: string, i: nat)
    requires At(s, p, i) && forall j | 0 <= j < i :: !At(s, p, j)
    ensures Index(s, p) == i
  {
  }

  lemma MarkersHaveNoBorder()
    ensures forall i | 1 <= i < |BEGIN| :: BEGIN[i] != '#'
    ensures forall i | 1 <= i < |END| :: END[i] != '#'
    ensures forall i | 0 <= i < |BEGIN| :: BEGIN[i] != '\n'
    ensures forall i | 0 <= i < |END| :: END[i] != '\n'
    ensures BEGIN[0] == END[0] == '#' && BEGIN[2] != END[2]
    ensures |BEGIN| == 25 && |END| == 23
  {
  }

  /** The places of a block's parts in any text that starts with it. */
  lemma BlockLayout(line: string, rest: string)
    ensures var t, e := Block(line) + rest, |BEGIN| + 2 + |line|;
            && |Block(line)| == e + |END| + 1 && |t| == |Block(line)| + |rest|
            && t[..|BEGIN|] == BEGIN && t[|BEGIN|] == '\n'
            && t[|BEGIN| + 1..|BEGIN| + 1 + |line|] == line && t[e - 1] == '\n'
            && t[e..e + |END|] == END && t[e + |END|] == '\n'
            && t[|Block(line)|..] == rest
  {
  }

  lemma OccurrenceInPart(t: string, p: string, j: nat, part: string, from: nat)
    requires At(t, p, j) && from <= j && j + |p| <= from + |part| <= |t| && t[from..from + |part|] == part
    ensures At(part, p, j - from)
  {
    forall k | 0 <= k < |p| ensures part[j - from + k] == p[k] {
      assert t[from..from + |part|][j - from + k] == t[j + k] == t[j..j + |p|][k];
    }
    assert part[j - from..j - from + |p|] == p;
  }

  lemma OccurrenceMisses(t: string, p: string, j: nat, n: nat)
    requires At(t, p, j) && n < |t| && t[n] !in p
    ensures !(j <= n < j + |p|)
  {
    assert forall k | j <= k < j + |p| :: t[k] == t[j..j + |p|][k - j];
  }

  lemma MarkerInMarker(outer: string, marker: string, j: nat)
    requires (outer == BEGIN || outer == END) && (marker == BEGIN || marker == END) && At(outer, marker, j)
    ensures outer == marker && j == 0
  {
    MarkersHaveNoBorder();
    assert outer[j] == outer[j..j + |marker|][0] == '#';
    assert outer[j + 2] == outer[j..j + |marker|][2] == marker[2];
  }

  lemma NotAnywhere(s: string, p: string, i: nat)
    requires !Contains(s, p)
    ensures !At(s, p, i)
  {
  }

  /** Inside a block each marker occurs once, at its own place, even if text follows. */
  lemma MarkersInBlock(line: string, rest: string, marker: string, j: nat)
    requires GoodLine(line) && (marker == BEGIN || marker == END)
    requires At(Block(line) + rest, marker, j) && j < |Block(line)|
    ensures if marker == BEGIN then j == 0 else j == |BEGIN| + 2 + |line|
  {
    hide Block, At, Index;
    var t, e := Block(line) + rest, |BEGIN| + 2 + |line|;
    BlockLayout(line, rest);
    assert '\n' !in marker && |marker| > 0 by { MarkersHaveNoBorder(); }
    OccurrenceMisses(t, marker, j, |BEGIN|);
    OccurrenceMisses(t, marker, j, e - 1);
    OccurrenceMisses(t, marker, j, e + |END|);
    if j < |BEGIN| {
      OccurrenceInPart(t, marker, j, BEGIN, 0);
      MarkerInMarker(BEGIN, marker, j);
    } else if j < e - 1 {
      assert !Contains(line, marker);
      NotAnywhere(line, marker, j - |BEGIN| - 1);
      OccurrenceInPart(t, marker, j, line, |BEGIN| + 1);
    } else {
      OccurrenceInPart(t, marker, j, END, e);
      MarkerInMarker(END, marker, j - e);
    }
  }

  // ---- Where the first block is ----------------------------------------------------------------

  /** A block put after `before` is the first one. */
  ghost predicate LeadsUp(before: string) { forall j | 0 <= j < |before| :: !At(before + BEGIN, BEGIN, j) }

  lemma {:induction false} SkipInSuffix(prefix: string, s: string, i: nat)
    requires i <= |s|
    ensures SkipLineEnds(prefix + s, |prefix| + i) == |prefix| + SkipLineEnds(s, i)
    decreases |s| - i
  {
    if i < |s| && LineEnd(s[i]) { SkipInSuffix(prefix, s, i + 1); }
  }

  lemma BeginFound(before: string, line: string, rest: string)
    requires LeadsUp(before)
    ensures Index(before + Block(line) + rest, BEGIN) == |before|
  {
    var t, tail := before + Block(line) + rest, Block(line) + rest;
    BlockLayout(line, rest);
    hide Block;
    assert t == before + tail;
    assert t[..|before| + |BEGIN|] == before + BEGIN;
    assert t[|before|..|before| + |BEGIN|] == tail[..|BEGIN|];
    forall j | 0 <= j < |before| ensures !At(t, BEGIN, j) {
      if At(t, BEGIN, j) { OccurrenceInPart(t, BEGIN, j, before + BEGIN, 0); }
    }
    IndexIs(t, BEGIN, |before|);
  }

  lemma EndFound(line: string, rest: string)
    requires GoodLine(line)
    ensures Index(Block(line) + rest, END) == |BEGIN| + 2 + |line|
  {
    BlockLayout(line, rest);
    hide Block, GoodLine;
    var tail, e := Block(line) + rest, |BEGIN| + 2 + |line|;
    forall j | 0 <= j < e ensures !At(tail, END, j) {
      if At(tail, END, j) { MarkersInBlock(line, rest, END, j); }
    }
    IndexIs(tail, END, e);
  }

  lemma BlockFound(before: string, line: string, rest: string)
    requires LeadsUp(before) && GoodLine(line)
    ensures FirstBlock(before + Block(line) + rest) == Span(|before|, |before| + |Block(line)| + SkipLineEnds(rest, 0))
  {
    hide Block, GoodLine, Index, LeadsUp;
    var t, tail, e := before + Block(line) + rest, Block(line) + rest, |BEGIN| + 2 + |line|;
    BeginFound(before, line, rest);
    EndFound(line, rest);
    BlockLayout(line, rest);
    assert t[|before|..] == tail;
    assert t[|before| + e + |END|] == t[|before|..][e + |END|] == '\n';
    SkipInSuffix(before + Block(line), rest, 0);
  }

  lemma BeforeLeadsUp(body: string)
    requires !FirstBlock(body).Malformed?
    ensures LeadsUp(Before(body))
  {
    var p := Before(body);
    forall j | 0 <= j < |p| ensures !At(p + BEGIN, BEGIN, j) {
      if At(p + BEGIN, BEGIN, j) { OccurrenceInBody(body, j); }
    }
  }

  /** A marker that starts before the place of the block is in the body already. */
  lemma OccurrenceInBody(body: string, j: nat)
    requires !FirstBlock(body).Malformed? && j < |Before(body)| && At(Before(body) + BEGIN, BEGIN, j)
    ensures At(body, BEGIN, j)
  {
    var p, start := Before(body), Index(body, BEGIN);
    if start >= 0 {
      assert p + BEGIN == body[..start + |BEGIN|];
      assert body[j..j + |BEGIN|] == (p + BEGIN)[j..j + |BEGIN|];
    } else {
      OccurrenceBeforeMarker(p, j);
      OccurrenceInTerminated(body, j);
    }
  }

  lemma OccurrenceBeforeMarker(p: string, j: nat)
    requires j < |p| && At(p + BEGIN, BEGIN, j)
    ensures At(p, BEGIN, j)
  {
    MarkersHaveNoBorder();
    assert forall k | j <= k < j + |BEGIN| :: (p + BEGIN)[k] == (p + BEGIN)[j..j + |BEGIN|][k - j] == BEGIN[k - j];
    assert (p + BEGIN)[|p|] == '#';
    assert p[j..j + |BEGIN|] == (p + BEGIN)[j..j + |BEGIN|];
  }

  lemma OccurrenceInTerminated(body: string, j: nat)
    requires At(Terminated(body), BEGIN, j)
    ensures At(body, BEGIN, j)
  {
    MarkersHaveNoBorder();
    var p := Terminated(body);
    if |p| > |body| { OccurrenceMisses(p, BEGIN, j, |body|); }
    assert body[j..j + |BEGIN|] == p[j..j + |BEGIN|];
  }

  lemma AfterStartsText(body: string)
    ensures SkipLineEnds(After(body), 0) == 0
  {
  }

  /** The parts of a body that a block has just been written to. */
  lemma WrittenParts(body: string, line: string)
    requires !FirstBlock(body).Malformed? && GoodLine(line)
    ensures var written := Before(body) + Block(line) + After(body);
            FirstBlock(written).Span? && Before(written) == Before(body) && After(written) == After(body)
  {
    BeforeLeadsUp(body);
    AfterStartsText(body);
    BlockFound(Before(body), line, After(body));
    var written := Before(body) + Block(line) + After(body);
    hide Block, FirstBlock, GoodLine;
    assert written[|Before(body) + Block(line)|..] == After(body);
  }

  // ---- Laws of the editor ----------------------------------------------------------------------

  /** The last write wins, and writing twice is writing once. */
  lemma LastWriteWins(body: string, x: string, y: string)
    requires !FirstBlock(body).Malformed? && GoodLine(x) && GoodLine(y)
    ensures Replaced(body, Block(x)).Ok?
    ensures Replaced(Replaced(body, Block(x)).value, Block(y)) == Replaced(body, Block(y))
  {
    WrittenParts(body, x);
  }

  /** Removing what was written gives the body without its old block, with its last line terminated if it had no block. */
  lemma StripUndoesWrite(body: string, line: string)
    requires !FirstBlock(body).Malformed? && GoodLine(line)
    ensures Stripped(Replaced(body, Block(line)).value) == if FirstBlock(body).Span? then Stripped(body) else Terminated(body)
  {
    WrittenParts(body, line);
    hide Block, GoodLine;
  }

  /** A block that is appended starts a line of its own, and the text before it is the body, its last line terminated. */
  lemma AppendedOnOwnLine(body: string, block: string)
    requires FirstBlock(body).NoBlock?
    ensures var text := Replaced(body, block).value;
            && Replaced(body, block).Ok?
            && text == body + (if body == "" || body[|body| - 1] == '\n' then "" else "\n") + block
  {
    assert body + "" == body;
    assert Terminated(body) + block + "" == Terminated(body) + block;
  }

  /** A block that is replaced leaves the text before it as it is, and of the text after it takes the line breaks that follow. */
  lemma ReplacedInPlace(body: string, block: string)
    requires FirstBlock(body).Span?
    ensures var b := FirstBlock(body);
            && Replaced(body, block) == Ok(body[..b.start] + block + body[b.end..])
            && Stripped(body) == body[..b.start] + body[b.end..]
            && At(body, "# BEGIN zon-appliance-dns", b.start) && (b.end < |body| ==> body[b.end] != '\n' && body[b.end] != '\r')
  {
  }

  // ---- The shortcut of the caller --------------------------------------------------------------

  /** `ensureHostsEntry` leaves a file alone that contains the block anywhere. */
  function Ensured(body: string, line: string): string
    requires !FirstBlock(body).Malformed?
  {
    if Contains(body, Block(line)) then body else Replaced(body, Block(line)).value
  }

  /** What to write, if anything. */
  method EnsureHostsEntry(body: string, line: string) returns (r: Outcome<Option<string>>)
    ensures FirstBlock(body).Malformed? && !Contains(body, Block(line)) <==> r.Err?
    ensures r.Ok? && !FirstBlock(body).Malformed? ==> Ensured(body, line) == if r.value.Some? then r.value.value else body
    ensures r.Ok? && r.value.Some? ==> r.value.value != body
  {
    if Contains(body, Block(line)) { return Ok(None); }
    var updated := ReplaceOrAppend(body, Block(line));
    if updated.Err? { return Err; }
    if updated.value == body { return Ok(None); }
    return Ok(Some(updated.value));
  }

  lemma ContainsAt(s: string, p: string, i: nat)
    requires At(s, p, i)
    ensures Contains(s, p)
  {
  }

  lemma LineAtStart(s: string, line: string)
    requires At(s, Block(line), 0)
    ensures |s| > |BEGIN| + 1 + |line| && s[|BEGIN| + 1..|BEGIN| + 1 + |line|] == line && s[|BEGIN| + 1 + |line|] == '\n'
  {
    BlockLayout(line, s[|Block(line)|..]);
    hide Block;
    assert s == Block(line) + s[|Block(line)|..];
  }

  lemma NotShorter(x: string, y: string, s: string)
    requires '\n' !in y && At(s, Block(x), 0) && At(s, Block(y), 0)
    ensures |x| >= |y|
  {
    LineAtStart(s, x);
    LineAtStart(s, y);
    hide Block;
    OccurrenceMisses(s, y, |BEGIN| + 1, |BEGIN| + 1 + |x|);
  }

  lemma SameLine(x: string, y: string, s: string)
    requires '\n' !in x && '\n' !in y
    requires At(s, Block(x), 0) && At(s, Block(y), 0)
    ensures x == y
  {
    hide Block;
    NotShorter(x, y, s);
    NotShorter(y, x, s);
    LineAtStart(s, x);
    LineAtStart(s, y);
  }

  /** After a write, another block is in the file exactly when it is in the text after the first one. */
  lemma OtherBlockSurvives(before: string, x: string, rest: string, y: string)
    requires LeadsUp(before) && GoodLine(x) && GoodLine(y) && x != y
    ensures Contains(before + Block(x) + rest, Block(y)) <==> Contains(rest, Block(y))
  {
    hide Block, LeadsUp, GoodLine, At;
    var t := before + Block(x) + rest;
    var i, k := Index(t, Block(y)), Index(rest, Block(y));
    if k >= 0 { OccurrenceShifts(before + Block(x), rest, Block(y), k); }
    if i >= 0 {
      OtherBlockAfter(before, x, rest, y, i);
      ContainsAt(rest, Block(y), i - |before + Block(x)|);
    }
  }

  lemma OtherBlockAfter(before: string, x: string, rest: string, y: string, i: nat)
    requires LeadsUp(before) && GoodLine(x) && GoodLine(y) && x != y
    requires At(before + Block(x) + rest, Block(y), i)
    ensures i >= |before + Block(x)| && At(rest, Block(y), i - |before + Block(x)|)
  {
    hide LeadsUp, Block, Contains;
    var t, tail := before + Block(x) + rest, Block(x) + rest;
    BlockBegins(t, y, i);
    BlockNotBefore(before, x, rest, i);
    assert t[|before|..|before| + |tail|] == tail;
    OccurrenceInPart(t, BEGIN, i, tail, |before|) by { BlockLonger(y); }
    OccurrenceInPart(t, Block(y), i, tail, |before|);
    if i - |before| < |Block(x)| {
      MarkersInBlock(x, rest, BEGIN, i - |before|);
      assert tail[0..|Block(x)|] == Block(x);
      SameLine(x, y, tail);
    } else {
      assert t[|before + Block(x)|..|before + Block(x)| + |rest|] == rest;
      OccurrenceInPart(t, Block(y), i, rest, |before + Block(x)|);
    }
  }

  lemma BlockLonger(line: string)
    ensures |Block(line)| > |BEGIN|
  {
  }

  lemma OccurrenceShifts(prefix: string, s: string, p: string, k: nat)
    requires At(s, p, k)
    ensures Contains(prefix + s, p)
  {
    assert (prefix + s)[|prefix| + k..|prefix| + k + |p|] == s[k..k + |p|];
    ContainsAt(prefix + s, p, |prefix| + k);
  }

  lemma BlockBegins(t: string, line: string, i: nat)
    requires At(t, Block(line), i)
    ensures At(t, BEGIN, i)
  {
    assert t[i..i + |BEGIN|] == t[i..i + |Block(line)|][..|BEGIN|];
  }

  lemma BlockNotBefore(before: string, line: string, rest: string, i: nat)
    requires LeadsUp(before) && At(before + Block(line) + rest, BEGIN, i)
    ensures i >= |before|
  {
    var t := before + Block(line) + rest;
    assert t[..|before| + |BEGIN|] == before + BEGIN;
    if i < |before| { OccurrenceInPart(t, BEGIN, i, before + BEGIN, 0); }
  }

  /** Through the shortcut the last write wins exactly when the earlier one changed nothing, or the later block was not there
      yet, or it is the first block, as it would be written now, and the only copy. */
  lemma LastEntryWinsIff(body: string, x: string, y: string)
    requires !FirstBlock(body).Malformed? && GoodLine(x) && GoodLine(y)
    ensures !FirstBlock(Ensured(body, x)).Malformed?
    ensures Ensured(Ensured(body, x), y) == Ensured(body, y)
       <==> || Contains(body, Block(x)) || !Contains(body, Block(y))
            || (Replaced(body, Block(y)) == Ok(body) && !Contains(After(body), Block(y)))
  {
    WrittenParts(body, x);
    BeforeLeadsUp(body);
    LastWriteWins(body, x, y);
    if x != y { OtherBlockSurvives(Before(body), x, After(body), y); }
    AfterIsPart(body, Block(y));
    WrittenContains(body, x);
    hide Block, GoodLine, FirstBlock, Before, After, Index, LeadsUp;
  }

  lemma AfterIsPart(body: string, p: string)
    requires p != ""
    ensures Contains(After(body), p) ==> Contains(body, p)
  {
    var b := FirstBlock(body);
    if b.Span? && Contains(After(body), p) {
      assert body == body[..b.end] + After(body);
      OccurrenceShifts(body[..b.end], After(body), p, Index(After(body), p));
    }
  }

  lemma WrittenContains(body: string, line: string)
    ensures Contains(Before(body) + Block(line) + After(body), Block(line))
  {
    hide Before, After, Block;
    var t := Before(body) + Block(line) + After(body);
    assert t[|Before(body)|..|Before(body)| + |Block(line)|] == Block(line);
    ContainsAt(t, Block(line), |Before(body)|);
  }
}
