/** Small shared vocabulary: optional values, outcomes, and the whitespace rules of Go's `strings` package. */
module Text {
  datatype Option<+T> = None | Some(value: T)

  datatype Outcome<+T> = Ok(value: T) | Err

  /** White space in the sense of `unicode.IsSpace`. */
  predicate IsSpace(c: char) {
    || '\t' <= c <= '\r' || c == ' ' || c == '\U{0085}' || c == '\U{00A0}' || c == '\U{1680}'
    || '\U{2000}' <= c <= '\U{200A}' || c == '\U{2028}' || c == '\U{2029}' || c == '\U{202F}'
    || c == '\U{205F}' || c == '\U{3000}'
  }

  function TrimLeft(s: string): (r: string)
    ensures |r| <= |s|
    ensures r != "" ==> !IsSpace(r[0])
  {
    if s != "" && IsSpace(s[0]) then TrimLeft(s[1..]) else s
  }

  function TrimRight(s: string): (r: string)
    ensures r <= s
    ensures r != "" ==> !IsSpace(r[|r| - 1])
  {
    if s != "" && IsSpace(s[|s| - 1]) then TrimRight(s[..|s| - 1]) else s
  }

  /** `strings.TrimSpace`. */
  function Trim(s: string): (r: string)
    ensures r != "" ==> !IsSpace(r[0]) && !IsSpace(r[|r| - 1])
  {
    TrimRight(TrimLeft(s))
  }

  /** `strings.TrimSpace(s) == ""`; see `BlankTrims`. */
  predicate Blank(s: string) { forall i | 0 <= i < |s| :: IsSpace(s[i]) }

  lemma {:induction false} BlankTrims(s: string)
    ensures Blank(s) <==> Trim(s) == ""
  {
    if s == "" {
    } else if IsSpace(s[0]) {
      BlankTrims(s[1..]);
      assert Blank(s) <==> Blank(s[1..]);
    } else {
      TrimRightKeepsHead(s);
    }
  }

  lemma {:induction false} TrimRightKeepsHead(s: string)
    requires s != "" && !IsSpace(s[0])
    ensures TrimRight(s) != ""
  {
    if IsSpace(s[|s| - 1]) { TrimRightKeepsHead(s[..|s| - 1]); }
  }

  /** Text that neither starts nor ends with white space is its own trimming. */
  lemma TrimStable(s: string)
    requires s != "" ==> !IsSpace(s[0]) && !IsSpace(s[|s| - 1])
    ensures Trim(s) == s
  {
  }

  lemma TrimIdempotent(s: string)
    ensures Trim(Trim(s)) == Trim(s)
  {
    TrimStable(Trim(s));
  }

  lemma {:induction false} TrimRightSplits(s: string) returns (after: string)
    ensures s == TrimRight(s) + after && Blank(after)
    decreases |s|
  {
    hide IsSpace;
    if s != "" && IsSpace(s[|s| - 1]) {
      var rest := TrimRightSplits(s[..|s| - 1]);
      after := rest + [s[|s| - 1]];
    } else {
      after := "";
    }
  }

  lemma {:induction false} TrimLeftSplits(s: string) returns (before: string)
    ensures s == before + TrimLeft(s) && Blank(before)
  {
    hide IsSpace;
    if s != "" && IsSpace(s[0]) {
      var rest := TrimLeftSplits(s[1..]);
      before := [s[0]] + rest;
      assert s == [s[0]] + s[1..] == [s[0]] + (rest + TrimLeft(s[1..])) == before + TrimLeft(s[1..]);
    } else {
      before := "";
    }
  }

  /** Nothing but white space at the two ends is taken away. */
  lemma TrimSplits(s: string) returns (before: string, after: string)
    ensures s == before + Trim(s) + after && Blank(before) && Blank(after)
  {
    before := TrimLeftSplits(s);
    after := TrimRightSplits(TrimLeft(s));
  }
}
