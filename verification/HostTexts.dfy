/** The lines of generated files that carry what the operator chose, and why such a file tells what it was made of. */
module HostTexts {
  /** A path as it can stand on a command line of a unit file. */
  predicate Word(s: string) { forall i | 0 <= i < |s| :: s[i] != ' ' && s[i] != '\n' }

  /** Go's `%q`, for text without further control characters. */
  function Escape(c: char): (r: string)
    ensures r != ""
  {
    if c == '\n' then "\\n" else if c == '"' then "\\\"" else if c == '\\' then "\\\\" else [c]
  }

  function Escaped(s: string): string { if s == "" then "" else Escape(s[0]) + Escaped(s[1..]) }

  function Quote(s: string): string { "\"" + Escaped(s) + "\"" }

  lemma SamePrefix(p: string, x: string, y: string)
    requires p + x == p + y
    ensures x == y
  {
    assert x == (p + x)[|p|..] && y == (p + y)[|p|..];
  }

  /** A word ends at the first space. */
  lemma {:induction false} WordEnds(x: string, y: string, restX: string, restY: string)
    requires Word(x) && Word(y)
    requires restX != "" && restY != "" && (restX[0] == ' ' || restX[0] == '\n') && (restY[0] == ' ' || restY[0] == '\n')
    requires x + restX == y + restY
    ensures x == y && restX == restY
    decreases |x|
  {
    assert (x + restX)[0] == if x == "" then restX[0] else x[0];
    assert (y + restY)[0] == if y == "" then restY[0] else y[0];
    assert x == "" <==> y == "";
    if x == "" {
      assert restX == x + restX == y + restY == restY;
    } else {
      assert x == [x[0]] + x[1..] && y == [y[0]] + y[1..];
      Reassociate([x[0]], x[1..], restX);
      Reassociate([y[0]], y[1..], restY);
      SamePrefix([x[0]], x[1..] + restX, y[1..] + restY);
      WordEnds(x[1..], y[1..], restX, restY);
    }
  }

  lemma Reassociate(x: string, y: string, z: string)
    ensures (x + y) + z == x + (y + z)
  {
  }

  /** A quotation ends at the first quotation mark that is not escaped. */
  lemma {:induction false} QuotationEnds(x: string, y: string, restX: string, restY: string)
    requires Escaped(x) + ("\"" + restX) == Escaped(y) + ("\"" + restY)
    ensures x == y && restX == restY
    decreases |x|
  {
    EscapedStart(x, "\"" + restX);
    EscapedStart(y, "\"" + restY);
    assert x == "" <==> y == "";
    if x == "" {
      SamePrefix("\"", restX, restY);
    } else {
      EscapesDiffer(x[0], y[0], Escaped(x[1..]) + ("\"" + restX), Escaped(y[1..]) + ("\"" + restY));
      QuotationEnds(x[1..], y[1..], restX, restY);
    }
  }

  lemma EscapedStart(x: string, rest: string)
    requires rest != "" && rest[0] == '"'
    ensures var s := Escaped(x) + rest; s != "" && (x == "" <==> s[0] == '"')
    ensures if x == "" then Escaped(x) + rest == rest else Escaped(x) + rest == Escape(x[0]) + (Escaped(x[1..]) + rest)
  {
    if x != "" {
      var first, more := Escape(x[0]), Escaped(x[1..]);
      assert Escaped(x) == first + more;
      hide Escaped, Escape;
      Reassociate(first, more, rest);
      assert (first + (more + rest))[0] == first[0] != '"' by { EscapeHead(x[0]); }
    }
  }

  lemma EscapeHead(c: char)
    ensures Escape(c)[0] != '"'
  {
  }

  lemma EscapesDiffer(c: char, d: char, restC: string, restD: string)
    requires Escape(c) + restC == Escape(d) + restD
    ensures c == d && restC == restD
  {
    var s := Escape(c) + restC;
    assert s[0] == Escape(c)[0] == Escape(d)[0];
    assert |Escape(c)| == 2 && |Escape(d)| == 2 ==> s[1] == Escape(c)[1] == Escape(d)[1];
    assert c == d;
    SamePrefix(Escape(c), restC, restD);
  }

  lemma QuoteEnds(x: string, y: string, restX: string, restY: string)
    requires Quote(x) + restX == Quote(y) + restY
    ensures x == y && restX == restY
  {
    assert Quote(x) + restX == "\"" + (Escaped(x) + ("\"" + restX));
    assert Quote(y) + restY == "\"" + (Escaped(y) + ("\"" + restY));
    SamePrefix("\"", Escaped(x) + ("\"" + restX), Escaped(y) + ("\"" + restY));
    QuotationEnds(x, y, restX, restY);
  }
}
