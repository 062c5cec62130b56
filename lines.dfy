/** The lines the Foo-Bar firmware writes to its serial port (main/main.cpp),
    their exact text, and a parser that inverts the formatting. */
module Lines {
  import opened Primality

  datatype Option<T> = None | Some(value: T)

  /** One line on the serial port. */
  datatype Line =
    | Foo(value: nat, prime: bool)   // foo_task, for an even count
    | Bar(value: nat, prime: bool)   // bar_task, for an odd count
    | Received(value: nat)           // uart_event_task, input accepted
    | CurrentlyFull                  // uart_event_task, inbox full
    | Prompt                         // idleTask, once at start-up

  /** A line written by one of the two classifier workers. */
  predicate IsWorkerLine(l: Line) {
    l.Foo? || l.Bar?
  }

  /** The line a worker writes for count c: Foo when c is even, Bar when it is
      odd, tagged Prime exactly when c is prime. */
  function Classify(c: nat): (l: Line)
    ensures IsWorkerLine(l) && l.value == c
    ensures l.Foo? <==> c % 2 == 0
    ensures l.prime <==> Prime(c)
  {
    if c % 2 == 0 then Foo(c, Prime(c)) else Bar(c, Prime(c))
  }

  // ---------------------------------------------------------------------------
  // Decimal numerals, as printed by "%lu"
  // ---------------------------------------------------------------------------

  predicate IsDigit(ch: char) {
    '0' <= ch <= '9'
  }

  predicate AllDigits(s: string) {
    forall k :: 0 <= k < |s| ==> IsDigit(s[k])
  }

  /** A numeral without superfluous leading zeros. */
  predicate Canonical(s: string) {
    |s| >= 1 && AllDigits(s) && (s[0] == '0' ==> |s| == 1)
  }

  function DigitChar(d: nat): char
    requires d < 10
  {
    "0123456789"[d]
  }

  function DigitValue(ch: char): nat
    requires IsDigit(ch)
  {
    ch as int - '0' as int
  }

  /** The decimal numeral of n. */
  function Decimal(n: nat): (s: string)
    ensures Canonical(s)
    ensures n >= 10 ==> s[0] != '0'
  {
    if n < 10 then [DigitChar(n)] else Decimal(n / 10) + [DigitChar(n % 10)]
  }

  /** The number a string of digits denotes. */
  function DigitsValue(s: string): nat
    requires AllDigits(s)
  {
    if s == [] then 0 else DigitsValue(s[..|s| - 1]) * 10 + DigitValue(s[|s| - 1])
  }

  /** Reading back a numeral gives the number it was printed from. */
  lemma {:induction false} DecimalRoundTrip(n: nat)
    ensures DigitsValue(Decimal(n)) == n
  {
    if n >= 10 {
      DecimalRoundTrip(n / 10);
      var s := Decimal(n);
      assert s[..|s| - 1] == Decimal(n / 10);
    }
  }

  lemma {:induction false} LeadingDigitPositive(s: string)
    requires Canonical(s) && s[0] != '0'
    ensures DigitsValue(s) >= 1
  {
    if |s| > 1 {
      LeadingDigitPositive(s[..|s| - 1]);
    }
  }

  /** Printing the number a canonical numeral denotes gives back that numeral. */
  lemma {:induction false} CanonicalRoundTrip(s: string)
    requires Canonical(s)
    ensures Decimal(DigitsValue(s)) == s
  {
    if |s| > 1 {
      var init := s[..|s| - 1];
      assert Canonical(init);
      CanonicalRoundTrip(init);
      LeadingDigitPositive(init);
      var n := DigitsValue(s);
      assert n / 10 == DigitsValue(init) && n % 10 == DigitValue(s[|s| - 1]);
      assert s == init + [s[|s| - 1]];
    }
  }

  // ---------------------------------------------------------------------------
  // Formatting (the snprintf / uart_write_bytes calls) and parsing
  // ---------------------------------------------------------------------------

  function PrimeSuffix(prime: bool): string {
    if prime then " Prime\n" else "\n"
  }

  /** The exact text written for a line, ended by a newline. */
  function Render(l: Line): (s: string)
    ensures |s| >= 2 && s[|s| - 1] == '\n'
  {
    match l
    case Foo(v, p) => "Foo " + Decimal(v) + PrimeSuffix(p)
    case Bar(v, p) => "Bar " + Decimal(v) + PrimeSuffix(p)
    case Received(v) => "Received " + Decimal(v) + "\n"
    case CurrentlyFull => "Currently full\n"
    case Prompt => "Enter the number : \n"
  }

  /** The text of a sequence of lines, line by line. */
  function RenderAll(ls: seq<Line>): seq<string> {
    if ls == [] then [] else [Render(ls[0])] + RenderAll(ls[1..])
  }

  /** RenderAll renders line by line: same length, k-th text of k-th line. */
  lemma {:induction false} RenderAllLines(ls: seq<Line>)
    ensures |RenderAll(ls)| == |ls|
    ensures forall k :: 0 <= k < |ls| ==> RenderAll(ls)[k] == Render(ls[k])
  {
    if ls != [] {
      RenderAllLines(ls[1..]);
    }
  }

  /** The text of the worker lines for the counts 5 down to 0, as the
      format strings "Foo %lu Prime\n", "Foo %lu\n", "Bar %lu Prime\n" and
      "Bar %lu\n" produce it. */
  lemma RenderExamples()
    ensures Render(Bar(5, true)) == "Bar 5 Prime\n"
    ensures Render(Foo(4, false)) == "Foo 4\n"
    ensures Render(Bar(3, true)) == "Bar 3 Prime\n"
    ensures Render(Foo(2, true)) == "Foo 2 Prime\n"
    ensures Render(Bar(1, false)) == "Bar 1\n"
    ensures Render(Foo(0, false)) == "Foo 0\n"
  {
  }

  /** Length of the longest prefix of s made of digits. */
  function DigitRun(s: string): (k: nat)
    ensures k <= |s| && AllDigits(s[..k])
    ensures k < |s| ==> !IsDigit(s[k])
  {
    if s == [] || !IsDigit(s[0]) then 0
    else
      var k := 1 + DigitRun(s[1..]);
      assert s[..k] == [s[0]] + s[1..][..k - 1];
      k
  }

  /** A canonical numeral at the head of s, and what follows it. */
  function ParseNumber(s: string): Option<(nat, string)> {
    var k := DigitRun(s);
    if k == 0 || (s[0] == '0' && k > 1) then None
    else Some((DigitsValue(s[..k]), s[k..]))
  }

  function ParseTagged(s: string, even: bool): Option<Line> {
    match ParseNumber(s)
    case None => None
    case Some((v, rest)) =>
      if rest == " Prime\n" || rest == "\n" then
        var p := rest == " Prime\n";
        Some(if even then Foo(v, p) else Bar(v, p))
      else None
  }

  /** Recognises the text of a line; None for anything Render cannot produce. */
  function Parse(s: string): Option<Line> {
    if s == "Currently full\n" then Some(CurrentlyFull)
    else if s == "Enter the number : \n" then Some(Prompt)
    else if |s| >= 4 && s[..4] == "Foo " then ParseTagged(s[4..], true)
    else if |s| >= 4 && s[..4] == "Bar " then ParseTagged(s[4..], false)
    else if |s| >= 9 && s[..9] == "Received " then
      match ParseNumber(s[9..])
      case None => None
      case Some((v, rest)) => if rest == "\n" then Some(Received(v)) else None
    else None
  }

  lemma {:induction false} DigitRunOfNumeral(d: string, rest: string)
    requires AllDigits(d)
    requires rest == [] || !IsDigit(rest[0])
    ensures DigitRun(d + rest) == |d|
  {
    if d != [] {
      assert (d + rest)[1..] == d[1..] + rest;
      DigitRunOfNumeral(d[1..], rest);
    } else {
      assert d + rest == rest;
    }
  }

  lemma ParseNumberOfDecimal(n: nat, rest: string)
    requires rest == [] || !IsDigit(rest[0])
    ensures ParseNumber(Decimal(n) + rest) == Some((n, rest))
  {
    var d := Decimal(n);
    DigitRunOfNumeral(d, rest);
    assert (d + rest)[..|d|] == d;
    assert (d + rest)[|d|..] == rest;
    DecimalRoundTrip(n);
  }

  /** The text after the tag of a worker line parses back to the line. */
  lemma ParseTaggedRender(l: Line)
    requires IsWorkerLine(l)
    ensures ParseTagged(Decimal(l.value) + PrimeSuffix(l.prime), l.Foo?) == Some(l)
  {
    ParseNumberOfDecimal(l.value, PrimeSuffix(l.prime));
  }

  /** A text made of a four-character tag and a body is parsed by the tag. */
  lemma ParseOfTag(tag: string, body: string)
    requires tag == "Foo " || tag == "Bar "
    ensures Parse(tag + body) == ParseTagged(body, tag == "Foo ")
  {
    var s := tag + body;
    assert s[..|tag|] == tag && s[|tag|..] == body;
    assert s[0] == tag[0];
    assert s != "Currently full\n" && s != "Enter the number : \n" by {
      assert s[0] != "Currently full\n"[0] && s[0] != "Enter the number : \n"[0];
    }
  }

  /** The text of a worker line: its tag, then its numeral and suffix. */
  lemma RenderTagged(l: Line)
    requires IsWorkerLine(l)
    ensures Render(l) == (if l.Foo? then "Foo " else "Bar ") + (Decimal(l.value) + PrimeSuffix(l.prime))
  {
  }

  lemma ParseRenderTagged(l: Line)
    requires IsWorkerLine(l)
    ensures Parse(Render(l)) == Some(l)
  {
    var tag := if l.Foo? then "Foo " else "Bar ";
    var body := Decimal(l.value) + PrimeSuffix(l.prime);
    RenderTagged(l);
    ParseOfTag(tag, body);
    ParseTaggedRender(l);
  }

  lemma ParseRenderReceived(v: nat)
    ensures Parse(Render(Received(v))) == Some(Received(v))
  {
    var s := Render(Received(v));
    ParseNumberOfDecimal(v, "\n");
    assert s[..9] == "Received " && s[9..] == Decimal(v) + "\n";
    assert s != "Currently full\n" && s != "Enter the number : \n" by {
      assert s[0] != "Currently full\n"[0] && s[0] != "Enter the number : \n"[0];
    }
    assert s[..4] != "Foo " && s[..4] != "Bar " by {
      assert s[..4][0] == 'R';
    }
  }

  /** Parsing the text of any line recovers that line: the text of a line
      determines it, value and Prime tag included. */
  lemma ParseRender(l: Line)
    ensures Parse(Render(l)) == Some(l)
  {
    match l
    case Foo(_, _) => ParseRenderTagged(l);
    case Bar(_, _) => ParseRenderTagged(l);
    case Received(v) => ParseRenderReceived(v);
    case CurrentlyFull =>
    case Prompt =>
      assert Render(l) != "Currently full\n" by {
        assert Render(l)[0] != "Currently full\n"[0];
      }
  }

  lemma ParseNumberSome(s: string, v: nat, rest: string)
    requires ParseNumber(s) == Some((v, rest))
    ensures exists d :: Canonical(d) && DigitsValue(d) == v && s == d + rest
  {
    var k := DigitRun(s);
    var d := s[..k];
    assert Canonical(d);
    assert s == d + rest;
  }

  lemma NumberText(s: string, v: nat, rest: string)
    requires ParseNumber(s) == Some((v, rest))
    ensures s == Decimal(v) + rest
  {
    ParseNumberSome(s, v, rest);
    var d :| Canonical(d) && DigitsValue(d) == v && s == d + rest;
    CanonicalRoundTrip(d);
  }

  /** Conversely, whatever Parse accepts is exactly the text of the line it
      returns, so Render and Parse are inverse bijections. */
  lemma RenderParse(s: string, l: Line)
    requires Parse(s) == Some(l)
    ensures Render(l) == s
  {
    if s == "Currently full\n" || s == "Enter the number : \n" {
    } else if |s| >= 4 && (s[..4] == "Foo " || s[..4] == "Bar ") {
      RenderParseTagged(s, l);
    } else {
      RenderParseReceived(s, l);
    }
  }

  lemma RenderParseTagged(s: string, l: Line)
    requires |s| >= 4 && (s[..4] == "Foo " || s[..4] == "Bar ")
    requires ParseTagged(s[4..], s[..4] == "Foo ") == Some(l)
    ensures Render(l) == s
  {
    var tag, body := s[..4], s[4..];
    var (v, rest) := ParseNumber(body).value;
    NumberText(body, v, rest);
    assert IsWorkerLine(l) && l.value == v && PrimeSuffix(l.prime) == rest && (l.Foo? <==> tag == "Foo ");
    RenderTagged(l);
    assert s == tag + body;
  }

  lemma RenderParseReceived(s: string, l: Line)
    requires |s| >= 9 && s[..9] == "Received "
    requires ParseNumber(s[9..]).Some? && ParseNumber(s[9..]).value.1 == "\n"
    requires l == Received(ParseNumber(s[9..]).value.0)
    ensures Render(l) == s
  {
    var (v, rest) := ParseNumber(s[9..]).value;
    NumberText(s[9..], v, rest);
    assert s == s[..9] + s[9..];
  }
}
