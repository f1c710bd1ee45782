/** A sample line in the assumed layout `X: <x> Y: <y> |<l>|<r>|` (the
    parser fixes only the regex it accepts), what the parser reads back from
    such a line, and the events two successive lines produce. */
module WireFormat {
  import opened Wrappers
  import opened SendInput
  import opened MouseParser
  import opened Demux
  import opened DemuxProperties

  function DigitChar(d: nat): (c: char)
    requires d < 10
    ensures IsDigit(c)
  {
    ('0' as int + d) as char
  }

  /** The decimal digits of n, most significant first, without leading zeros. */
  function DecimalString(n: nat): (r: string)
    ensures r != [] && forall i :: 0 <= i < |r| ==> IsDigit(r[i])
    decreases n
  {
    if n < 10 then [DigitChar(n)] else DecimalString(n / 10) + [DigitChar(n % 10)]
  }

  /** `int()` of the decimal digits of n is n. */
  lemma {:induction false} DecimalRoundTrip(n: nat)
    ensures DecimalValue(DecimalString(n)) == n
    decreases n
  {
    if n >= 10 {
      DecimalRoundTrip(n / 10);
      var r := DecimalString(n);
      assert r[..|r| - 1] == DecimalString(n / 10);
    }
  }

  /** `str()` of an integer: a minus sign for a negative one, then the digits. */
  function IntString(x: int): string {
    if x < 0 then "-" + DecimalString(-x) else DecimalString(x)
  }

  function ButtonChar(pressed: bool): char {
    if pressed then 'o' else ' '
  }

  function XField(x: int): string { "X: " + IntString(x) }

  function YField(y: int): string { " Y: " + IntString(y) }

  function Buttons(left: bool, right: bool): string {
    [' ', '|', ButtonChar(left), '|', ButtonChar(right), '|']
  }

  /** The line for a sample in the assumed layout `X: <x> Y: <y> |<l>|<r>|`,
      a button shown as 'o' when pressed and a space when not. */
  function SampleLine(p: Sample): string {
    XField(p.x) + YField(p.y) + Buttons(p.left, p.right)
  }

  /** A run of digits from d to e followed by a non-digit is exactly the
      run DigitsEnd measures. */
  lemma DigitsEndAt(s: string, d: nat, e: nat)
    requires d <= e < |s|
    requires forall i :: d <= i < e ==> IsDigit(s[i])
    requires !IsDigit(s[e])
    ensures DigitsEnd(s, d) == e
  {
  }

  /** `str()` of an integer: an optional minus sign, then at least one digit,
      reading back as its magnitude. */
  lemma IntStringShape(x: int)
    ensures var w, n := IntString(x), if x < 0 then 1 else 0;
            n < |w| && (x < 0 <==> w[0] == '-')
            && (forall i :: n <= i < |w| ==> IsDigit(w[i]))
            && DecimalValue(w[n..]) == if x < 0 then -x else x
  {
    var w := IntString(x);
    if x < 0 {
      assert w[1..] == DecimalString(-x);
      DecimalRoundTrip(-x);
    } else {
      assert w[0..] == DecimalString(x);
      DecimalRoundTrip(x);
    }
  }

  /** A space then a word of an optional minus sign (n of them) and digits,
      followed by a non-digit, scans as that word. */
  lemma ScanIntWord(s: string, k: nat, w: string, n: nat)
    requires n <= 1 && n < |w| && (n == 1 <==> w[0] == '-')
    requires forall i :: n <= i < |w| ==> IsDigit(w[i])
    requires k + 1 + |w| < |s|
    requires s[k] == ' ' && s[k + 1..k + 1 + |w|] == w
    requires !IsDigit(s[k + 1 + |w|])
    ensures ScanInt(s, k) == Some(IntSpan(k + 1, k + 1 + n, k + 1 + |w|))
    ensures IntValue(s, IntSpan(k + 1, k + 1 + n, k + 1 + |w|))
            == if n == 1 then -DecimalValue(w[n..]) else DecimalValue(w[n..])
  {
    var e := k + 1 + |w|;
    var d := k + 1 + n;
    assert s[k + 1] == w[0];
    assert SpacesEnd(s, k) == k + 1;
    forall i | d <= i < e ensures IsDigit(s[i]) {
      assert s[i] == w[i - k - 1];
    }
    DigitsEndAt(s, d, e);
    assert s[d..e] == w[n..];
  }

  /** The number of sign characters `str()` writes before the digits. */
  function SignLength(x: int): nat { if x < 0 then 1 else 0 }

  /** The span of the integer x written after a space at k. */
  function SpanAfter(k: nat, x: int): IntSpan {
    IntSpan(k + 1, k + 1 + SignLength(x), k + 1 + |IntString(x)|)
  }

  /** A space then the integer x, written at k and followed by a non-digit,
      scans as that integer. */
  lemma ScanIntString(s: string, k: nat, x: int)
    requires k + 1 + |IntString(x)| < |s|
    requires s[k] == ' ' && s[k + 1..k + 1 + |IntString(x)|] == IntString(x)
    requires !IsDigit(s[k + 1 + |IntString(x)|])
    ensures ScanInt(s, k) == Some(SpanAfter(k, x))
    ensures IntValue(s, SpanAfter(k, x)) == x
  {
    IntStringShape(x);
    ScanIntWord(s, k, IntString(x), SignLength(x));
  }

  /** Where the pieces of a sample line sit. */
  lemma Layout(p: Sample)
    ensures var s := SampleLine(p);
            var lx, ly := |IntString(p.x)|, |IntString(p.y)|;
            var e := 7 + lx + ly;
            |s| == e + 6
            && s[0] == 'X' && s[1] == ':' && s[2] == ' '
            && s[3..3 + lx] == IntString(p.x)
            && s[3 + lx] == ' ' && s[4 + lx] == 'Y' && s[5 + lx] == ':' && s[6 + lx] == ' '
            && s[7 + lx..e] == IntString(p.y)
            && s[e..] == Buttons(p.left, p.right)
  {
    var s := SampleLine(p);
    var lx := |IntString(p.x)|;
    assert s == XField(p.x) + YField(p.y) + Buttons(p.left, p.right);
    assert s[..3 + lx] == XField(p.x);
    assert s[3 + lx..7 + lx + |IntString(p.y)|] == YField(p.y);
  }

  /** The `X:` integer of a sample line is found at its start. */
  lemma FindsX(p: Sample)
    ensures var s := SampleLine(p);
            FindLabelled(s, 0, 'X') == Some(Labelled(0, SpanAfter(2, p.x)))
            && IntValue(s, SpanAfter(2, p.x)) == p.x
  {
    var s := SampleLine(p);
    Layout(p);
    ScanIntString(s, 2, p.x);
  }

  /** The `Y:` integer of a sample line is found right after the `X:` one. */
  lemma FindsY(p: Sample)
    ensures var s := SampleLine(p);
            var lx := |IntString(p.x)|;
            FindLabelled(s, SpanAfter(2, p.x).end, 'Y') == Some(Labelled(4 + lx, SpanAfter(6 + lx, p.y)))
            && IntValue(s, SpanAfter(6 + lx, p.y)) == p.y
  {
    var s := SampleLine(p);
    var lx := |IntString(p.x)|;
    Layout(p);
    ScanIntString(s, 6 + lx, p.y);
    assert LabelledIntAt(s, 3 + lx, 'Y') == None;
  }

  /** The pipe pair of a sample line is found one place after the `Y:`
      integer, each group one character. */
  lemma FindsPipes(p: Sample)
    ensures var s := SampleLine(p);
            var e := 7 + |IntString(p.x)| + |IntString(p.y)|;
            |s| == e + 6 && FindPipes(s, SpanAfter(6 + |IntString(p.x)|, p.y).end) == Some(Pipes(e + 1, 1, 1, 1))
            && (s[e + 2] == 'o' <==> p.left) && (s[e + 4] == 'o' <==> p.right)
  {
    var s := SampleLine(p);
    var e := 7 + |IntString(p.x)| + |IntString(p.y)|;
    Layout(p);
    assert s[e] == ' ' && s[e + 1] == '|' && s[e + 2] == ButtonChar(p.left);
    assert s[e + 3] == '|' && s[e + 4] == ButtonChar(p.right) && s[e + 5] == '|';
    assert PipesAt(s, e) == None;
    assert PipesAt(s, e + 1) == Some(Pipes(e + 1, 1, 1, 1));
  }

  /** The search assembles its match from the three finds. */
  lemma SearchFromFinds(s: string, fx: Labelled, fy: Labelled, pp: Pipes)
    requires fx.span.end <= |s| && fy.span.end <= |s|
    requires FindLabelled(s, 0, 'X') == Some(fx)
    requires FindLabelled(s, fx.span.end, 'Y') == Some(fy)
    requires FindPipes(s, fy.span.end) == Some(pp)
    ensures Search(s) == Some(RegexMatch(fx.at, fx.span, fy.at, fy.span,
                                         pp.at, pp.g3Len, pp.g4Len, pp.trailLen))
  {
  }

  /** The parse of a line whose match has integers reading as p's and two
      one-character groups showing p's buttons is p. */
  lemma ParseFromMatch(s: string, m: RegexMatch, p: Sample)
    requires Search(s) == Some(m)
    requires m.x.spaceEnd <= m.x.digitStart <= m.x.end <= |s|
    requires m.y.spaceEnd <= m.y.digitStart <= m.y.end <= |s|
    requires IntValue(s, m.x) == p.x && IntValue(s, m.y) == p.y
    requires m.g3Len == 1 && m.g4Len == 1 && m.pipeAt + 4 <= |s|
    requires (s[m.pipeAt + 1] == 'o' <==> p.left) && (s[m.pipeAt + 3] == 'o' <==> p.right)
    ensures ParseMouse(s) == Some(p)
  {
    assert ParseMouse(s) == Some(SampleOf(s, m));
    SampleOfGroups(s, m, p);
  }

  /** The sample of a match whose integers read as p's and whose two
      one-character groups show p's buttons. */
  lemma SampleOfGroups(s: string, m: RegexMatch, p: Sample)
    requires m.x.spaceEnd <= m.x.digitStart <= m.x.end <= |s|
    requires m.y.spaceEnd <= m.y.digitStart <= m.y.end <= |s|
    requires IntValue(s, m.x) == p.x && IntValue(s, m.y) == p.y
    requires m.g3Len == 1 && m.g4Len == 1 && m.pipeAt + 4 <= |s|
    requires (s[m.pipeAt + 1] == 'o' <==> p.left) && (s[m.pipeAt + 3] == 'o' <==> p.right)
    ensures SampleOf(s, m) == p
  {
  }

  /** The parser reads back exactly the sample the line was printed from. */
  lemma SampleLineRoundTrip(p: Sample)
    ensures ParseMouse(SampleLine(p)) == Some(p)
  {
    var s := SampleLine(p);
    var lx := |IntString(p.x)|;
    var e := 7 + lx + |IntString(p.y)|;
    var spx, spy := SpanAfter(2, p.x), SpanAfter(6 + lx, p.y);
    FindsPipes(p);
    assert FindPipes(s, spy.end) == Some(Pipes(e + 1, 1, 1, 1));
    FindsY(p);
    FindsX(p);
    SearchFromFinds(s, Labelled(0, spx), Labelled(4 + lx, spy), Pipes(e + 1, 1, 1, 1));
    ParseFromMatch(s, RegexMatch(0, spx, 4 + lx, spy, e + 1, 1, 1, 1), p);
  }

  /** Once a sample has been stored, the next one moves the cursor by the
      difference, or not at all when the position is the same. */
  lemma MoveFrom(s: State, p: Sample, q: Sample)
    requires s.lastX == Some(p.x) && s.lastY == Some(p.y)
    ensures MoveAction(s, q)
            == if p.x != q.x || p.y != q.y then [Move(q.x - p.x, q.y - p.y)] else []
  {
  }

  /** Two successive sample lines: the host reads the cursor moved by the
      difference of the two positions (nothing when they are equal), then
      the buttons whose state differs between the two lines. */
  lemma TwoSampleLines(s: State, p: Sample, q: Sample)
    ensures var o1 := MouseLineDone(s, SampleLine(p));
            var o2 := MouseLineDone(o1.state, SampleLine(q));
            Meanings(o2.sent)
            == (if p.x != q.x || p.y != q.y then [Move(q.x - p.x, q.y - p.y)] else [])
               + ButtonAction(p.left, q.left, false) + ButtonAction(p.right, q.right, true)
  {
    SampleLineRoundTrip(p);
    SampleLineRoundTrip(q);
    var o1 := SampleArrived(s, p);
    assert MouseLineDone(s, SampleLine(p)) == o1;
    SampleEvents(s, p);
    var o2 := SampleArrived(o1.state, q);
    assert MouseLineDone(o1.state, SampleLine(q)) == o2;
    SampleEvents(o1.state, q);
    MoveFrom(o1.state, p, q);
  }

  /** A worked example: after `X: 10 Y: 20 |o| |`,
      the line `X: 15 Y: 18 |o| |` moves the cursor by (5, -2) and nothing
      else, whatever came before. */
  lemma TwoSampleLinesExample(s: State)
    ensures var o1 := MouseLineDone(s, "X: 10 Y: 20 |o| |");
            var o2 := MouseLineDone(o1.state, "X: 15 Y: 18 |o| |");
            Meanings(o2.sent) == [Move(5, -2)]
  {
    FirstExampleLine();
    SecondExampleLine();
    TwoSampleLines(s, Sample(10, 20, true, false), Sample(15, 18, true, false));
  }

  /** The example line parses to (10, 20) with the left button pressed and
      the right one released. */
  lemma ExampleLineParses()
    ensures ParseMouse("X: 10 Y: 20 |o| |") == Some(Sample(10, 20, true, false))
  {
    FirstExampleLine();
    SampleLineRoundTrip(Sample(10, 20, true, false));
  }

  /** The first line of the example is the sample line for its sample. */
  lemma FirstExampleLine()
    ensures SampleLine(Sample(10, 20, true, false)) == "X: 10 Y: 20 |o| |"
  {
    assert XField(10) == "X: 10" by { assert DecimalString(10) == "10"; }
    assert YField(20) == " Y: 20" by { assert DecimalString(20) == "20"; }
    assert Buttons(true, false) == " |o| |";
  }

  /** The second line of the example is the sample line for its sample. */
  lemma SecondExampleLine()
    ensures SampleLine(Sample(15, 18, true, false)) == "X: 15 Y: 18 |o| |"
  {
    assert XField(15) == "X: 15" by { assert DecimalString(15) == "15"; }
    assert YField(18) == " Y: 18" by { assert DecimalString(18) == "18"; }
    assert Buttons(true, false) == " |o| |";
  }

  /** A sample line that lost its `Y:` field is dropped: no events, and the
      stored position and buttons stay as they were. */
  lemma MissingYExample(s: State)
    ensures MouseLineDone(s, "X: 10 |o| |") == Outcome(s, [])
  {
    var line := "X: 10 |o| |";
    assert forall i :: 0 <= i < |line| ==> line[i] != 'Y';
    LineWithoutLabelsIgnored(s, line);
  }
}
