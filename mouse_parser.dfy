/** The mouse-sample parser: a hand-written scanner for the one pattern

      X:\s*([+-]?\d+).*?Y:\s*([+-]?\d+).*?\|(.?)\|(.?)\|?

    used with `search`, proved to return the match that a backtracking regex
    engine returns: the leftmost one, with greedy `\d+` and `.?` taking as
    much and lazy `.*?` as little as they can. */
module MouseParser {
  import opened Wrappers

  /** An absolute position and the two button states of one sample. */
  datatype Sample = Sample(x: int, y: int, left: bool, right: bool)

  /** `\s` of a str pattern, on the code points 0..255 a byte can decode to. */
  predicate IsSpace(c: char) {
    var n := c as int;
    (9 <= n <= 13) || (28 <= n <= 32) || n == 133 || n == 160
  }

  /** `\d` on the code points 0..255: the ASCII digits only. */
  predicate IsDigit(c: char) { '0' <= c <= '9' }

  predicate IsSign(c: char) { c == '+' || c == '-' }

  /** `.`: every character except a newline. */
  predicate NoNewline(s: string, i: nat, j: nat)
    requires i <= j <= |s|
  {
    forall k :: i <= k < j ==> s[k] != '\n'
  }

  // ---------------------------------------------------------------------
  // Reference: what a match of the pattern is, and which one search returns
  // ---------------------------------------------------------------------

  /** Where `\s*([+-]?\d+)` matched from k: spaces in [k, spaceEnd), an
      optional sign, digits in [digitStart, end). */
  datatype IntSpan = IntSpan(spaceEnd: nat, digitStart: nat, end: nat)

  ghost predicate MatchesInt(s: string, k: nat, sp: IntSpan) {
    k <= sp.spaceEnd <= sp.digitStart < sp.end <= |s|
    && (forall i :: k <= i < sp.spaceEnd ==> IsSpace(s[i]))
    && (sp.digitStart == sp.spaceEnd
        || (sp.digitStart == sp.spaceEnd + 1 && IsSign(s[sp.spaceEnd])))
    && (forall i :: sp.digitStart <= i < sp.end ==> IsDigit(s[i]))
  }

  /** `tag:` at `at`, followed by an integer matched as `sp`. */
  ghost predicate IsLabelledInt(s: string, at: nat, tag: char, sp: IntSpan) {
    at + 2 <= |s| && s[at] == tag && s[at + 1] == ':' && MatchesInt(s, at + 2, sp)
  }

  /** `\|(.?)\|(.?)\|?` at p, with the given lengths for the two groups and
      the optional trailing `|`. */
  ghost predicate PipePairAt(s: string, p: nat, g3Len: nat, g4Len: nat, trailLen: nat) {
    var q := p + 1 + g3Len;
    p < |s| && s[p] == '|'
    && g3Len <= 1 && q < |s| && NoNewline(s, p + 1, q) && s[q] == '|'
    && g4Len <= 1 && trailLen <= 1 && q + 1 + g4Len + trailLen <= |s|
    && NoNewline(s, q + 1, q + 1 + g4Len)
    && (trailLen == 1 ==> s[q + 1 + g4Len] == '|')
  }

  /** One way the whole pattern can match: the start of `X:`, the first
      integer, the start of `Y:`, the second integer, the first `|`, and the
      lengths chosen for the two `(.?)` groups and the trailing `\|?`. */
  datatype RegexMatch = RegexMatch(start: nat, x: IntSpan, yAt: nat, y: IntSpan,
                                   pipeAt: nat, g3Len: nat, g4Len: nat, trailLen: nat)

  /** Index of the second `|`. */
  function SecondPipe(m: RegexMatch): nat { m.pipeAt + 1 + m.g3Len }

  ghost predicate IsMatch(s: string, m: RegexMatch) {
    IsLabelledInt(s, m.start, 'X', m.x)
    && m.x.end <= m.yAt <= |s| && NoNewline(s, m.x.end, m.yAt)
    && IsLabelledInt(s, m.yAt, 'Y', m.y)
    && m.y.end <= m.pipeAt <= |s| && NoNewline(s, m.y.end, m.pipeAt)
    && PipePairAt(s, m.pipeAt, m.g3Len, m.g4Len, m.trailLen)
  }

  /** m1 comes before m2 in the order a backtracking engine tries matches:
      earlier start first; then, pattern element by pattern element, more
      digits for a greedy `\d+`, fewer characters for a lazy `.*?`, and one
      character before none for a greedy `.?` or `\|?`. (`\s*` and `[+-]?`
      have only one choice that can succeed, so they do not appear.) */
  ghost predicate Prefers(m1: RegexMatch, m2: RegexMatch) {
    m1.start < m2.start
    || (m1.start == m2.start && (m1.x.end > m2.x.end
    || (m1.x.end == m2.x.end && (m1.yAt < m2.yAt
    || (m1.yAt == m2.yAt && (m1.y.end > m2.y.end
    || (m1.y.end == m2.y.end && (m1.pipeAt < m2.pipeAt
    || (m1.pipeAt == m2.pipeAt && (m1.g3Len > m2.g3Len
    || (m1.g3Len == m2.g3Len && (m1.g4Len > m2.g4Len
    || (m1.g4Len == m2.g4Len && m1.trailLen > m2.trailLen)))))))))))))
  }

  /** The match `search` returns: no other match is tried before it. */
  ghost predicate IsFirstMatch(s: string, m: RegexMatch) {
    IsMatch(s, m) && forall m' :: IsMatch(s, m') ==> !Prefers(m', m)
  }

  /** Python's `int()` of a run of ASCII digits. */
  function DecimalValue(ds: string): int {
    if ds == [] then 0
    else DecimalValue(ds[..|ds| - 1]) * 10 + (ds[|ds| - 1] as int - '0' as int)
  }

  /** `int()` of an integer group: the sign, if any, then the digits. */
  function IntValue(s: string, sp: IntSpan): int
    requires sp.spaceEnd <= sp.digitStart <= sp.end <= |s|
  {
    var magnitude := DecimalValue(s[sp.digitStart..sp.end]);
    if sp.digitStart > sp.spaceEnd && s[sp.spaceEnd] == '-' then -magnitude else magnitude
  }

  /** The sample a match denotes: the two integers, and each button pressed
      exactly when its group is the single character 'o'. */
  function SampleOf(s: string, m: RegexMatch): Sample
    requires m.x.spaceEnd <= m.x.digitStart <= m.x.end <= |s|
    requires m.y.spaceEnd <= m.y.digitStart <= m.y.end <= |s|
    requires SecondPipe(m) + 1 + m.g4Len <= |s|
  {
    Sample(IntValue(s, m.x), IntValue(s, m.y),
           m.g3Len == 1 && s[m.pipeAt + 1] == 'o',
           m.g4Len == 1 && s[SecondPipe(m) + 1] == 'o')
  }

  // ---------------------------------------------------------------------
  // The scanner
  // ---------------------------------------------------------------------

  /** End of the run of spaces starting at k. */
  function SpacesEnd(s: string, k: nat): (e: nat)
    requires k <= |s|
    ensures k <= e <= |s|
    ensures forall i :: k <= i < e ==> IsSpace(s[i])
    ensures e == |s| || !IsSpace(s[e])
    decreases |s| - k
  {
    if k < |s| && IsSpace(s[k]) then SpacesEnd(s, k + 1) else k
  }

  /** End of the run of digits starting at k. */
  function DigitsEnd(s: string, k: nat): (e: nat)
    requires k <= |s|
    ensures k <= e <= |s|
    ensures forall i :: k <= i < e ==> IsDigit(s[i])
    ensures e == |s| || !IsDigit(s[e])
    decreases |s| - k
  {
    if k < |s| && IsDigit(s[k]) then DigitsEnd(s, k + 1) else k
  }

  /** `\s*([+-]?\d+)` at k: spaces, an optional sign, as many digits as there are. */
  function ScanInt(s: string, k: nat): Option<IntSpan>
    requires k <= |s|
  {
    var a := SpacesEnd(s, k);
    var d := if a < |s| && IsSign(s[a]) then a + 1 else a;
    var e := DigitsEnd(s, d);
    if e == d then None else Some(IntSpan(a, d, e))
  }

  /** `label:` followed by an integer, at k. */
  function LabelledIntAt(s: string, k: nat, tag: char): Option<IntSpan>
    requires k <= |s|
  {
    if k + 2 <= |s| && s[k] == tag && s[k + 1] == ':' then ScanInt(s, k + 2) else None
  }

  datatype Labelled = Labelled(at: nat, span: IntSpan)

  /** The first position at or after k where `label:` and an integer follow. */
  function FindLabelled(s: string, k: nat, tag: char): (r: Option<Labelled>)
    requires k <= |s|
    ensures r.Some? ==> k <= r.value.at < |s| && LabelledIntAt(s, r.value.at, tag) == Some(r.value.span)
    ensures forall j :: k <= j <= |s| && (r.None? || j < r.value.at) ==> LabelledIntAt(s, j, tag).None?
    decreases |s| - k
  {
    if k == |s| then None
    else match LabelledIntAt(s, k, tag)
      case Some(sp) => Some(Labelled(k, sp))
      case None => FindLabelled(s, k + 1, tag)
  }

  datatype Pipes = Pipes(at: nat, g3Len: nat, g4Len: nat, trailLen: nat)

  /** `\|(.?)\|(.?)\|?` at p: the first group takes one character when a `|`
      follows it, otherwise none; the second group takes one character if
      there is one; the trailing `|` is taken if present. */
  function PipesAt(s: string, p: nat): Option<Pipes>
    requires p <= |s|
  {
    if p < |s| && s[p] == '|' then
      var g3 := if p + 2 < |s| && s[p + 2] == '|' then 1
                else if p + 1 < |s| && s[p + 1] == '|' then 0
                else 2;
      if g3 == 2 then None
      else
        var q := p + 1 + g3;
        var g4 := if q + 1 < |s| then 1 else 0;
        var trail := if q + 1 + g4 < |s| && s[q + 1 + g4] == '|' then 1 else 0;
        Some(Pipes(p, g3, g4, trail))
    else None
  }

  /** The first position at or after k where the pipe pair matches. */
  function FindPipes(s: string, k: nat): (r: Option<Pipes>)
    requires k <= |s|
    ensures r.Some? ==> k <= r.value.at < |s| && PipesAt(s, r.value.at) == Some(r.value)
    ensures forall j :: k <= j <= |s| && (r.None? || j < r.value.at) ==> PipesAt(s, j).None?
    decreases |s| - k
  {
    if k == |s| then None
    else match PipesAt(s, k)
      case Some(p) => Some(p)
      case None => FindPipes(s, k + 1)
  }

  /** The regex search: the first qualifying `X:`, then the first qualifying
      `Y:` after its digits, then the first pipe pair after those. */
  function Search(s: string): Option<RegexMatch> {
    match FindLabelled(s, 0, 'X')
    case None => None
    case Some(x) =>
      match FindLabelled(s, x.span.end, 'Y')
      case None => None
      case Some(y) =>
        match FindPipes(s, y.span.end)
        case None => None
        case Some(p) =>
          Some(RegexMatch(x.at, x.span, y.at, y.span, p.at, p.g3Len, p.g4Len, p.trailLen))
  }

  // ---------------------------------------------------------------------
  // Correctness of the scanner against the reference
  // ---------------------------------------------------------------------

  /** ScanInt finds the integer at k exactly when there is one, with the only
      possible spaces and sign and the longest digit run. */
  lemma ScanIntCorrect(s: string, k: nat)
    requires k <= |s|
    ensures ScanInt(s, k).Some? ==> MatchesInt(s, k, ScanInt(s, k).value)
    ensures forall sp :: MatchesInt(s, k, sp) ==>
              ScanInt(s, k).Some?
              && sp.spaceEnd == ScanInt(s, k).value.spaceEnd
              && sp.digitStart == ScanInt(s, k).value.digitStart
              && sp.end <= ScanInt(s, k).value.end
  {
  }

  /** The same for `tag:` and an integer at k. */
  lemma LabelledIntAtCorrect(s: string, k: nat, tag: char)
    requires k <= |s|
    ensures LabelledIntAt(s, k, tag).Some? ==> IsLabelledInt(s, k, tag, LabelledIntAt(s, k, tag).value)
    ensures forall sp :: IsLabelledInt(s, k, tag, sp) ==>
              LabelledIntAt(s, k, tag).Some?
              && sp.spaceEnd == LabelledIntAt(s, k, tag).value.spaceEnd
              && sp.digitStart == LabelledIntAt(s, k, tag).value.digitStart
              && sp.end <= LabelledIntAt(s, k, tag).value.end
  {
    if k + 2 <= |s| {
      ScanIntCorrect(s, k + 2);
    }
  }

  /** PipesAt finds the pipe pair at p exactly when there is one, choosing
      the greedy lengths. */
  lemma PipesAtCorrect(s: string, p: nat)
    requires p <= |s| && '\n' !in s
    ensures PipesAt(s, p).Some? ==>
              var v := PipesAt(s, p).value;
              v.at == p && PipePairAt(s, p, v.g3Len, v.g4Len, v.trailLen)
    ensures forall g3: nat, g4: nat, tr: nat :: PipePairAt(s, p, g3, g4, tr) ==>
              PipesAt(s, p).Some?
              && g3 <= PipesAt(s, p).value.g3Len
              && (g3 == PipesAt(s, p).value.g3Len ==>
                    g4 <= PipesAt(s, p).value.g4Len
                    && (g4 == PipesAt(s, p).value.g4Len ==> tr <= PipesAt(s, p).value.trailLen))
  {
    forall g3: nat, g4: nat, tr: nat | PipePairAt(s, p, g3, g4, tr)
      ensures PipesAt(s, p).Some? && g3 <= PipesAt(s, p).value.g3Len
    {
      assert s[p + 1 + g3] == '|';
    }
  }

  /** A character that is neither a space, a sign nor a digit cannot lie
      inside an integer that starts at or before it. */
  lemma OutsideInt(s: string, k: nat, sp: IntSpan, i: nat)
    requires MatchesInt(s, k, sp) && k <= i < |s|
    requires !IsSpace(s[i]) && !IsSign(s[i]) && !IsDigit(s[i])
    ensures sp.end <= i
  {
  }

  /** If `tag:` and an integer occur at `at` at or after k, FindLabelled finds
      an occurrence no later; one that is earlier ends before `at`, and one at
      `at` itself has the longest digit run. */
  lemma FindLabelledReaches(s: string, k: nat, tag: char, at: nat, sp: IntSpan)
    requires IsLabelledInt(s, at, tag, sp) && k <= at
    requires tag != ':' && !IsSpace(tag) && !IsSign(tag) && !IsDigit(tag)
    ensures FindLabelled(s, k, tag).Some?
    ensures var f := FindLabelled(s, k, tag).value;
            f.at <= at && IsLabelledInt(s, f.at, tag, f.span)
            && (f.at < at ==> f.span.end <= at)
            && (f.at == at ==> sp.end <= f.span.end)
  {
    LabelledIntAtCorrect(s, at, tag);
    var f := FindLabelled(s, k, tag).value;
    LabelledIntAtCorrect(s, f.at, tag);
    if f.at + 1 < at {
      OutsideInt(s, f.at + 2, f.span, at);
    }
  }

  /** A match that is no better than m in any choice, taken in pattern
      order, is not tried before m. */
  lemma NotPreferred(m': RegexMatch, m: RegexMatch)
    requires m.start <= m'.start
    requires m'.start == m.start ==> m'.x.end <= m.x.end
    requires m.yAt <= m'.yAt
    requires m'.yAt == m.yAt ==> m'.y.end <= m.y.end
    requires m.pipeAt <= m'.pipeAt
    requires m'.pipeAt == m.pipeAt ==>
               m'.g3Len <= m.g3Len
               && (m'.g3Len == m.g3Len ==>
                     m'.g4Len <= m.g4Len && (m'.g4Len == m.g4Len ==> m'.trailLen <= m.trailLen))
    ensures !Prefers(m', m)
  {
  }

  /** If `tag:` and an integer occur at `at` and a character outside any
      integer follows at `bound`, the occurrence FindLabelled finds from k is
      no later, no shorter when at `at`, and ends by `bound`. */
  lemma FindLabelledBounded(s: string, k: nat, tag: char, at: nat, sp: IntSpan, bound: nat)
    requires IsLabelledInt(s, at, tag, sp) && k <= at
    requires tag != ':' && !IsSpace(tag) && !IsSign(tag) && !IsDigit(tag)
    requires sp.end <= bound < |s|
    requires !IsSpace(s[bound]) && !IsSign(s[bound]) && !IsDigit(s[bound])
    ensures FindLabelled(s, k, tag).Some?
    ensures var f := FindLabelled(s, k, tag).value;
            f.at <= at && (f.at == at ==> sp.end <= f.span.end) && f.span.end <= bound
  {
    FindLabelledReaches(s, k, tag, at, sp);
    var f := FindLabelled(s, k, tag).value;
    OutsideInt(s, f.at + 2, f.span, bound);
  }

  /** For any match, the first `X:` integer found is at or before its start,
      and the first `Y:` integer found after that is at or before its `Y:`. */
  lemma LabelsReached(s: string, m': RegexMatch)
    requires IsMatch(s, m')
    ensures FindLabelled(s, 0, 'X').Some?
    ensures var fx := FindLabelled(s, 0, 'X').value;
            fx.at <= m'.start && (fx.at == m'.start ==> m'.x.end <= fx.span.end)
            && fx.span.end <= m'.yAt
            && FindLabelled(s, fx.span.end, 'Y').Some?
            && var fy := FindLabelled(s, fx.span.end, 'Y').value;
               fy.at <= m'.yAt && (fy.at == m'.yAt ==> m'.y.end <= fy.span.end)
               && fy.span.end <= m'.pipeAt
  {
    FindLabelledBounded(s, 0, 'X', m'.start, m'.x, m'.yAt);
    var fx := FindLabelled(s, 0, 'X').value;
    FindLabelledBounded(s, fx.span.end, 'Y', m'.yAt, m'.y, m'.pipeAt);
  }

  /** For any match, the first pipe pair found from at or before its first
      pipe is no later, and at the same place takes no shorter groups. */
  lemma PipesReached(s: string, m': RegexMatch, k: nat)
    requires '\n' !in s
    requires IsMatch(s, m') && k <= m'.pipeAt
    ensures FindPipes(s, k).Some?
    ensures var fp := FindPipes(s, k).value;
            fp.at <= m'.pipeAt
            && (fp.at == m'.pipeAt ==>
                  m'.g3Len <= fp.g3Len
                  && (m'.g3Len == fp.g3Len ==>
                        m'.g4Len <= fp.g4Len && (m'.g4Len == fp.g4Len ==> m'.trailLen <= fp.trailLen)))
  {
    PipesAtCorrect(s, m'.pipeAt);
    var fp := FindPipes(s, k).value;
    PipesAtCorrect(s, fp.at);
  }

  /** Every match is found, and none is tried before the one found. */
  lemma SearchFindsFirst(s: string, m': RegexMatch)
    requires '\n' !in s
    requires IsMatch(s, m')
    ensures Search(s).Some?
    ensures !Prefers(m', Search(s).value)
  {
    LabelsReached(s, m');
    var fx := FindLabelled(s, 0, 'X').value;
    var fy := FindLabelled(s, fx.span.end, 'Y').value;
    PipesReached(s, m', fy.span.end);
    var fp := FindPipes(s, fy.span.end).value;
    var m := RegexMatch(fx.at, fx.span, fy.at, fy.span, fp.at, fp.g3Len, fp.g4Len, fp.trailLen);
    assert Search(s) == Some(m);
    NotPreferred(m', m);
  }

  /** What the scanner returns is a match. */
  lemma SearchSound(s: string)
    requires '\n' !in s
    requires Search(s).Some?
    ensures IsMatch(s, Search(s).value)
  {
    var fx := FindLabelled(s, 0, 'X').value;
    var fy := FindLabelled(s, fx.span.end, 'Y').value;
    var fp := FindPipes(s, fy.span.end).value;
    assert Search(s) == Some(RegexMatch(fx.at, fx.span, fy.at, fy.span, fp.at, fp.g3Len, fp.g4Len, fp.trailLen));
    LabelledIntAtCorrect(s, fx.at, 'X');
    LabelledIntAtCorrect(s, fy.at, 'Y');
    PipesAtCorrect(s, fp.at);
  }

  /** The scanner agrees with the regex search on every line without a newline:
      it finds nothing exactly when nothing matches, and otherwise the match
      a backtracking engine returns. */
  lemma SearchCorrect(s: string)
    ensures '\n' !in s ==> (Search(s).None? <==> forall m :: !IsMatch(s, m))
    ensures '\n' !in s && Search(s).Some? ==> IsFirstMatch(s, Search(s).value)
  {
    if '\n' !in s {
      forall m | IsMatch(s, m) ensures Search(s).Some? && !Prefers(m, Search(s).value) {
        SearchFindsFirst(s, m);
      }
      if Search(s).Some? {
        SearchSound(s);
      }
    }
  }

  /** The sample of a line, or None when the pattern does not match it
      (`mouse_re.search(line)` and the conversion of its groups). */
  function ParseMouse(s: string): Option<Sample> {
    match Search(s)
    case None => None
    case Some(m) => Some(SampleOf(s, m))
  }

  /** On a line without a newline, ParseMouse answers as the regex does: no
      sample exactly when nothing matches, and otherwise the sample of the
      match a backtracking engine returns. */
  lemma ParseMouseCorrect(s: string)
    requires '\n' !in s
    ensures ParseMouse(s).None? <==> forall m :: !IsMatch(s, m)
    ensures ParseMouse(s).Some? ==>
              exists m :: IsFirstMatch(s, m) && ParseMouse(s).value == SampleOf(s, m)
  {
    SearchCorrect(s);
  }
}
