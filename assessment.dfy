/**
 * The deterministic logic of src/pages/AssessmentPage.tsx outside the recording session:
 * the target role read from storage, the question choice, the analysis of a finished answer
 * (mock dimension scores, their total and the readiness tier) and the mm:ss clock display.
 * `Math.random` draws are parameters.
 */
module Assessment {
  import opened Wrappers
  import opened AssessmentTypes
  import opened Constants

  // ---------------------------------------------------------------------------
  // Target role and question choice
  // ---------------------------------------------------------------------------

  /** The stored target role, or the default role when nothing (or the empty string) is stored. */
  function RoleFromStorage(stored: Option<string>): (role: string)
    ensures role != ""
    ensures stored.Some? && stored.value != "" ==> role == stored.value
    ensures stored.None? || stored.value == "" ==> role == DefaultRole
  {
    if stored.Some? && stored.value != "" then stored.value else DefaultRole
  }

  /** The question list of a role; a role without an entry gets the default role's list. */
  function QuestionsFor(role: string): (qs: seq<InterviewQuestion>)
    ensures |qs| > 0
    ensures role in SampleQuestions ==> qs == SampleQuestions[role]
    ensures role !in SampleQuestions ==> qs == SampleQuestions[DefaultRole]
  {
    if role in SampleQuestions then SampleQuestions[role] else SampleQuestions[DefaultRole]
  }

  /** `floor(r * n)` for a draw `r` in [0, 1): always a valid index into a list of length n. */
  function QuestionIndex(n: nat, r: real): (k: nat)
    requires n > 0 && 0.0 <= r < 1.0
    ensures k < n
    ensures k as real <= r * n as real < k as real + 1.0
  {
    ProductBelow(r, n as real);
    FloorBelow(r * n as real, n);
    (r * n as real).Floor
  }

  /** The floor of a real in [0, n) is an index below n. */
  lemma FloorBelow(x: real, n: nat)
    requires 0.0 <= x < n as real
    ensures 0 <= x.Floor < n
  {
    assert x.Floor as real <= x;
  }

  /** A draw in [0, 1) scales a positive length to below that length. */
  lemma ProductBelow(r: real, m: real)
    requires 0.0 <= r < 1.0 && m > 0.0
    ensures 0.0 <= r * m < m
  {
    assert m - r * m == (1.0 - r) * m;
  }

  /** The question shown on mount: the draw `r` picks one of the role's questions. */
  function PickQuestion(role: string, r: real): (q: InterviewQuestion)
    requires 0.0 <= r < 1.0
    ensures q in QuestionsFor(role)
    ensures q.expectedDuration > 0
  {
    QuestionBankWellFormed();
    var qs := QuestionsFor(role);
    qs[QuestionIndex(|qs|, r)]
  }

  // ---------------------------------------------------------------------------
  // Blank answers
  // ---------------------------------------------------------------------------

  /** The characters JavaScript's `String.prototype.trim` removes: white space and line terminators. */
  predicate IsWhitespace(c: char): (b: bool)
    ensures c == ' ' || c == '\t' || c == '\n' || c == '\r' ==> b
    ensures '!' <= c <= '~' ==> !b
  {
    || c == '\t' || c == '\n' || c == '\U{000B}' || c == '\U{000C}' || c == '\r' || c == ' '
    || c == '\U{00A0}' || c == '\U{1680}' || ('\U{2000}' <= c <= '\U{200A}')
    || c == '\U{2028}' || c == '\U{2029}' || c == '\U{202F}' || c == '\U{205F}'
    || c == '\U{3000}' || c == '\U{FEFF}'
  }

  function TrimStart(s: string): (r: string)
    ensures |r| <= |s| && r == s[|s| - |r|..]
  {
    if s != [] && IsWhitespace(s[0]) then TrimStart(s[1..]) else s
  }

  function TrimEnd(s: string): (r: string)
    ensures r <= s
    ensures r != "" ==> !IsWhitespace(r[|r| - 1])
  {
    if s != [] && IsWhitespace(s[|s| - 1]) then TrimEnd(s[..|s| - 1]) else s
  }

  /** `String.prototype.trim`: white space removed at both ends. */
  function Trim(s: string): (r: string)
    ensures |r| <= |s|
    ensures r != "" ==> !IsWhitespace(r[0]) && !IsWhitespace(r[|r| - 1])
  {
    TrimStartHead(s);
    TrimEnd(TrimStart(s))
  }

  lemma {:induction false} TrimStartEmpty(s: string)
    ensures TrimStart(s) == "" <==> forall i :: 0 <= i < |s| ==> IsWhitespace(s[i])
  {
    if s != [] && IsWhitespace(s[0]) {
      TrimStartEmpty(s[1..]);
      assert forall i :: 1 <= i < |s| ==> s[i] == s[1..][i - 1];
    }
  }

  lemma {:induction false} TrimEndEmpty(s: string)
    ensures TrimEnd(s) == "" <==> forall i :: 0 <= i < |s| ==> IsWhitespace(s[i])
  {
    if s != [] && IsWhitespace(s[|s| - 1]) {
      TrimEndEmpty(s[..|s| - 1]);
      assert forall i :: 0 <= i < |s| - 1 ==> s[i] == s[..|s| - 1][i];
    }
  }

  lemma {:induction false} TrimStartHead(s: string)
    ensures TrimStart(s) != "" ==> !IsWhitespace(TrimStart(s)[0])
  {
    if s != [] && IsWhitespace(s[0]) {
      TrimStartHead(s[1..]);
    }
  }

  /** An answer trims to nothing exactly when every character in it is white space. */
  lemma BlankIffAllWhitespace(s: string)
    ensures Trim(s) == "" <==> forall i :: 0 <= i < |s| ==> IsWhitespace(s[i])
  {
    var t := TrimStart(s);
    TrimStartEmpty(s);
    TrimEndEmpty(t);
    TrimStartHead(s);
    if t != "" {
      assert !IsWhitespace(t[0]);
    }
  }

  // ---------------------------------------------------------------------------
  // Scoring
  // ---------------------------------------------------------------------------

  /** The random parts of the mock scores: `Math.floor(Math.random() * 10)` for each dimension. */
  datatype Offsets = Offsets(clarity: int, confidence: int, content: int, structure: int)

  predicate ValidOffsets(o: Offsets) {
    && 0 <= o.clarity <= 9 && 0 <= o.confidence <= 9
    && 0 <= o.content <= 9 && 0 <= o.structure <= 9
  }

  /** The fixed lower bound of each mock dimension score. */
  const ClarityBase: int := 15
  const ConfidenceBase: int := 12
  const ContentBase: int := 14
  const StructureBase: int := 13

  /** The largest score a dimension may take. */
  const DimensionMax: int := 25

  /** The readiness if-chain: Expert from 85, Ready from 65, Practicing from 40, else Beginner. */
  function ReadinessFor(total: int): (level: ReadinessLevel)
    ensures 0 <= total <= 100 ==> TierByTable(total) == Some(level)
    ensures total > 100 ==> level == Expert
    ensures total < 0 ==> level == Beginner
  {
    if total >= 85 then Expert
    else if total >= 65 then Ready
    else if total >= 40 then Practicing
    else Beginner
  }

  /** The boundaries of the tiers are exact. */
  lemma ReadinessBoundaries()
    ensures ReadinessFor(0) == Beginner && ReadinessFor(39) == Beginner
    ensures ReadinessFor(40) == Practicing && ReadinessFor(64) == Practicing
    ensures ReadinessFor(65) == Ready && ReadinessFor(84) == Ready
    ensures ReadinessFor(85) == Expert && ReadinessFor(100) == Expert
  {
  }

  /** The sum of a list of scores: scores within 0..25 each add up to at most 25 per score. */
  function Sum(xs: seq<int>): (total: int)
    ensures (forall k :: 0 <= k < |xs| ==> 0 <= xs[k] <= DimensionMax) ==> 0 <= total <= |xs| * DimensionMax
  {
    if xs == [] then 0 else Sum(xs[..|xs| - 1]) + xs[|xs| - 1]
  }

  lemma SumOfFour(xs: seq<int>)
    requires |xs| == 4
    ensures Sum(xs) == xs[0] + xs[1] + xs[2] + xs[3]
  {
    assert xs[..|xs| - 1] == xs[..3];
    assert xs[..3][..2] == xs[..2];
    assert xs[..2][..1] == xs[..1];
    assert xs[..1][..0] == [];
    assert Sum(xs[..1]) == xs[0];
    assert Sum(xs[..2]) == xs[0] + xs[1];
    assert Sum(xs[..3]) == xs[0] + xs[1] + xs[2];
  }

  /** The structure verdict the analysis reports (a fixed value: STAR used, result missing). */
  const MockStructure: StructureCompliance := StructureCompliance(true, [Result])

  /**
   * `handleAnalyze`: nothing happens for a blank answer. Otherwise each dimension is its base
   * plus its offset, the total is the sum of the four values (the `reduce`), and the tier is
   * set by the if-chain, which agrees with the threshold table.
   */
  method Analyze(transcript: string, o: Offsets) returns (r: Option<AssessmentResult>)
    requires ValidOffsets(o)
    ensures r.None? <==> forall i :: 0 <= i < |transcript| ==> IsWhitespace(transcript[i])
    ensures r.Some? ==>
      && r.value.scores == DimensionScores(ClarityBase + o.clarity, ConfidenceBase + o.confidence,
                                           ContentBase + o.content, StructureBase + o.structure)
      && r.value.totalScore == r.value.scores.clarity + r.value.scores.confidence
                               + r.value.scores.content + r.value.scores.structure
      && r.value.readinessLevel == ReadinessFor(r.value.totalScore)
      && TierByTable(r.value.totalScore) == Some(r.value.readinessLevel)
      && r.value.structureCompliance == MockStructure
  {
    BlankIffAllWhitespace(transcript);
    if Trim(transcript) == "" {
      return None;
    }
    var scores := DimensionScores(o.clarity + ClarityBase, o.confidence + ConfidenceBase,
                                  o.content + ContentBase, o.structure + StructureBase);
    var result := AssessmentResult(scores, 0, Practicing, MockStructure);

    var values := [scores.clarity, scores.confidence, scores.content, scores.structure];
    var total := 0;
    for k := 0 to |values|
      invariant total == Sum(values[..k])
    {
      assert values[..k + 1][..k] == values[..k];
      total := total + values[k];
    }
    assert values[..|values|] == values;
    SumOfFour(values);
    result := result.(totalScore := total);

    if result.totalScore >= 85 {
      result := result.(readinessLevel := Expert);
    } else if result.totalScore >= 65 {
      result := result.(readinessLevel := Ready);
    } else if result.totalScore >= 40 {
      result := result.(readinessLevel := Practicing);
    } else {
      result := result.(readinessLevel := Beginner);
    }
    return Some(result);
  }

  /**
   * The mock scores stay within range: each dimension lies between its base and base + 9,
   * hence at most 25, and the total lies in [54, 90].
   */
  lemma MockScoresInRange(o: Offsets)
    requires ValidOffsets(o)
    ensures var s := DimensionScores(ClarityBase + o.clarity, ConfidenceBase + o.confidence,
                                     ContentBase + o.content, StructureBase + o.structure);
      && ClarityBase <= s.clarity <= ClarityBase + 9 && s.clarity <= DimensionMax
      && ConfidenceBase <= s.confidence <= ConfidenceBase + 9 && s.confidence <= DimensionMax
      && ContentBase <= s.content <= ContentBase + 9 && s.content <= DimensionMax
      && StructureBase <= s.structure <= StructureBase + 9 && s.structure <= DimensionMax
      && 54 <= s.clarity + s.confidence + s.content + s.structure <= 90
  {
  }

  /** With the mock scores the lowest reachable tier is Practicing: Beginner never occurs. */
  lemma MockNeverBeginner(o: Offsets)
    requires ValidOffsets(o)
    ensures ReadinessFor(ClarityBase + o.clarity + ConfidenceBase + o.confidence
                         + ContentBase + o.content + StructureBase + o.structure) != Beginner
  {
  }

  // ---------------------------------------------------------------------------
  // The mm:ss clock
  // ---------------------------------------------------------------------------

  function DigitChar(d: nat): char
    requires d < 10
  {
    "0123456789"[d]
  }

  predicate IsDigit(c: char) {
    '0' <= c <= '9'
  }

  function DigitValue(c: char): nat
    requires IsDigit(c)
  {
    (c as int - '0' as int) as nat
  }

  /** The decimal numeral of a natural number, without leading zeros (as JavaScript prints it). */
  function Decimal(n: nat): (s: string)
    ensures |s| > 0 && forall i :: 0 <= i < |s| ==> IsDigit(s[i])
    ensures n < 10 <==> |s| == 1
    ensures |s| > 1 ==> s[0] != '0'
    ensures n < 100 ==> |s| <= 2
  {
    if n < 10 then [DigitChar(n)] else Decimal(n / 10) + [DigitChar(n % 10)]
  }

  /** The value of a string of decimal digits. */
  function ParseDecimal(s: string): nat
    requires forall i :: 0 <= i < |s| ==> IsDigit(s[i])
  {
    if s == [] then 0 else ParseDecimal(s[..|s| - 1]) * 10 + DigitValue(s[|s| - 1])
  }

  lemma {:induction false} DecimalRoundTrip(n: nat)
    ensures ParseDecimal(Decimal(n)) == n
  {
    if n >= 10 {
      var s := Decimal(n);
      assert s[..|s| - 1] == Decimal(n / 10);
      DecimalRoundTrip(n / 10);
    }
  }

  /** `secs.toString().padStart(2, '0')`: at least two digits, and the same value. */
  function PadTwo(secs: nat): (r: string)
    ensures |r| >= 2 && forall i :: 0 <= i < |r| ==> IsDigit(r[i])
    ensures secs < 100 ==> |r| == 2
    ensures ParseDecimal(r) == secs
  {
    var d := Decimal(secs);
    DecimalRoundTrip(secs);
    if |d| < 2 then LeadingZero(d); "0" + d else d
  }

  /** A leading zero does not change the value of a one-digit numeral. */
  lemma LeadingZero(d: string)
    requires |d| == 1 && IsDigit(d[0])
    ensures ParseDecimal("0" + d) == ParseDecimal(d)
  {
    var z := "0" + d;
    assert z[..|z| - 1] == "0";
    assert d[..|d| - 1] == "";
    assert ParseDecimal("0") == ParseDecimal("") * 10 + DigitValue('0');
  }

  /** `formatTime`: whole minutes, a colon, and the seconds within the minute in two digits. */
  function FormatTime(seconds: nat): (t: string)
    ensures |t| >= 4 && t[|t| - 3] == ':'
    ensures forall i :: 0 <= i < |t| && i != |t| - 3 ==> IsDigit(t[i])
  {
    Decimal(seconds / 60) + ":" + PadTwo(seconds % 60)
  }

  /** Reads an mm:ss display back: minutes before the colon, seconds in the last two digits. */
  function ParseTime(t: string): nat
    requires |t| >= 4 && forall i :: 0 <= i < |t| && i != |t| - 3 ==> IsDigit(t[i])
  {
    ParseDecimal(t[..|t| - 3]) * 60 + ParseDecimal(t[|t| - 2..])
  }

  /**
   * The display is exact: the minutes times 60 plus the two-digit seconds give back the elapsed
   * seconds, and the seconds part is below 60.
   */
  lemma {:induction false} FormatTimeRoundTrip(seconds: nat)
    ensures ParseTime(FormatTime(seconds)) == seconds
    ensures ParseDecimal(FormatTime(seconds)[|FormatTime(seconds)| - 2..]) < 60
  {
    var t := FormatTime(seconds);
    var m, sec := Decimal(seconds / 60), PadTwo(seconds % 60);
    assert t[..|t| - 3] == m;
    assert t[|t| - 2..] == sec;
    DecimalRoundTrip(seconds / 60);
  }
}
