/**
 * The similarity measures of CilinSimilarity as functions of a loaded
 * index: the per-code-pair scores, the running maxima over two words'
 * code lists, the 2013 path/density combination and the sentence-level
 * distance. The transcendental functions are parameters.
 */
module CilinScore {
  import opened CilinCode
  import opened CilinIndex

  /** pi and the floating-point functions the scores call, left uninterpreted. */
  datatype MathLib = MathLib(pi: real, cos: real -> real, sqrt: real -> real, log: real -> real, epow: real -> real)

  /** e^x is positive, the one fact about the transcendentals the model relies on. */
  ghost predicate PositiveExp(ops: MathLib) {
    forall x: real :: ops.epow(x) > 0.0
  }

  /** A value, or the Python exception its computation raises. */
  datatype Outcome = Ok(value: real) | ZeroDivisionError | ValueError

  // Coefficients of the 2010 method, per level of the first difference.
  const CoeffA: real := 0.65
  const CoeffB: real := 0.8
  const CoeffC: real := 0.9
  const CoeffD: real := 0.96
  /** Score of two codes that agree up to a '#' terminal. */
  const HashScore: real := 0.5
  /** Score when a code is a closed ('@') entry or the codes share nothing. */
  const FloorScore: real := 0.1
  const Degree: real := 180.0
  // Parameters of the 2013 method.
  const Sigma: real := 0.3
  const Alpha: real := 0.47
  const Beta: real := 0.26
  /** Edge weights of the 2016 method, from the top level down. */
  const Weights: seq<real> := [0.5, 1.0, 2.5, 2.5]

  /** An index the scores may be asked about: consistent, with well-formed codes. */
  ghost predicate Ready(ix: Index) {
    Consistent(ix) && WellFormed(ix)
  }

  /** Python's two-argument max: the first value unless the second is larger. */
  function RunningMax(best: real, cur: real): (r: real)
    ensures r >= best && r >= cur
    ensures r == best || r == cur
  {
    if cur > best then cur else best
  }

  function SumReals(s: seq<real>): real {
    if s == [] then 0.0 else s[0] + SumReals(s[1..])
  }

  // ---------------------------------------------------------------------
  // Per-pair scores
  // ---------------------------------------------------------------------

  /** cos(n*pi/180), the cosine of n degrees. */
  function Cosine(ops: MathLib, n: nat): real {
    ops.cos((n as real) * ops.pi / Degree)
  }

  /** sim_formula: coeff * cos(n*pi/180) * ((n - k + 1) / n). */
  function SimFormula(ops: MathLib, coeff: real, n: nat, k: nat): real
    requires n > 0
  {
    coeff * Cosine(ops, n) * (((n - k + 1) as real) / (n as real))
  }

  /** Score of codes sharing their first seven characters. */
  function TerminalScore(c1: string, c2: string): real {
    if EndsWith(c1, '=') && EndsWith(c2, '=') then 1.0
    else if EndsWith(c1, '#') && EndsWith(c2, '#') then HashScore
    else 0.0
  }

  /** Codes both keys of a well-formed index: the precondition of both code scores. */
  predicate KnownCodes(ix: Index, c1: string, c2: string) {
    WellFormed(ix) && c1 in ix.codeWord && c2 in ix.codeWord
  }

  /** sim_by_code. */
  function SimByCode(ix: Index, ops: MathLib, c1: string, c2: string): real
    requires KnownCodes(ix, c1, c2)
  {
    var keys := ix.codeWord.Keys;
    var common := CommonStr(c1, c2);
    var length := |common|;
    if EndsWith(c1, '@') || EndsWith(c2, '@') || length == 0 then FloorScore
    else if 7 <= length then TerminalScore(c1, c2)
    else
      var k := GetK(CodeLayer(c1), CodeLayer(c2));
      var n := SiblingCount(keys, common);
      SiblingCountOfKeys(keys, c1, c2);
      if length == 1 then SimFormula(ops, CoeffA, n, k)
      else if length == 2 then SimFormula(ops, CoeffB, n, k)
      else if length == 4 then SimFormula(ops, CoeffC, n, k)
      else if length == 5 then SimFormula(ops, CoeffD, n, k)
      else 0.0
  }

  /**
   * The branches both code scores share: 0.1 when a code is closed ('@') or
   * nothing is shared; from a seven-character prefix on, 1 for two '='
   * codes, 0.5 for two '#' codes and 0 otherwise.
   */
  lemma ScoreShortCircuits(ix: Index, ops: MathLib, c1: string, c2: string)
    requires KnownCodes(ix, c1, c2)
    ensures var length := |CommonStr(c1, c2)|;
      var closed := EndsWith(c1, '@') || EndsWith(c2, '@') || length == 0;
      (closed ==> SimByCode(ix, ops, c1, c2) == 0.1 && Sim2016ByCode(ix, ops, c1, c2) == 0.1) &&
      (!closed && length >= 7 ==>
        SimByCode(ix, ops, c1, c2) == Sim2016ByCode(ix, ops, c1, c2) ==
          if c1[7] == '=' && c2[7] == '=' then 1.0
          else if c1[7] == '#' && c2[7] == '#' then 0.5
          else 0.0)
  {
  }

  /** dist2016: 18 below the root, otherwise twice the weights above the shared level. */
  function Dist2016(common: string): (d: real)
    ensures GetLayer(common) == 0 ==> d == 18.0
    ensures GetLayer(common) == 1 ==> d == 13.0
    ensures GetLayer(common) == 2 ==> d == 8.0
    ensures GetLayer(common) == 3 ==> d == 3.0
    ensures GetLayer(common) == 4 ==> d == 1.0
    ensures GetLayer(common) == 5 ==> d == 0.0
  {
    var layer := GetLayer(common);
    WeightSums();
    if layer == 0 then 18.0 else 2.0 * SumReals(Weights[..4 - layer + 1])
  }

  /** The sums of the leading weights: 6.5, 4, 1.5, 0.5 and 0. */
  lemma WeightSums()
    ensures SumReals(Weights[..4]) == 6.5 && SumReals(Weights[..3]) == 4.0
    ensures SumReals(Weights[..2]) == 1.5 && SumReals(Weights[..1]) == 0.5 && SumReals(Weights[..0]) == 0.0
  {
    assert Weights[..4] == [0.5, 1.0, 2.5, 2.5] && Weights[..3] == [0.5, 1.0, 2.5];
    assert Weights[..2] == [0.5, 1.0] && Weights[..1] == [0.5] && Weights[..0] == [];
    assert SumReals([2.5]) == 2.5 && SumReals([1.0]) == 1.0;
    assert SumReals([2.5, 2.5]) == 5.0 && SumReals([1.0, 2.5]) == 3.5;
    assert SumReals([1.0, 2.5, 2.5]) == 6.0;
  }

  /** sim2016_by_code. */
  function Sim2016ByCode(ix: Index, ops: MathLib, c1: string, c2: string): real
    requires KnownCodes(ix, c1, c2)
  {
    var keys := ix.codeWord.Keys;
    var common := CommonStr(c1, c2);
    var length := |common|;
    if EndsWith(c1, '@') || EndsWith(c2, '@') || length == 0 then FloorScore
    else if 7 <= length then TerminalScore(c1, c2)
    else
      var k := GetK(CodeLayer(c1), CodeLayer(c2));
      var n := SiblingCount(keys, common);
      SiblingCountOfKeys(keys, c1, c2);
      Sim2016Formula(ops, Dist2016(common), n, k)
  }

  /** sim2016_by_code's formula: (1.05 - 0.05*d) * sqrt(e^(-k/(2n))). */
  function Sim2016Formula(ops: MathLib, d: real, n: nat, k: nat): real
    requires n > 0
  {
    (1.05 - 0.05 * d) * ops.sqrt(ops.epow(-1.0 * (k as real) / (2.0 * (n as real))))
  }

  /** The path distance dist takes per pair: 2 * (5 - layer). */
  function LayerDistance(c1: string, c2: string): (d: nat)
    ensures d <= 10 && d % 2 == 0
    ensures d == 10 <==> GetLayer(CommonStr(c1, c2)) == 0
  {
    2 * (5 - GetLayer(CommonStr(c1, c2)))
  }

  /** Coefficient of the 2010 formula when the codes first differ at level L. */
  function Coefficient(L: nat): real
    requires 1 <= L <= 4
  {
    [CoeffA, CoeffB, CoeffC, CoeffD][L - 1]
  }

  /** The factor (1.05 - 0.05 * dist2016) when the codes first differ at level L. */
  function Factor2016(L: nat): real
    requires 1 <= L <= 4
  {
    [0.4, 0.65, 0.9, 1.0][L - 1]
  }

  /**
   * Where two known codes first differ, as a level index L of their
   * decomposition: the shared prefix is exactly the levels before L, and in
   * the formula branch (L from 1 to 4) both codes are distinct siblings
   * under that prefix (n >= 2) and their branch distance is positive.
   */
  lemma FormulaInputs(ix: Index, c1: string, c2: string, L: nat)
    requires KnownCodes(ix, c1, c2)
    requires FirstDifference(CodeLayer(c1), CodeLayer(c2), L)
    ensures L == GetLayer(CommonStr(c1, c2))
    ensures L == 0 ==> |CommonStr(c1, c2)| == 0
    ensures 1 <= L <= 5 ==> CommonStr(c1, c2) == c1[..LevelEnd(L)]
    ensures 1 <= L <= 4 ==>
      SiblingCount(ix.codeWord.Keys, CommonStr(c1, c2)) >= 2 && GetK(CodeLayer(c1), CodeLayer(c2)) >= 1
  {
    var p1, p2 := CodeLayer(c1), CodeLayer(c2);
    var keys := ix.codeWord.Keys;
    assert c1 == c1[..8] && c2 == c2[..8];
    assert c1 != c2;
    LayerIsFirstDifference(c1, c2);
    var common := CommonStr(c1, c2);
    FirstDifferenceUnique(p1, p2, L, GetLayer(common));
    BetweenSameCode(keys, c1, c2);
    if 1 <= L <= 4 {
      var both := {p1[L], p2[L]};
      assert both <= Siblings(keys, common);
      SubsetCard(both, Siblings(keys, common));
      GetKZeroIff(p1, p2);
      assert p1[..5][L] == p1[L] && p2[..5][L] == p2[L];
    }
  }

  /**
   * sim_by_code by the level of first difference: 0.1 below the root, the
   * formula with coefficient 0.65, 0.8, 0.9 or 0.96 for levels 1 to 4, and 0
   * for codes differing only in their terminal marker.
   */
  lemma SimByCodeByLevel(ix: Index, ops: MathLib, c1: string, c2: string, L: nat)
    requires KnownCodes(ix, c1, c2) && !EndsWith(c1, '@') && !EndsWith(c2, '@')
    requires FirstDifference(CodeLayer(c1), CodeLayer(c2), L)
    ensures L == 0 ==> SimByCode(ix, ops, c1, c2) == FloorScore
    ensures 1 <= L <= 4 ==>
      var n := SiblingCount(ix.codeWord.Keys, c1[..LevelEnd(L)]);
      n >= 2 && SimByCode(ix, ops, c1, c2) == SimFormula(ops, Coefficient(L), n, GetK(CodeLayer(c1), CodeLayer(c2)))
    ensures L == 5 ==> SimByCode(ix, ops, c1, c2) == 0.0
  {
    FormulaInputs(ix, c1, c2, L);
    assert CodeLayer(c1)[5] == [c1[7]] && CodeLayer(c2)[5] == [c2[7]];
  }

  /** Three taxonomy lines: Aa01A01= and Az01A01= share "A", Ba01A01= shares nothing with them. */
  const ExampleLines: seq<seq<string>> := [["Aa01A01=", "x"], ["Az01A01=", "y"], ["Ba01A01=", "z"]]

  /** The index read_cilin builds from ExampleLines. */
  const Example: Index := Load(ExampleLines)

  lemma ExampleCodeWord()
    ensures Example.codeWord == map["Aa01A01=" := ["x"], "Az01A01=" := ["y"], "Ba01A01=" := ["z"]]
  {
    var lines := ExampleLines;
    assert lines[..2][..1] == lines[..1] && lines[..3] == lines;
    assert LoadFrom(Empty, lines[..1]).codeWord == map["Aa01A01=" := ["x"]];
    assert LoadFrom(Empty, lines[..2]).codeWord == map["Aa01A01=" := ["x"], "Az01A01=" := ["y"]];
  }

  lemma ExamplePrefixes()
    ensures CommonStr("Aa01A01=", "Az01A01=") == "A" && CommonStr("Aa01A01=", "Ba01A01=") == ""
  {
    var c1, c2, c3 := "Aa01A01=", "Az01A01=", "Ba01A01=";
    assert c1[..1] == c2[..1] && c1[1] != c2[1];
    CommonLenUnique(c1, c2, 1);
    CommonLenUnique(c1, c3, 0);
  }

  /** The pair sharing nothing scores the floor 0.1. */
  lemma ExampleFarScore(ops: MathLib)
    ensures KnownCodes(Example, "Aa01A01=", "Ba01A01=")
    ensures SimByCode(Example, ops, "Aa01A01=", "Ba01A01=") == FloorScore
  {
    ExampleCodeWord();
    ExamplePrefixes();
  }

  /** Under "A" the example's keys branch exactly into "a" and "z". */
  lemma SiblingsUnderA(keys: set<string>)
    requires keys == {"Aa01A01=", "Az01A01=", "Ba01A01="}
    ensures AllCodes(keys) && Siblings(keys, "A") == {"a", "z"}
  {
    assert GetLayer("A") == 1;
    var s := Siblings(keys, "A");
    forall x | x in s
      ensures x == "a" || x == "z"
    {
      var c :| c in keys && IsPrefix("A", c) && x == CodeLayer(c)[1];
      assert c != "Ba01A01=";
    }
    assert IsPrefix("A", "Aa01A01=") && CodeLayer("Aa01A01=")[1] == "a";
    assert IsPrefix("A", "Az01A01=") && CodeLayer("Az01A01=")[1] == "z";
  }

  lemma ExampleSiblings()
    ensures WellFormed(Example) && SiblingCount(Example.codeWord.Keys, "A") == 2
  {
    ExampleCodeWord();
    SiblingsUnderA(Example.codeWord.Keys);
  }

  lemma ExampleBranchDistance()
    ensures GetK(CodeLayer("Aa01A01="), CodeLayer("Az01A01=")) == 25
  {
    assert CodeLayer("Aa01A01=")[0] == CodeLayer("Az01A01=")[0];
  }

  /** The pair sharing "A" has 2 siblings and branch distance 25. */
  lemma ExampleNearScore(ops: MathLib)
    ensures KnownCodes(Example, "Aa01A01=", "Az01A01=")
    ensures SimByCode(Example, ops, "Aa01A01=", "Az01A01=") == SimFormula(ops, CoeffA, 2, 25)
  {
    ExampleCodeWord();
    ExamplePrefixes();
    ExampleSiblings();
    ExampleBranchDistance();
  }

  /**
   * A longer shared prefix does not guarantee a score that is no lower:
   * in Example, with cos(2*pi/180) > 0, the pair sharing "A" (n = 2
   * siblings) scores below 0 through the factor (n - k + 1)/n with k = 25,
   * while the pair sharing nothing scores 0.1.
   */
  lemma LegacyScoreNotMonotone(ops: MathLib)
    requires Cosine(ops, 2) > 0.0
    ensures |CommonStr("Aa01A01=", "Az01A01=")| > |CommonStr("Aa01A01=", "Ba01A01=")|
    ensures KnownCodes(Example, "Aa01A01=", "Az01A01=") && KnownCodes(Example, "Aa01A01=", "Ba01A01=")
    ensures SimByCode(Example, ops, "Aa01A01=", "Az01A01=") < 0.0 < SimByCode(Example, ops, "Aa01A01=", "Ba01A01=")
  {
    ExamplePrefixes();
    ExampleFarScore(ops);
    ExampleNearScore(ops);
    SimFormulaNegative(ops, CoeffA, 2, 25);
  }

  /** Two siblings further apart than their number get a negative formula score (for a positive cosine). */
  lemma SimFormulaNegative(ops: MathLib, coeff: real, n: nat, k: nat)
    requires n > 0 && coeff > 0.0 && k > n + 1 && Cosine(ops, n) > 0.0
    ensures SimFormula(ops, coeff, n, k) < 0.0
  {
    var num, den := (n - k + 1) as real, n as real;
    var q := num / den;
    assert q * den == num;
    assert q < 0.0;
    var a := coeff * Cosine(ops, n);
    assert a > 0.0;
    assert SimFormula(ops, coeff, n, k) == a * q;
  }

  /** sim2016_by_code by the level of first difference, with factor 0.4, 0.65, 0.9 or 1.0. */
  lemma Sim2016ByLevel(ix: Index, ops: MathLib, c1: string, c2: string, L: nat)
    requires KnownCodes(ix, c1, c2) && !EndsWith(c1, '@') && !EndsWith(c2, '@')
    requires FirstDifference(CodeLayer(c1), CodeLayer(c2), L)
    ensures L == 0 ==> Sim2016ByCode(ix, ops, c1, c2) == FloorScore
    ensures 1 <= L <= 4 ==>
      var n := SiblingCount(ix.codeWord.Keys, c1[..LevelEnd(L)]);
      var k := GetK(CodeLayer(c1), CodeLayer(c2));
      n >= 2 && Sim2016ByCode(ix, ops, c1, c2) ==
        Factor2016(L) * ops.sqrt(ops.epow(-1.0 * (k as real) / (2.0 * (n as real))))
    ensures L == 5 ==> Sim2016ByCode(ix, ops, c1, c2) == 0.0
  {
    FormulaInputs(ix, c1, c2, L);
    assert CodeLayer(c1)[5] == [c1[7]] && CodeLayer(c2)[5] == [c2[7]];
    if 1 <= L <= 4 {
      var d := Dist2016(CommonStr(c1, c2));
      assert 1.05 - 0.05 * d == Factor2016(L);
    }
  }

  /**
   * A code scored against itself: 1 for '=', 0.5 for '#', 0.1 for '@' (and
   * 0 for any other marker), under both methods.
   */
  lemma SameCodeScores(ix: Index, ops: MathLib, c: string)
    requires KnownCodes(ix, c, c)
    ensures var s := SimByCode(ix, ops, c, c);
      s == Sim2016ByCode(ix, ops, c, c) &&
      (EndsWith(c, '@') ==> s == FloorScore) &&
      (EndsWith(c, '=') ==> s == 1.0) &&
      (EndsWith(c, '#') ==> s == HashScore)
  {
    LayerOfMatchingCodes(c, c);
  }

  lemma SimByCodeSymmetric(ix: Index, ops: MathLib, c1: string, c2: string)
    requires KnownCodes(ix, c1, c2)
    ensures SimByCode(ix, ops, c1, c2) == SimByCode(ix, ops, c2, c1)
  {
    CommonStrSymmetric(c1, c2);
    GetKSymmetric(CodeLayer(c1), CodeLayer(c2));
  }

  lemma Sim2016ByCodeSymmetric(ix: Index, ops: MathLib, c1: string, c2: string)
    requires KnownCodes(ix, c1, c2)
    ensures Sim2016ByCode(ix, ops, c1, c2) == Sim2016ByCode(ix, ops, c2, c1)
  {
    CommonStrSymmetric(c1, c2);
    var common := CommonStr(c1, c2);
    if !EndsWith(c1, '@') && !EndsWith(c2, '@') && 0 < |common| < 7 {
      GetKSymmetric(CodeLayer(c1), CodeLayer(c2));
    }
  }

  /** Two identical codes are at distance 10, since get_layer gives 0 for the full code. */
  lemma IdenticalCodesDistance(c: string)
    requires IsCode(c)
    ensures LayerDistance(c, c) == 10
  {
    LayerOfMatchingCodes(c, c);
  }

  // ---------------------------------------------------------------------
  // Running maxima over two code lists
  // ---------------------------------------------------------------------

  /** The four per-pair quantities the word-level loops maximise. */
  datatype Measure = Legacy | Modern | Path | Density

  /**
   * The pairs measure `m` can score: the code scores and the density need
   * keys of a well-formed index; the path distance takes any two strings.
   */
  ghost predicate PairOk(m: Measure, ix: Index, c1: string, c2: string) {
    (m == Path || KnownCodes(ix, c1, c2)) &&
    (m == Density ==> ix.total > 0 && WordCount(ix, c1, c2) > 0)
  }

  /** sim_by_code, sim2016_by_code, 2*(5-layer), or -log(count_word/N). */
  ghost function PairScore(m: Measure, ix: Index, ops: MathLib, c1: string, c2: string): real
    requires PairOk(m, ix, c1, c2)
  {
    match m
    case Legacy => SimByCode(ix, ops, c1, c2)
    case Modern => Sim2016ByCode(ix, ops, c1, c2)
    case Path => LayerDistance(c1, c2) as real
    case Density => -1.0 * ops.log((WordCount(ix, c1, c2) as real) / (ix.total as real))
  }

  lemma PairScoreSymmetric(m: Measure, ix: Index, ops: MathLib, c1: string, c2: string)
    requires PairOk(m, ix, c1, c2)
    ensures PairOk(m, ix, c2, c1)
    ensures PairScore(m, ix, ops, c1, c2) == PairScore(m, ix, ops, c2, c1)
  {
    match m
    case Legacy => SimByCodeSymmetric(ix, ops, c1, c2);
    case Modern => Sim2016ByCodeSymmetric(ix, ops, c1, c2);
    case Path => CommonStrSymmetric(c1, c2);
    case Density => WordCountSymmetric(ix, c1, c2);
  }

  ghost predicate RowOk(m: Measure, ix: Index, c1: string, codes2: seq<string>) {
    forall j :: 0 <= j < |codes2| ==> PairOk(m, ix, c1, codes2[j])
  }

  ghost predicate AllPairsOk(m: Measure, ix: Index, codes1: seq<string>, codes2: seq<string>) {
    forall i :: 0 <= i < |codes1| ==> RowOk(m, ix, codes1[i], codes2)
  }

  /** A running maximum: `best` updated with each of `s` in turn. */
  function MaxFrom(best: real, s: seq<real>): real
    decreases |s|
  {
    if s == [] then best else RunningMax(MaxFrom(best, s[..|s| - 1]), s[|s| - 1])
  }

  lemma {:induction false} MaxFromBounds(best: real, s: seq<real>)
    ensures MaxFrom(best, s) >= best
    ensures forall j :: 0 <= j < |s| ==> s[j] <= MaxFrom(best, s)
    ensures MaxFrom(best, s) == best || exists j :: 0 <= j < |s| && MaxFrom(best, s) == s[j]
    decreases |s|
  {
    if s != [] {
      var init := s[..|s| - 1];
      MaxFromBounds(best, init);
      if MaxFrom(best, s) != best && MaxFrom(best, s) == MaxFrom(best, init) {
        var j :| 0 <= j < |init| && MaxFrom(best, init) == init[j];
        assert s[j] == init[j];
      }
    }
  }

  /**
   * The pair scores of measure `m` as one total function of two codes, so
   * that the loops below are stated once for all four measures (0 on a pair
   * `m` cannot score, which no loop reaches).
   */
  ghost function ScoreFn(m: Measure, ix: Index, ops: MathLib): (string, string) -> real {
    (c1: string, c2: string) => if PairOk(m, ix, c1, c2) then PairScore(m, ix, ops, c1, c2) else 0.0
  }

  /** The scores `f` gives c1 against each of codes2, in order. */
  function Row(f: (string, string) -> real, c1: string, codes2: seq<string>): (r: seq<real>)
    ensures |r| == |codes2|
    decreases |codes2|
  {
    if codes2 == [] then []
    else Row(f, c1, codes2[..|codes2| - 1]) + [f(c1, codes2[|codes2| - 1])]
  }

  lemma {:induction false} RowAt(f: (string, string) -> real, c1: string, codes2: seq<string>, j: nat)
    requires j < |codes2|
    ensures Row(f, c1, codes2)[j] == f(c1, codes2[j])
    decreases |codes2|
  {
    if j < |codes2| - 1 {
      var init := codes2[..|codes2| - 1];
      RowAt(f, c1, init, j);
      assert init[j] == codes2[j];
    }
  }

  /** The nested loops over a matrix of scores: `start` updated row by row. */
  function CrossMax(start: real, rows: seq<seq<real>>): real
    decreases |rows|
  {
    if rows == [] then start else MaxFrom(CrossMax(start, rows[..|rows| - 1]), rows[|rows| - 1])
  }

  lemma {:induction false} CrossMaxBounds(start: real, rows: seq<seq<real>>)
    ensures CrossMax(start, rows) >= start
    ensures forall i, j :: 0 <= i < |rows| && 0 <= j < |rows[i]| ==> rows[i][j] <= CrossMax(start, rows)
    ensures CrossMax(start, rows) == start ||
      exists i, j :: 0 <= i < |rows| && 0 <= j < |rows[i]| && CrossMax(start, rows) == rows[i][j]
    decreases |rows|
  {
    if rows != [] {
      var init, last := rows[..|rows| - 1], rows[|rows| - 1];
      assert forall i :: 0 <= i < |init| ==> init[i] == rows[i];
      var prev := CrossMax(start, init);
      CrossMaxBounds(start, init);
      MaxFromBounds(prev, last);
      var x := CrossMax(start, rows);
      if x != start {
        if x == prev {
          var i, j :| 0 <= i < |init| && 0 <= j < |init[i]| && prev == init[i][j];
          assert rows[i] == init[i];
        } else {
          var j :| 0 <= j < |last| && x == last[j];
          assert rows[|rows| - 1] == last;
        }
      }
    }
  }

  /** The score matrix of two code lists: one Row per code of codes1. */
  function Grid(f: (string, string) -> real, codes1: seq<string>, codes2: seq<string>): (g: seq<seq<real>>)
    ensures |g| == |codes1|
    decreases |codes1|
  {
    if codes1 == [] then []
    else Grid(f, codes1[..|codes1| - 1], codes2) + [Row(f, codes1[|codes1| - 1], codes2)]
  }

  lemma {:induction false} GridRow(f: (string, string) -> real, codes1: seq<string>, codes2: seq<string>, i: nat)
    requires i < |codes1|
    ensures Grid(f, codes1, codes2)[i] == Row(f, codes1[i], codes2)
    decreases |codes1|
  {
    if i < |codes1| - 1 {
      var init := codes1[..|codes1| - 1];
      GridRow(f, init, codes2, i);
      assert init[i] == codes1[i];
    }
  }

  /** The maximum over a score matrix bounds every pair's score and is `start` or one of them. */
  lemma GridBounds(f: (string, string) -> real, start: real, codes1: seq<string>, codes2: seq<string>)
    ensures CrossMax(start, Grid(f, codes1, codes2)) >= start
    ensures forall i, j :: 0 <= i < |codes1| && 0 <= j < |codes2| ==>
      f(codes1[i], codes2[j]) <= CrossMax(start, Grid(f, codes1, codes2))
    ensures CrossMax(start, Grid(f, codes1, codes2)) == start ||
      exists i, j :: 0 <= i < |codes1| && 0 <= j < |codes2| &&
        CrossMax(start, Grid(f, codes1, codes2)) == f(codes1[i], codes2[j])
  {
    var g := Grid(f, codes1, codes2);
    var x := CrossMax(start, g);
    CrossMaxBounds(start, g);
    forall i, j | 0 <= i < |codes1| && 0 <= j < |codes2|
      ensures f(codes1[i], codes2[j]) <= x
    {
      GridRow(f, codes1, codes2, i);
      RowAt(f, codes1[i], codes2, j);
    }
    if x != start {
      var i, j :| 0 <= i < |g| && 0 <= j < |g[i]| && x == g[i][j];
      GridRow(f, codes1, codes2, i);
      RowAt(f, codes1[i], codes2, j);
    }
  }

  /** With no codes on one side there is no pair: the maximum stays at `start`. */
  lemma {:induction false} GridOfNoPairs(f: (string, string) -> real, start: real, codes1: seq<string>)
    ensures CrossMax(start, Grid(f, codes1, [])) == start
    decreases |codes1|
  {
    if codes1 != [] {
      GridOfNoPairs(f, start, codes1[..|codes1| - 1]);
    }
  }

  /** One more code of the inner loop: the running maximum takes one more score. */
  lemma RowStep(f: (string, string) -> real, best: real, c1: string, codes2: seq<string>, j: nat)
    requires j < |codes2|
    ensures MaxFrom(best, Row(f, c1, codes2[..j + 1])) ==
      RunningMax(MaxFrom(best, Row(f, c1, codes2[..j])), f(c1, codes2[j]))
  {
    var row := codes2[..j + 1];
    assert row[..j] == codes2[..j];
  }

  /** One more code of the outer loop: the maximum continues over that code's row. */
  lemma GridStep(f: (string, string) -> real, start: real, codes1: seq<string>, codes2: seq<string>, i: nat)
    requires i < |codes1|
    ensures CrossMax(start, Grid(f, codes1[..i + 1], codes2)) ==
      MaxFrom(CrossMax(start, Grid(f, codes1[..i], codes2)), Row(f, codes1[i], codes2))
  {
    var rows := codes1[..i + 1];
    assert rows[..i] == codes1[..i];
  }

  /** similarity's, sim2016's, dist's and dense's nested loops, from `start`. */
  ghost function Cross(m: Measure, ix: Index, ops: MathLib, start: real, codes1: seq<string>, codes2: seq<string>): real
    requires AllPairsOk(m, ix, codes1, codes2)
  {
    CrossMax(start, Grid(ScoreFn(m, ix, ops), codes1, codes2))
  }

  lemma CrossOfNoPairs(m: Measure, ix: Index, ops: MathLib, start: real, codes1: seq<string>)
    ensures AllPairsOk(m, ix, codes1, [])
    ensures Cross(m, ix, ops, start, codes1, []) == start
  {
    GridOfNoPairs(ScoreFn(m, ix, ops), start, codes1);
  }

  /**
   * The nested running maximum is the largest of `start` and all pair
   * scores: it bounds each of them and equals one of them.
   */
  lemma CrossBounds(m: Measure, ix: Index, ops: MathLib, start: real, codes1: seq<string>, codes2: seq<string>)
    requires AllPairsOk(m, ix, codes1, codes2)
    ensures Cross(m, ix, ops, start, codes1, codes2) >= start
    ensures forall i, j :: 0 <= i < |codes1| && 0 <= j < |codes2| ==>
      PairScore(m, ix, ops, codes1[i], codes2[j]) <= Cross(m, ix, ops, start, codes1, codes2)
    ensures Cross(m, ix, ops, start, codes1, codes2) == start ||
      exists i, j :: 0 <= i < |codes1| && 0 <= j < |codes2| &&
        Cross(m, ix, ops, start, codes1, codes2) == PairScore(m, ix, ops, codes1[i], codes2[j])
  {
    var f := ScoreFn(m, ix, ops);
    GridBounds(f, start, codes1, codes2);
    forall i, j | 0 <= i < |codes1| && 0 <= j < |codes2|
      ensures f(codes1[i], codes2[j]) == PairScore(m, ix, ops, codes1[i], codes2[j])
    {
      assert RowOk(m, ix, codes1[i], codes2);
    }
  }

  /** One more scorable pair keeps the row scorable. */
  lemma RowOkStep(m: Measure, ix: Index, c1: string, codes2: seq<string>, j: nat)
    requires j < |codes2| && RowOk(m, ix, c1, codes2[..j]) && PairOk(m, ix, c1, codes2[j])
    ensures RowOk(m, ix, c1, codes2[..j + 1])
  {
    var row := codes2[..j + 1];
    forall k | 0 <= k < j + 1 ensures PairOk(m, ix, c1, row[k]) {
      if k < j {
        assert row[k] == codes2[..j][k];
      }
    }
  }

  /** One more scorable row keeps the grid scorable. */
  lemma AllPairsOkStep(m: Measure, ix: Index, codes1: seq<string>, codes2: seq<string>, i: nat)
    requires i < |codes1| && AllPairsOk(m, ix, codes1[..i], codes2) && RowOk(m, ix, codes1[i], codes2)
    ensures AllPairsOk(m, ix, codes1[..i + 1], codes2)
  {
    var rows := codes1[..i + 1];
    forall k | 0 <= k < i + 1 ensures RowOk(m, ix, rows[k], codes2) {
      if k < i {
        assert rows[k] == codes1[..i][k];
      }
    }
  }

  /** The outer loop's step for one measure, keeping every pair scorable. */
  lemma CrossStep(m: Measure, ix: Index, ops: MathLib, start: real, codes1: seq<string>, codes2: seq<string>, i: nat)
    requires i < |codes1| && AllPairsOk(m, ix, codes1[..i], codes2) && RowOk(m, ix, codes1[i], codes2)
    ensures AllPairsOk(m, ix, codes1[..i + 1], codes2)
    ensures Cross(m, ix, ops, start, codes1[..i + 1], codes2) ==
      MaxFrom(Cross(m, ix, ops, start, codes1[..i], codes2), Row(ScoreFn(m, ix, ops), codes1[i], codes2))
  {
    AllPairsOkStep(m, ix, codes1, codes2, i);
    GridStep(ScoreFn(m, ix, ops), start, codes1, codes2, i);
  }

  lemma AllPairsOkSymmetric(m: Measure, ix: Index, codes1: seq<string>, codes2: seq<string>)
    requires AllPairsOk(m, ix, codes1, codes2)
    ensures AllPairsOk(m, ix, codes2, codes1)
  {
    forall j, i | 0 <= j < |codes2| && 0 <= i < |codes1| ensures PairOk(m, ix, codes2[j], codes1[i]) {
      PairScoreSymmetric(m, ix, MathLib(0.0, x => x, x => x, x => x, x => x), codes1[i], codes2[j]);
    }
  }

  /** The nested maximum does not depend on which list is iterated outside. */
  lemma CrossSymmetric(m: Measure, ix: Index, ops: MathLib, start: real, codes1: seq<string>, codes2: seq<string>)
    requires AllPairsOk(m, ix, codes1, codes2)
    ensures AllPairsOk(m, ix, codes2, codes1)
    ensures Cross(m, ix, ops, start, codes1, codes2) == Cross(m, ix, ops, start, codes2, codes1)
  {
    AllPairsOkSymmetric(m, ix, codes1, codes2);
    var x := Cross(m, ix, ops, start, codes1, codes2);
    var y := Cross(m, ix, ops, start, codes2, codes1);
    CrossBounds(m, ix, ops, start, codes1, codes2);
    CrossBounds(m, ix, ops, start, codes2, codes1);
    forall i, j | 0 <= i < |codes1| && 0 <= j < |codes2|
      ensures PairScore(m, ix, ops, codes1[i], codes2[j]) == PairScore(m, ix, ops, codes2[j], codes1[i])
    {
      PairScoreSymmetric(m, ix, ops, codes1[i], codes2[j]);
    }
    assert x <= y;
    assert y <= x;
  }

  // ---------------------------------------------------------------------
  // Word-level scores
  // ---------------------------------------------------------------------

  /** The codes of two known words are known codes, for every measure but density. */
  lemma WordPairsOk(m: Measure, ix: Index, w1: string, w2: string)
    requires Ready(ix) && m != Density && w1 in ix.vocab && w2 in ix.vocab
    ensures AllPairsOk(m, ix, ix.wordCode[w1], ix.wordCode[w2])
  {
    forall i, j | 0 <= i < |ix.wordCode[w1]| && 0 <= j < |ix.wordCode[w2]|
      ensures KnownCodes(ix, ix.wordCode[w1][i], ix.wordCode[w2][j])
    {
      assert ix.wordCode[w1][i] in ix.wordCode[w1];
      assert ix.wordCode[w2][j] in ix.wordCode[w2];
    }
  }

  /** similarity (Legacy) and sim2016 (Modern): 0 for an unknown word, else the maximum from 0. */
  ghost function WordScore(m: Measure, ix: Index, ops: MathLib, w1: string, w2: string): real
    requires Ready(ix) && (m == Legacy || m == Modern)
  {
    if w1 !in ix.vocab || w2 !in ix.vocab then 0.0
    else
      WordPairsOk(m, ix, w1, w2);
      Cross(m, ix, ops, 0.0, ix.wordCode[w1], ix.wordCode[w2])
  }

  lemma WordScoreBounds(m: Measure, ix: Index, ops: MathLib, w1: string, w2: string)
    requires Ready(ix) && (m == Legacy || m == Modern)
    ensures w1 !in ix.vocab || w2 !in ix.vocab ==> WordScore(m, ix, ops, w1, w2) == 0.0
    ensures WordScore(m, ix, ops, w1, w2) >= 0.0
    ensures w1 in ix.vocab && w2 in ix.vocab ==>
      var codes1, codes2 := ix.wordCode[w1], ix.wordCode[w2];
      AllPairsOk(m, ix, codes1, codes2) &&
      forall i, j :: 0 <= i < |codes1| && 0 <= j < |codes2| ==>
         PairScore(m, ix, ops, codes1[i], codes2[j]) <= WordScore(m, ix, ops, w1, w2)
  {
    if w1 in ix.vocab && w2 in ix.vocab {
      var codes1, codes2 := ix.wordCode[w1], ix.wordCode[w2];
      WordPairsOk(m, ix, w1, w2);
      CrossBounds(m, ix, ops, 0.0, codes1, codes2);
    }
  }

  lemma WordScoreAttained(m: Measure, ix: Index, ops: MathLib, w1: string, w2: string)
    requires Ready(ix) && (m == Legacy || m == Modern) && w1 in ix.vocab && w2 in ix.vocab
    ensures var codes1, codes2 := ix.wordCode[w1], ix.wordCode[w2];
      AllPairsOk(m, ix, codes1, codes2) &&
      (WordScore(m, ix, ops, w1, w2) == 0.0 ||
       exists i, j :: 0 <= i < |codes1| && 0 <= j < |codes2| &&
         WordScore(m, ix, ops, w1, w2) == PairScore(m, ix, ops, codes1[i], codes2[j]))
  {
    var codes1, codes2 := ix.wordCode[w1], ix.wordCode[w2];
    WordPairsOk(m, ix, w1, w2);
    CrossBounds(m, ix, ops, 0.0, codes1, codes2);
  }

  lemma WordScoreSymmetric(m: Measure, ix: Index, ops: MathLib, w1: string, w2: string)
    requires Ready(ix) && (m == Legacy || m == Modern)
    ensures WordScore(m, ix, ops, w1, w2) == WordScore(m, ix, ops, w2, w1)
  {
    if w1 in ix.vocab && w2 in ix.vocab {
      WordPairsOk(m, ix, w1, w2);
      CrossSymmetric(m, ix, ops, 0.0, ix.wordCode[w1], ix.wordCode[w2]);
    }
  }

  ghost function Similarity(ix: Index, ops: MathLib, w1: string, w2: string): real
    requires Ready(ix)
  {
    WordScore(Legacy, ix, ops, w1, w2)
  }

  /**
   * similarity: 0 when a word is unknown; otherwise at least 0 and every
   * sim_by_code of their code pairs, and equal to 0 or to one of them;
   * symmetric in the two words.
   */
  lemma SimilarityBounds(ix: Index, ops: MathLib, w1: string, w2: string)
    requires Ready(ix)
    ensures w1 !in ix.vocab || w2 !in ix.vocab ==> Similarity(ix, ops, w1, w2) == 0.0
    ensures Similarity(ix, ops, w1, w2) >= 0.0
    ensures w1 in ix.vocab && w2 in ix.vocab ==>
      var codes1, codes2 := ix.wordCode[w1], ix.wordCode[w2];
      (forall i, j :: 0 <= i < |codes1| && 0 <= j < |codes2| && KnownCodes(ix, codes1[i], codes2[j]) ==>
         SimByCode(ix, ops, codes1[i], codes2[j]) <= Similarity(ix, ops, w1, w2)) &&
      (Similarity(ix, ops, w1, w2) == 0.0 ||
       exists i, j :: 0 <= i < |codes1| && 0 <= j < |codes2| && KnownCodes(ix, codes1[i], codes2[j]) &&
         Similarity(ix, ops, w1, w2) == SimByCode(ix, ops, codes1[i], codes2[j]))
    ensures Similarity(ix, ops, w1, w2) == Similarity(ix, ops, w2, w1)
  {
    WordScoreBounds(Legacy, ix, ops, w1, w2);
    WordScoreSymmetric(Legacy, ix, ops, w1, w2);
    if w1 in ix.vocab && w2 in ix.vocab {
      WordScoreAttained(Legacy, ix, ops, w1, w2);
    }
  }

  ghost function Sim2016(ix: Index, ops: MathLib, w1: string, w2: string): real
    requires Ready(ix)
  {
    WordScore(Modern, ix, ops, w1, w2)
  }

  /** sim2016: the same running maximum as similarity, over sim2016_by_code. */
  lemma Sim2016Bounds(ix: Index, ops: MathLib, w1: string, w2: string)
    requires Ready(ix)
    ensures w1 !in ix.vocab || w2 !in ix.vocab ==> Sim2016(ix, ops, w1, w2) == 0.0
    ensures Sim2016(ix, ops, w1, w2) >= 0.0
    ensures w1 in ix.vocab && w2 in ix.vocab ==>
      var codes1, codes2 := ix.wordCode[w1], ix.wordCode[w2];
      (forall i, j :: 0 <= i < |codes1| && 0 <= j < |codes2| && KnownCodes(ix, codes1[i], codes2[j]) ==>
         Sim2016ByCode(ix, ops, codes1[i], codes2[j]) <= Sim2016(ix, ops, w1, w2)) &&
      (Sim2016(ix, ops, w1, w2) == 0.0 ||
       exists i, j :: 0 <= i < |codes1| && 0 <= j < |codes2| && KnownCodes(ix, codes1[i], codes2[j]) &&
         Sim2016(ix, ops, w1, w2) == Sim2016ByCode(ix, ops, codes1[i], codes2[j]))
    ensures Sim2016(ix, ops, w1, w2) == Sim2016(ix, ops, w2, w1)
  {
    WordScoreBounds(Modern, ix, ops, w1, w2);
    WordScoreSymmetric(Modern, ix, ops, w1, w2);
    if w1 in ix.vocab && w2 in ix.vocab {
      WordScoreAttained(Modern, ix, ops, w1, w2);
    }
  }

  lemma SelfWordScore(m: Measure, ix: Index, ops: MathLib, w: string)
    requires Ready(ix) && (m == Legacy || m == Modern)
    requires w in ix.vocab && |ix.wordCode[w]| == 1 && EndsWith(ix.wordCode[w][0], '=')
    ensures WordScore(m, ix, ops, w, w) == 1.0
  {
    var codes := ix.wordCode[w];
    var c := codes[0];
    assert codes == [c];
    assert c in codes;
    assert KnownCodes(ix, c, c);
    SameCodeScores(ix, ops, c);
    CrossOfOne(m, ix, ops, c);
    assert WordScore(m, ix, ops, w, w) == Cross(m, ix, ops, 0.0, [c], [c]);
  }

  /**
   * A word whose only code ends in '=' is fully similar to itself under
   * both similarity and sim2016.
   */
  lemma SelfSimilarity(ix: Index, ops: MathLib, w: string)
    requires Ready(ix) && w in ix.vocab && |ix.wordCode[w]| == 1 && EndsWith(ix.wordCode[w][0], '=')
    ensures Similarity(ix, ops, w, w) == 1.0 && Sim2016(ix, ops, w, w) == 1.0
  {
    SelfWordScore(Legacy, ix, ops, w);
    SelfWordScore(Modern, ix, ops, w);
  }

  /** A single pair of codes: the maximum from 0 is the larger of 0 and its score. */
  lemma CrossOfOne(m: Measure, ix: Index, ops: MathLib, c: string)
    requires PairOk(m, ix, c, c)
    ensures AllPairsOk(m, ix, [c], [c])
    ensures Cross(m, ix, ops, 0.0, [c], [c]) == RunningMax(0.0, PairScore(m, ix, ops, c, c))
  {
    CrossBounds(m, ix, ops, 0.0, [c], [c]);
  }

  /** Two code lists of known codes. */
  predicate CodeLists(ix: Index, codes1: seq<string>, codes2: seq<string>) {
    WellFormed(ix) &&
    (forall i :: 0 <= i < |codes1| ==> codes1[i] in ix.codeWord) &&
    (forall j :: 0 <= j < |codes2| ==> codes2[j] in ix.codeWord)
  }

  lemma CodeListsOk(m: Measure, ix: Index, codes1: seq<string>, codes2: seq<string>)
    requires CodeLists(ix, codes1, codes2) && m != Density
    ensures AllPairsOk(m, ix, codes1, codes2)
  {
  }

  /** Every pair of strings has a path distance. */
  lemma PathPairsOk(ix: Index, codes1: seq<string>, codes2: seq<string>)
    ensures AllPairsOk(Path, ix, codes1, codes2)
  {
  }

  /** dist: the running maximum, from 0, of 2*(5-layer) over all code pairs. */
  ghost function Dist(ix: Index, ops: MathLib, codes1: seq<string>, codes2: seq<string>): real
  {
    PathPairsOk(ix, codes1, codes2);
    Cross(Path, ix, ops, 0.0, codes1, codes2)
  }

  /**
   * dist is an even integer between 0 and 10, at least every pair's
   * 2*(5-layer), and equal to one of them when both lists are non-empty
   * (0 when either is empty).
   */
  lemma DistRange(ix: Index, ops: MathLib, codes1: seq<string>, codes2: seq<string>)
    ensures var d := Dist(ix, ops, codes1, codes2);
      d == d.Floor as real && 0.0 <= d <= 10.0 && d.Floor % 2 == 0
    ensures forall i, j :: 0 <= i < |codes1| && 0 <= j < |codes2| ==>
      LayerDistance(codes1[i], codes2[j]) as real <= Dist(ix, ops, codes1, codes2)
    ensures codes1 != [] && codes2 != [] ==>
      exists i, j :: 0 <= i < |codes1| && 0 <= j < |codes2| &&
        Dist(ix, ops, codes1, codes2) == LayerDistance(codes1[i], codes2[j]) as real
    ensures codes1 == [] || codes2 == [] ==> Dist(ix, ops, codes1, codes2) == 0.0
  {
    PathPairsOk(ix, codes1, codes2);
    CrossBounds(Path, ix, ops, 0.0, codes1, codes2);
    var d := Dist(ix, ops, codes1, codes2);
    if d != 0.0 {
      var i, j :| 0 <= i < |codes1| && 0 <= j < |codes2| && d == PairScore(Path, ix, ops, codes1[i], codes2[j]);
      assert d == LayerDistance(codes1[i], codes2[j]) as real;
    } else if codes1 != [] && codes2 != [] {
      // every pair distance is at most 0, so the first pair attains it
      assert PairScore(Path, ix, ops, codes1[0], codes2[0]) <= d;
      assert d == LayerDistance(codes1[0], codes2[0]) as real;
    }
  }

  lemma DistSymmetric(ix: Index, ops: MathLib, codes1: seq<string>, codes2: seq<string>)
    ensures Dist(ix, ops, codes1, codes2) == Dist(ix, ops, codes2, codes1)
  {
    PathPairsOk(ix, codes1, codes2);
    CrossSymmetric(Path, ix, ops, 0.0, codes1, codes2);
  }

  /**
   * dense: -log(count_word/N) maximised from 0 over all pairs; dividing by
   * N = 0 raises ZeroDivisionError and log(0) raises ValueError at the
   * first pair that reaches them.
   */
  ghost function Dense(ix: Index, ops: MathLib, codes1: seq<string>, codes2: seq<string>): Outcome
    requires CodeLists(ix, codes1, codes2)
  {
    if codes1 == [] || codes2 == [] then Ok(0.0)
    else if ix.total == 0 then ZeroDivisionError
    else if exists i, j :: 0 <= i < |codes1| && 0 <= j < |codes2| && WordCount(ix, codes1[i], codes2[j]) == 0 then ValueError
    else Ok(Cross(Density, ix, ops, 0.0, codes1, codes2))
  }

  /** When every pair is countable, dense is the nested running maximum. */
  lemma DenseOfCountable(ix: Index, ops: MathLib, codes1: seq<string>, codes2: seq<string>)
    requires CodeLists(ix, codes1, codes2) && AllPairsOk(Density, ix, codes1, codes2)
    ensures Dense(ix, ops, codes1, codes2) == Ok(Cross(Density, ix, ops, 0.0, codes1, codes2))
  {
    if codes1 == [] {
    } else if codes2 == [] {
      CrossOfNoPairs(Density, ix, ops, 0.0, codes1);
    } else {
      assert RowOk(Density, ix, codes1[0], codes2);
      assert PairOk(Density, ix, codes1[0], codes2[0]);
      forall i, j | 0 <= i < |codes1| && 0 <= j < |codes2|
        ensures WordCount(ix, codes1[i], codes2[j]) > 0
      {
        assert RowOk(Density, ix, codes1[i], codes2);
        assert PairOk(Density, ix, codes1[i], codes2[j]);
      }
    }
  }

  /** N = 0 with pairs to score: dense divides by zero. */
  lemma DenseOfEmptyIndex(ix: Index, ops: MathLib, codes1: seq<string>, codes2: seq<string>)
    requires CodeLists(ix, codes1, codes2) && codes1 != [] && codes2 != [] && ix.total == 0
    ensures Dense(ix, ops, codes1, codes2) == ZeroDivisionError
  {
  }

  /** A pair with no words between its codes, N > 0: dense takes log(0). */
  lemma DenseOfUncountable(ix: Index, ops: MathLib, codes1: seq<string>, codes2: seq<string>, i: nat, j: nat)
    requires CodeLists(ix, codes1, codes2) && ix.total > 0
    requires i < |codes1| && j < |codes2| && WordCount(ix, codes1[i], codes2[j]) == 0
    ensures Dense(ix, ops, codes1, codes2) == ValueError
  {
  }

  /** A successful dense is at least 0 and at least every pair's -log(count_word/N). */
  lemma DenseBounds(ix: Index, ops: MathLib, codes1: seq<string>, codes2: seq<string>)
    requires CodeLists(ix, codes1, codes2)
    ensures Dense(ix, ops, codes1, codes2).Ok? ==> Dense(ix, ops, codes1, codes2).value >= 0.0
    ensures Dense(ix, ops, codes1, codes2).Ok? && codes1 != [] && codes2 != [] ==>
      AllPairsOk(Density, ix, codes1, codes2) &&
      forall i, j :: 0 <= i < |codes1| && 0 <= j < |codes2| ==>
        PairScore(Density, ix, ops, codes1[i], codes2[j]) <= Dense(ix, ops, codes1, codes2).value
  {
    if Dense(ix, ops, codes1, codes2).Ok? && codes1 != [] && codes2 != [] {
      CrossBounds(Density, ix, ops, 0.0, codes1, codes2);
    }
  }

  lemma DenseSymmetric(ix: Index, ops: MathLib, codes1: seq<string>, codes2: seq<string>)
    requires CodeLists(ix, codes1, codes2)
    ensures CodeLists(ix, codes2, codes1) && Dense(ix, ops, codes1, codes2) == Dense(ix, ops, codes2, codes1)
  {
    forall i, j | 0 <= i < |codes1| && 0 <= j < |codes2|
      ensures WordCount(ix, codes1[i], codes2[j]) == WordCount(ix, codes2[j], codes1[i])
    {
      WordCountSymmetric(ix, codes1[i], codes2[j]);
    }
    if Dense(ix, ops, codes1, codes2).Ok? && codes1 != [] && codes2 != [] {
      CrossSymmetric(Density, ix, ops, 0.0, codes1, codes2);
    }
  }

  /** g1: e^(-alpha * dist). */
  function PathSimilarity(ops: MathLib, dist: real): (r: real)
    requires PositiveExp(ops)
    ensures r > 0.0
  {
    ops.epow(-Alpha * dist)
  }

  /** g2: the hyperbolic tangent of beta * dense, written with e^x. */
  function DensitySimilarity(ops: MathLib, dense: real): (r: real)
    requires PositiveExp(ops)
    ensures -1.0 < r < 1.0
    ensures dense == 0.0 ==> r == 0.0
  {
    var x := Beta * dense;
    var a, b := ops.epow(x), ops.epow(-1.0 * x);
    assert a > 0.0 && b > 0.0;
    (a - b) / (a + b)
  }

  /** g2 of dense's outcome: the tanh of a value, or the exception dense raised. */
  function DensityOutcome(ops: MathLib, dense: Outcome): (r: Outcome)
    requires PositiveExp(ops)
    ensures r.Ok? <==> dense.Ok?
    ensures r.Ok? ==> -1.0 < r.value < 1.0
  {
    match dense
    case Ok(f) => Ok(DensitySimilarity(ops, f))
    case ZeroDivisionError => ZeroDivisionError
    case ValueError => ValueError
  }

  /** g2 is odd in dense. */
  lemma DensitySimilarityOdd(ops: MathLib, dense: real)
    requires PositiveExp(ops)
    ensures DensitySimilarity(ops, -dense) == -DensitySimilarity(ops, dense)
  {
    var x := Beta * dense;
    assert Beta * -dense == -1.0 * x;
    assert -1.0 * (-1.0 * x) == x;
    var a, b := ops.epow(x), ops.epow(-1.0 * x);
    assert a > 0.0 && b > 0.0;
    assert (b - a) / (b + a) == -((a - b) / (a + b));
  }

  /**
   * sim2013: 0 for an unknown word; otherwise sigma * g1 + (1 - sigma) * g2,
   * where g2 passes on an exception raised by dense.
   */
  ghost function Sim2013(ix: Index, ops: MathLib, w1: string, w2: string): Outcome
    requires Ready(ix) && PositiveExp(ops)
  {
    if w1 !in ix.vocab || w2 !in ix.vocab then Ok(0.0)
    else
      var codes1, codes2 := ix.wordCode[w1], ix.wordCode[w2];
      assert CodeLists(ix, codes1, codes2) by { WordPairsOk(Path, ix, w1, w2); }
      Combine2013(ops, Dist(ix, ops, codes1, codes2), Dense(ix, ops, codes1, codes2))
  }

  /** sigma * g1(dist) + (1 - sigma) * g2(dense), passing on dense's exception. */
  function Combine2013(ops: MathLib, dist: real, dense: Outcome): Outcome
    requires PositiveExp(ops)
  {
    match dense
    case Ok(f) => Ok(Sigma * PathSimilarity(ops, dist) + (1.0 - Sigma) * DensitySimilarity(ops, f))
    case ZeroDivisionError => ZeroDivisionError
    case ValueError => ValueError
  }

  lemma Sim2013Symmetric(ix: Index, ops: MathLib, w1: string, w2: string)
    requires Ready(ix) && PositiveExp(ops)
    ensures Sim2013(ix, ops, w1, w2) == Sim2013(ix, ops, w2, w1)
  {
    if w1 in ix.vocab && w2 in ix.vocab {
      var codes1, codes2 := ix.wordCode[w1], ix.wordCode[w2];
      WordPairsOk(Path, ix, w1, w2);
      DistSymmetric(ix, ops, codes1, codes2);
      DenseSymmetric(ix, ops, codes1, codes2);
      assert Sim2013(ix, ops, w1, w2) == Combine2013(ops, Dist(ix, ops, codes1, codes2), Dense(ix, ops, codes1, codes2));
      assert Sim2013(ix, ops, w2, w1) == Combine2013(ops, Dist(ix, ops, codes2, codes1), Dense(ix, ops, codes2, codes1));
    }
  }

  lemma CombinationBound(f1: real, f2: real)
    requires f1 > 0.0 && -1.0 < f2 < 1.0
    ensures Sigma * f1 + (1.0 - Sigma) * f2 > -0.7
  {
  }

  /**
   * On a consistent index sim2013 never divides by zero (a known word makes
   * N positive), and a result exceeds -0.7, since g1 > 0 and |g2| < 1.
   */
  lemma Sim2013Range(ix: Index, ops: MathLib, w1: string, w2: string)
    requires Ready(ix) && PositiveExp(ops)
    ensures Sim2013(ix, ops, w1, w2) != ZeroDivisionError
    ensures Sim2013(ix, ops, w1, w2).Ok? ==> Sim2013(ix, ops, w1, w2).value > -0.7
  {
    if w1 in ix.vocab && w2 in ix.vocab {
      var codes1, codes2 := ix.wordCode[w1], ix.wordCode[w2];
      WordPairsOk(Path, ix, w1, w2);
      var d := Dist(ix, ops, codes1, codes2);
      var r := Dense(ix, ops, codes1, codes2);
      assert ix.total > 0;
      assert Sim2013(ix, ops, w1, w2) == Combine2013(ops, d, r);
      if r.Ok? {
        CombinationBound(PathSimilarity(ops, d), DensitySimilarity(ops, r.value));
      }
    }
  }

  // ---------------------------------------------------------------------
  // Sentence distance
  // ---------------------------------------------------------------------

  /** Python's max() of a non-empty sequence: the first element, replaced by any larger one. */
  function SeqMax(s: seq<real>): real
    requires |s| > 0
    decreases |s|
  {
    if |s| == 1 then s[0] else RunningMax(SeqMax(s[..|s| - 1]), s[|s| - 1])
  }

  lemma {:induction false} SeqMaxBounds(s: seq<real>)
    requires |s| > 0
    ensures forall j :: 0 <= j < |s| ==> s[j] <= SeqMax(s)
    ensures exists j :: 0 <= j < |s| && SeqMax(s) == s[j]
    decreases |s|
  {
    if |s| > 1 {
      var init := s[..|s| - 1];
      assert forall j :: 0 <= j < |init| ==> init[j] == s[j];
      SeqMaxBounds(init);
      if SeqMax(s) == SeqMax(init) {
        var j :| 0 <= j < |init| && SeqMax(init) == init[j];
        assert s[j] == init[j];
      } else {
        assert SeqMax(s) == s[|s| - 1];
      }
    } else {
      assert SeqMax(s) == s[0];
    }
  }

  /**
   * similarity to `w`, as a function of the other word (0 on an index that
   * is not ready, which no caller reaches).
   */
  ghost function SimilarityTo(ix: Index, ops: MathLib, w: string): string -> real {
    o => if Ready(ix) then Similarity(ix, ops, w, o) else 0.0
  }

  /** The scores `f` gives each of `others`, in order. */
  function Scores(f: string -> real, others: seq<string>): (s: seq<real>)
    ensures |s| == |others|
    decreases |others|
  {
    if others == [] then []
    else Scores(f, others[..|others| - 1]) + [f(others[|others| - 1])]
  }

  lemma {:induction false} ScoresAt(f: string -> real, others: seq<string>, j: nat)
    requires j < |others|
    ensures Scores(f, others)[j] == f(others[j])
    decreases |others|
  {
    if j < |others| - 1 {
      var init := others[..|others| - 1];
      ScoresAt(f, init, j);
      assert init[j] == others[j];
    }
  }

  /** One more word of the generator: max takes one more similarity. */
  lemma ScoresStep(f: string -> real, others: seq<string>, j: nat)
    requires 0 < j < |others|
    ensures SeqMax(Scores(f, others[..j + 1])) == RunningMax(SeqMax(Scores(f, others[..j])), f(others[j]))
  {
    var prefix := others[..j + 1];
    assert prefix[..j] == others[..j];
  }

  /** `max(self.similarity(w, o) for o in others)`. */
  ghost function BestMatch(ix: Index, ops: MathLib, w: string, others: seq<string>): real
    requires Ready(ix) && |others| > 0
  {
    SeqMax(Scores(SimilarityTo(ix, ops, w), others))
  }

  lemma BestMatchBounds(ix: Index, ops: MathLib, w: string, others: seq<string>)
    requires Ready(ix) && |others| > 0
    ensures forall j :: 0 <= j < |others| ==> Similarity(ix, ops, w, others[j]) <= BestMatch(ix, ops, w, others)
    ensures exists j :: 0 <= j < |others| && BestMatch(ix, ops, w, others) == Similarity(ix, ops, w, others[j])
  {
    var f := SimilarityTo(ix, ops, w);
    var s := Scores(f, others);
    SeqMaxBounds(s);
    forall j | 0 <= j < |others| ensures Similarity(ix, ops, w, others[j]) <= BestMatch(ix, ops, w, others) {
      ScoresAt(f, others, j);
    }
    var j :| 0 <= j < |s| && SeqMax(s) == s[j];
    ScoresAt(f, others, j);
  }

  /** The per-word maxima of `words` against `others`, in order. */
  ghost function BestMatches(ix: Index, ops: MathLib, words: seq<string>, others: seq<string>): (s: seq<real>)
    requires Ready(ix) && |others| > 0
    ensures |s| == |words|
    decreases |words|
  {
    if words == [] then []
    else BestMatches(ix, ops, words[..|words| - 1], others) + [BestMatch(ix, ops, words[|words| - 1], others)]
  }

  function Mean(s: seq<real>): real
    requires |s| > 0
  {
    SumReals(s) / (|s| as real)
  }

  /**
   * distance on already-filtered word lists: a ValueError when exactly one
   * list is empty (max() of nothing), a ZeroDivisionError when both are,
   * otherwise the larger of the two directional means of per-word maxima.
   */
  ghost function Distance(ix: Index, ops: MathLib, words1: seq<string>, words2: seq<string>): Outcome
    requires Ready(ix)
  {
    if |words1| > 0 && |words2| == 0 then ValueError
    else if |words1| == 0 && |words2| > 0 then ValueError
    else if |words1| == 0 then ZeroDivisionError
    else Ok(RunningMax(Mean(BestMatches(ix, ops, words1, words2)), Mean(BestMatches(ix, ops, words2, words1))))
  }

  lemma {:induction false} SumAppend(s: seq<real>, x: real)
    ensures SumReals(s + [x]) == SumReals(s) + x
  {
    if s != [] {
      assert (s + [x])[1..] == s[1..] + [x];
      SumAppend(s[1..], x);
    }
  }

  lemma {:induction false} SumBounds(s: seq<real>, lo: real, hi: real)
    requires forall i :: 0 <= i < |s| ==> lo <= s[i] <= hi
    ensures (|s| as real) * lo <= SumReals(s) <= (|s| as real) * hi
  {
    if s != [] {
      SumBounds(s[1..], lo, hi);
    }
  }

  lemma MeanBounds(s: seq<real>, lo: real, hi: real)
    requires |s| > 0
    requires forall i :: 0 <= i < |s| ==> lo <= s[i] <= hi
    ensures lo <= Mean(s) <= hi
  {
    SumBounds(s, lo, hi);
    var n := |s| as real;
    assert SumReals(s) / n >= lo by {
      assert SumReals(s) >= n * lo;
    }
    assert SumReals(s) / n <= hi by {
      assert SumReals(s) <= n * hi;
    }
  }

  lemma {:induction false} BestMatchesBounds(ix: Index, ops: MathLib, words: seq<string>, others: seq<string>, hi: real)
    requires Ready(ix) && |others| > 0
    requires forall i, j :: 0 <= i < |words| && 0 <= j < |others| ==> Similarity(ix, ops, words[i], others[j]) <= hi
    ensures forall i :: 0 <= i < |words| ==> 0.0 <= BestMatches(ix, ops, words, others)[i] <= hi
    decreases |words|
  {
    if words != [] {
      var init, last := words[..|words| - 1], words[|words| - 1];
      BestMatchesBounds(ix, ops, init, others, hi);
      BestMatchBounds(ix, ops, last, others);
      var j :| 0 <= j < |others| && BestMatch(ix, ops, last, others) == Similarity(ix, ops, last, others[j]);
      SimilarityBounds(ix, ops, last, others[j]);
    }
  }

  /**
   * distance is symmetric, and on non-empty lists lies between 0 and any
   * bound on the word-to-word similarities.
   */
  lemma DistanceProperties(ix: Index, ops: MathLib, words1: seq<string>, words2: seq<string>, hi: real)
    requires Ready(ix)
    requires forall i, j :: 0 <= i < |words1| && 0 <= j < |words2| ==> Similarity(ix, ops, words1[i], words2[j]) <= hi
    ensures Distance(ix, ops, words1, words2) == Distance(ix, ops, words2, words1)
    ensures Distance(ix, ops, words1, words2).Ok? <==> |words1| > 0 && |words2| > 0
    ensures Distance(ix, ops, words1, words2).Ok? ==> 0.0 <= Distance(ix, ops, words1, words2).value <= hi
  {
    if |words1| > 0 && |words2| > 0 {
      BestMatchesBounds(ix, ops, words1, words2, hi);
      forall j, i | 0 <= j < |words2| && 0 <= i < |words1| ensures Similarity(ix, ops, words2[j], words1[i]) <= hi {
        SimilarityBounds(ix, ops, words1[i], words2[j]);
      }
      BestMatchesBounds(ix, ops, words2, words1, hi);
      MeanBounds(BestMatches(ix, ops, words1, words2), 0.0, hi);
      MeanBounds(BestMatches(ix, ops, words2, words1), 0.0, hi);
    }
  }

  lemma {:induction false} SumAtMost(s: seq<real>, hi: real)
    requires forall i :: 0 <= i < |s| ==> s[i] <= hi
    ensures SumReals(s) <= (|s| as real) * hi
  {
    if s != [] {
      SumAtMost(s[1..], hi);
    }
  }

  /** The best match of `o` within the one-word list [w] is their similarity. */
  lemma BestMatchOfOne(ix: Index, ops: MathLib, o: string, w: string)
    requires Ready(ix)
    ensures BestMatch(ix, ops, o, [w]) == Similarity(ix, ops, o, w)
  {
    BestMatchBounds(ix, ops, o, [w]);
  }

  /** Each per-word maximum of `words` against the single word `w` is that word's similarity to `w`. */
  lemma {:induction false} BestMatchesOfOne(ix: Index, ops: MathLib, words: seq<string>, w: string, j: nat)
    requires Ready(ix) && j < |words|
    ensures BestMatches(ix, ops, words, [w])[j] == Similarity(ix, ops, words[j], w)
    decreases |words|
  {
    var init, last := words[..|words| - 1], words[|words| - 1];
    var s := BestMatches(ix, ops, words, [w]);
    assert s == BestMatches(ix, ops, init, [w]) + [BestMatch(ix, ops, last, [w])];
    if j < |init| {
      BestMatchesOfOne(ix, ops, init, w, j);
      assert words[j] == init[j];
    } else {
      BestMatchOfOne(ix, ops, last, w);
    }
  }

  /** The mean of values at most `a`, paired with the one-element mean of `a`, has maximum `a`. */
  lemma MaxWithSmallerMean(a: real, s: seq<real>)
    requires |s| > 0 && forall j :: 0 <= j < |s| ==> s[j] <= a
    ensures RunningMax(Mean([a]), Mean(s)) == a
  {
    assert SumReals([a]) == a;
    SumAtMost(s, a);
    DivAtMost(SumReals(s), |s| as real, a);
  }

  lemma DivAtMost(x: real, n: real, a: real)
    requires n > 0.0 && x <= n * a
    ensures x / n <= a
  {
  }

  lemma ForwardOfOne(ix: Index, ops: MathLib, w: string, others: seq<string>)
    requires Ready(ix) && |others| > 0
    ensures BestMatches(ix, ops, [w], others) == [BestMatch(ix, ops, w, others)]
  {
    assert [w][..0] == [];
  }

  /**
   * Aligning a single word against a non-empty list gives that word's best
   * similarity over the list: the other direction averages the same
   * similarities and so never exceeds their maximum.
   */
  lemma DistanceOfOneWord(ix: Index, ops: MathLib, w: string, others: seq<string>)
    requires Ready(ix) && |others| > 0
    ensures Distance(ix, ops, [w], others) == Ok(BestMatch(ix, ops, w, others))
  {
    var best := BestMatch(ix, ops, w, others);
    ForwardOfOne(ix, ops, w, others);
    var backward := BestMatches(ix, ops, others, [w]);
    BestMatchBounds(ix, ops, w, others);
    forall j | 0 <= j < |backward| ensures backward[j] <= best {
      BestMatchesOfOne(ix, ops, others, w, j);
      SimilarityBounds(ix, ops, others[j], w);
    }
    MaxWithSmallerMean(best, backward);
  }
}
