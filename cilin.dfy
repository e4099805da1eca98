/**
 * The CilinSimilarity object: the index fields that read_cilin fills in
 * place, and the query methods, each proved to compute the function of the
 * current index that the CilinIndex and CilinScore modules define.
 */
module Cilin {
  import opened CilinCode
  import opened CilinIndex
  import opened CilinScore

  class CilinSimilarity {
    /** code -> words of its line. */
    var codeWord: map<string, seq<string>>
    /** word -> one code per occurrence of the word. */
    var wordCode: map<string, seq<string>>
    var vocab: set<string>
    /** N: the number of word occurrences read. */
    var total: nat
    /** pi and the floating-point functions of Python's math module. */
    const math: MathLib

    /** The fields as an index value. */
    function Model(): Index
      reads this
    {
      Index(codeWord, wordCode, vocab, total)
    }

    ghost predicate Valid()
      reads this
    {
      Consistent(Model()) && PositiveExp(math)
    }

    /** The object every query needs: valid, with well-formed codes as keys. */
    ghost predicate Ready()
      reads this
    {
      Valid() && WellFormed(Model())
    }

    /** __init__: empty fields, then read_cilin over the taxonomy lines. */
    constructor (lines: seq<seq<string>>, math: MathLib)
      requires AllLines(lines) && PositiveExp(math)
      ensures Model() == Load(lines) && this.math == math
      ensures Valid()
      ensures WellFormed(Model()) <==> forall i :: 0 <= i < |lines| ==> IsCode(lines[i][0])
    {
      this.math := math;
      codeWord := map[];
      wordCode := map[];
      vocab := {};
      total := 0;
      new;
      ReadCilin(lines);
      LoadConsistent(lines);
      LoadWellFormed(lines);
    }

    /** read_cilin: for each line, record its words under its code and each word's code. */
    method ReadCilin(lines: seq<seq<string>>)
      requires AllLines(lines)
      modifies this
      ensures Model() == LoadFrom(old(Model()), lines)
      ensures old(Valid()) ==> Valid()
    {
      for i := 0 to |lines|
        invariant AllLines(lines[..i])
        invariant Model() == LoadFrom(old(Model()), lines[..i])
      {
        var res := lines[i];
        var code := res[0];
        var words := res[1..];
        ghost var after := AddLine(Model(), res);
        vocab := vocab + (set w | w in words);
        codeWord := codeWord[code := words];
        total := total + |words|;
        AppendCode(code, words);
        assert Model() == after;
        assert lines[..i + 1][..i] == lines[..i];
      }
      assert lines[..|lines|] == lines;
      if old(Valid()) {
        LoadFromConsistent(old(Model()), lines);
      }
    }

    /** The inner loop of read_cilin: append `code` to word_code[w] for each word, creating the list if needed. */
    method AppendCode(code: string, words: seq<string>)
      modifies this`wordCode
      ensures wordCode == AddWords(old(wordCode), code, words)
    {
      for j := 0 to |words|
        invariant wordCode == AddWords(old(wordCode), code, words[..j])
      {
        var w := words[j];
        if w in wordCode {
          wordCode := wordCode[w := wordCode[w] + [code]];
        } else {
          wordCode := wordCode[w := [code]];
        }
        assert words[..j + 1][..j] == words[..j];
      }
      assert words[..|words|] == words;
    }

    /** get_n: the number of distinct level values under `common`. */
    method GetN(common: string) returns (n: nat)
      requires WellFormed(Model())
      ensures n == SiblingCount(codeWord.Keys, common)
    {
      if |common| == 0 {
        return 0;
      }
      var siblings: set<string> := {};
      var layer := GetLayer(common);
      var rest := codeWord.Keys;
      while rest != {}
        invariant rest <= codeWord.Keys
        invariant siblings == Siblings(codeWord.Keys - rest, common)
        decreases |rest|
      {
        var c :| c in rest;
        if IsPrefix(common, c) {
          var clayer := CodeLayer(c);
          siblings := siblings + {clayer[layer]};
        }
        rest := rest - {c};
      }
      assert codeWord.Keys - rest == codeWord.Keys;
      return |siblings|;
    }

    /** codes_between. */
    method CodesBetween(c1: string, c2: string) returns (codes: set<string>)
      requires WellFormed(Model()) && IsCode(c1) && IsCode(c2)
      ensures codes == Between(codeWord.Keys, c1, c2)
    {
      codes := {};
      var common := GetCommonStr(c1, c2);
      if |common| == 8 {
        codes := codes + {c1};
        return;
      }
      var rest := codeWord.Keys;
      while rest != {}
        invariant rest <= codeWord.Keys
        invariant codes == set c | c in codeWord.Keys - rest && InRange(common, c1, c2, c)
        decreases |rest|
      {
        var c :| c in rest;
        if IsPrefix(common, c) {
          var layer := GetLayer(common);
          if c[layer] <= MaxChar(c1[layer], c2[layer]) && c[layer] >= MinChar(c1[layer], c2[layer]) {
            codes := codes + {c};
          }
        }
        rest := rest - {c};
      }
      assert codeWord.Keys - rest == codeWord.Keys;
    }

    /** count_word: the words held by the codes between c1 and c2. */
    method CountWord(c1: string, c2: string) returns (cnt: nat)
      requires CountableCodes(Model(), c1, c2)
      ensures cnt == WordCount(Model(), c1, c2)
    {
      var codes := CodesBetween(c1, c2);
      BetweenKeys(Model(), c1, c2);
      cnt := SumWordLists(codes);
    }

    /** The loop of count_word: the total length of the word lists of `codes`. */
    method SumWordLists(codes: set<string>) returns (cnt: nat)
      requires codes <= codeWord.Keys
      ensures cnt == SumLens(codeWord, codes)
    {
      cnt := 0;
      var rest := codes;
      while rest != {}
        invariant rest <= codes
        invariant cnt == SumLens(codeWord, codes - rest)
        decreases |rest|
      {
        var code :| code in rest;
        var done := codes - rest;
        SumLensRemove(codeWord, done + {code}, code);
        assert done + {code} - {code} == done;
        assert codes - (rest - {code}) == done + {code};
        cnt := cnt + |codeWord[code]|;
        rest := rest - {code};
      }
      assert codes - rest == codes;
    }

    /**
     * sim_by_code, the executable form of CilinScore.SimByCode: the same branches,
     * with the prefix and get_n computed by the GetCommonStr and GetN loops.
     */
    method SimByCode(c1: string, c2: string) returns (r: real)
      requires KnownCodes(Model(), c1, c2)
      ensures r == CilinScore.SimByCode(Model(), math, c1, c2)
    {
      var clayer1 := CodeLayer(c1);
      var clayer2 := CodeLayer(c2);
      var common := GetCommonStr(c1, c2);
      var length := |common|;
      if EndsWith(c1, '@') || EndsWith(c2, '@') || length == 0 {
        return FloorScore;
      }
      r := 0.0;
      if 7 <= length {
        if EndsWith(c1, '=') && EndsWith(c2, '=') {
          r := 1.0;
        } else if EndsWith(c1, '#') && EndsWith(c2, '#') {
          r := HashScore;
        }
      } else {
        var k := GetK(clayer1, clayer2);
        var n := GetN(common);
        SiblingCountOfKeys(codeWord.Keys, c1, c2);
        if length == 1 {
          r := SimFormula(math, CoeffA, n, k);
        } else if length == 2 {
          r := SimFormula(math, CoeffB, n, k);
        } else if length == 4 {
          r := SimFormula(math, CoeffC, n, k);
        } else if length == 5 {
          r := SimFormula(math, CoeffD, n, k);
        }
      }
    }

    /**
     * sim2016_by_code, the executable form of CilinScore.Sim2016ByCode: the same
     * branches, with the prefix and get_n computed by the GetCommonStr and
     * GetN loops.
     */
    method Sim2016ByCode(c1: string, c2: string) returns (r: real)
      requires KnownCodes(Model(), c1, c2)
      ensures r == CilinScore.Sim2016ByCode(Model(), math, c1, c2)
    {
      var clayer1 := CodeLayer(c1);
      var clayer2 := CodeLayer(c2);
      var common := GetCommonStr(c1, c2);
      var length := |common|;
      if EndsWith(c1, '@') || EndsWith(c2, '@') || length == 0 {
        return FloorScore;
      }
      r := 0.0;
      if 7 <= length {
        if EndsWith(c1, '=') && EndsWith(c2, '=') {
          r := 1.0;
        } else if EndsWith(c1, '#') && EndsWith(c2, '#') {
          r := HashScore;
        }
      } else {
        var k := GetK(clayer1, clayer2);
        var n := GetN(common);
        SiblingCountOfKeys(codeWord.Keys, c1, c2);
        var d := Dist2016(common);
        var e := math.sqrt(math.epow(-1.0 * (k as real) / (2.0 * (n as real))));
        r := (1.05 - 0.05 * d) * e;
      }
    }

    /** The nested running maximum, from 0, of sim_by_code or sim2016_by_code. */
    method BestCodePair(m: Measure, codes1: seq<string>, codes2: seq<string>) returns (simMax: real)
      requires (m == Legacy || m == Modern) && AllPairsOk(m, Model(), codes1, codes2)
      ensures simMax == Cross(m, Model(), math, 0.0, codes1, codes2)
    {
      simMax := 0.0;
      for i := 0 to |codes1|
        invariant AllPairsOk(m, Model(), codes1[..i], codes2)
        invariant simMax == Cross(m, Model(), math, 0.0, codes1[..i], codes2)
      {
        assert RowOk(m, Model(), codes1[i], codes2);
        simMax := BestInRow(m, codes1[i], codes2, simMax);
        CrossStep(m, Model(), math, 0.0, codes1, codes2, i);
      }
      assert codes1[..|codes1|] == codes1;
    }

    /** The inner loop of similarity and sim2016: `best` raised to each code pair's score in turn. */
    method BestInRow(m: Measure, c1: string, codes2: seq<string>, best: real) returns (simMax: real)
      requires (m == Legacy || m == Modern) && RowOk(m, Model(), c1, codes2)
      ensures simMax == MaxFrom(best, Row(ScoreFn(m, Model(), math), c1, codes2))
    {
      simMax := best;
      for j := 0 to |codes2|
        invariant simMax == MaxFrom(best, Row(ScoreFn(m, Model(), math), c1, codes2[..j]))
      {
        assert PairOk(m, Model(), c1, codes2[j]);
        var curSim;
        if m == Legacy {
          curSim := SimByCode(c1, codes2[j]);
        } else {
          curSim := Sim2016ByCode(c1, codes2[j]);
        }
        RowStep(ScoreFn(m, Model(), math), best, c1, codes2, j);
        if curSim > simMax {
          simMax := curSim;
        }
      }
      assert codes2[..|codes2|] == codes2;
    }

    /** similarity. */
    method Similarity(w1: string, w2: string) returns (r: real)
      requires Ready()
      ensures r == CilinScore.Similarity(Model(), math, w1, w2)
    {
      if w1 !in vocab || w2 !in vocab {
        return 0.0;
      }
      var code1 := wordCode[w1];
      var code2 := wordCode[w2];
      WordPairsOk(Legacy, Model(), w1, w2);
      r := BestCodePair(Legacy, code1, code2);
    }

    /** sim2016. */
    method Sim2016(w1: string, w2: string) returns (r: real)
      requires Ready()
      ensures r == CilinScore.Sim2016(Model(), math, w1, w2)
    {
      if w1 !in vocab || w2 !in vocab {
        return 0.0;
      }
      var code1 := wordCode[w1];
      var code2 := wordCode[w2];
      WordPairsOk(Modern, Model(), w1, w2);
      r := BestCodePair(Modern, code1, code2);
    }

    /** dist: the largest 2*(5 - layer) over all code pairs, kept in `dmin`. */
    method Dist(codes1: seq<string>, codes2: seq<string>) returns (dmin: int)
      ensures dmin as real == CilinScore.Dist(Model(), math, codes1, codes2)
      ensures 0 <= dmin <= 10 && dmin % 2 == 0
    {
      PathPairsOk(Model(), codes1, codes2);
      dmin := 0;
      for i := 0 to |codes1|
        invariant AllPairsOk(Path, Model(), codes1[..i], codes2)
        invariant dmin as real == Cross(Path, Model(), math, 0.0, codes1[..i], codes2)
      {
        assert RowOk(Path, Model(), codes1[i], codes2);
        dmin := FarthestInRow(codes1[i], codes2, dmin);
        CrossStep(Path, Model(), math, 0.0, codes1, codes2, i);
      }
      assert codes1[..|codes1|] == codes1;
      DistRange(Model(), math, codes1, codes2);
    }

    /** The inner loop of dist: `dmin` raised to each code pair's 2*(5 - layer) in turn. */
    method FarthestInRow(c1: string, codes2: seq<string>, start: int) returns (dmin: int)
      requires RowOk(Path, Model(), c1, codes2)
      ensures dmin as real == MaxFrom(start as real, Row(ScoreFn(Path, Model(), math), c1, codes2))
    {
      dmin := start;
      for j := 0 to |codes2|
        invariant dmin as real == MaxFrom(start as real, Row(ScoreFn(Path, Model(), math), c1, codes2[..j]))
      {
        assert PairOk(Path, Model(), c1, codes2[j]);
        var commonStr := GetCommonStr(c1, codes2[j]);
        var layer := GetLayer(commonStr);
        var d := 2 * (5 - layer);
        RowStep(ScoreFn(Path, Model(), math), start as real, c1, codes2, j);
        if d > dmin {
          dmin := d;
        }
      }
      assert codes2[..|codes2|] == codes2;
    }

    /** dense: the largest -log(count_word/N), or the exception Python raises first. */
    method Dense(codes1: seq<string>, codes2: seq<string>) returns (r: Outcome)
      requires CodeLists(Model(), codes1, codes2)
      ensures r == CilinScore.Dense(Model(), math, codes1, codes2)
    {
      var dnsMax := 0.0;
      for i := 0 to |codes1|
        invariant AllPairsOk(Density, Model(), codes1[..i], codes2)
        invariant dnsMax == Cross(Density, Model(), math, 0.0, codes1[..i], codes2)
      {
        var row := DenseRow(codes1[i], codes2, dnsMax);
        if row.ZeroDivisionError? {
          DenseOfEmptyIndex(Model(), math, codes1, codes2);
          return ZeroDivisionError;
        }
        if row.ValueError? {
          ghost var j :| 0 <= j < |codes2| && WordCount(Model(), codes1[i], codes2[j]) == 0;
          DenseOfUncountable(Model(), math, codes1, codes2, i, j);
          return ValueError;
        }
        dnsMax := row.value;
        CrossStep(Density, Model(), math, 0.0, codes1, codes2, i);
      }
      assert codes1[..|codes1|] == codes1;
      DenseOfCountable(Model(), math, codes1, codes2);
      return Ok(dnsMax);
    }

    /** One pair's -log(count_word/N), or the exception it raises. */
    method DensePair(c1: string, c2: string) returns (r: Outcome)
      requires WellFormed(Model()) && c1 in codeWord && c2 in codeWord
      ensures r.ZeroDivisionError? <==> total == 0
      ensures r.ValueError? <==> total > 0 && WordCount(Model(), c1, c2) == 0
      ensures r.Ok? ==> PairOk(Density, Model(), c1, c2) && r.value == PairScore(Density, Model(), math, c1, c2)
    {
      var cnt := CountWord(c1, c2);
      if total == 0 {
        return ZeroDivisionError;
      }
      if cnt == 0 {
        return ValueError;
      }
      return Ok(-1.0 * math.log((cnt as real) / (total as real)));
    }

    /**
     * The inner loop of dense: `best` raised to each pair's -log(count_word/N),
     * or the exception the first pair raises.
     */
    method DenseRow(c1: string, codes2: seq<string>, best: real) returns (r: Outcome)
      requires WellFormed(Model()) && c1 in codeWord
      requires forall j :: 0 <= j < |codes2| ==> codes2[j] in codeWord
      ensures r.ZeroDivisionError? <==> total == 0 && codes2 != []
      ensures r.ValueError? <==> total > 0 && exists j :: 0 <= j < |codes2| && WordCount(Model(), c1, codes2[j]) == 0
      ensures r.Ok? ==> RowOk(Density, Model(), c1, codes2) && r.value == MaxFrom(best, Row(ScoreFn(Density, Model(), math), c1, codes2))
    {
      var dnsMax := best;
      for j := 0 to |codes2|
        invariant RowOk(Density, Model(), c1, codes2[..j])
        invariant j > 0 ==> total > 0
        invariant dnsMax == MaxFrom(best, Row(ScoreFn(Density, Model(), math), c1, codes2[..j]))
      {
        var pair := DensePair(c1, codes2[j]);
        if !pair.Ok? {
          return pair;
        }
        var dns := pair.value;
        RowOkStep(Density, Model(), c1, codes2, j);
        RowStep(ScoreFn(Density, Model(), math), best, c1, codes2, j);
        if dns > dnsMax {
          dnsMax := dns;
        }
      }
      assert codes2[..|codes2|] == codes2;
      return Ok(dnsMax);
    }

    /** g1: e^(-alpha * dist). */
    method G1(codes1: seq<string>, codes2: seq<string>) returns (r: real)
      requires PositiveExp(math)
      ensures r == PathSimilarity(math, CilinScore.Dist(Model(), math, codes1, codes2))
      ensures r > 0.0
    {
      var d := Dist(codes1, codes2);
      r := math.epow(-Alpha * (d as real));
    }

    /** g2: the tanh of beta * dense, or dense's exception. */
    method G2(codes1: seq<string>, codes2: seq<string>) returns (r: Outcome)
      requires CodeLists(Model(), codes1, codes2) && PositiveExp(math)
      ensures r == DensityOutcome(math, CilinScore.Dense(Model(), math, codes1, codes2))
    {
      var dense := Dense(codes1, codes2);
      if !dense.Ok? {
        return dense;
      }
      var x := Beta * dense.value;
      var ex, emx := math.epow(x), math.epow(-1.0 * x);
      r := Ok((ex - emx) / (ex + emx));
    }

    /** sim2013: sigma * g1 + (1 - sigma) * g2 for two known words, 0 otherwise. */
    method Sim2013(w1: string, w2: string) returns (r: Outcome)
      requires Ready()
      ensures r == CilinScore.Sim2013(Model(), math, w1, w2)
    {
      if w1 !in vocab || w2 !in vocab {
        return Ok(0.0);
      }
      var codes1 := wordCode[w1];
      var codes2 := wordCode[w2];
      WordPairsOk(Path, Model(), w1, w2);
      var f1 := G1(codes1, codes2);
      var f2 := G2(codes1, codes2);
      if !f2.Ok? {
        return f2;
      }
      r := Ok(Sigma * f1 + (1.0 - Sigma) * f2.value);
    }

    /** `max(self.similarity(w, o) for o in others)`. */
    method BestMatch(w: string, others: seq<string>) returns (best: real)
      requires Ready() && |others| > 0
      ensures best == CilinScore.BestMatch(Model(), math, w, others)
    {
      best := Similarity(w, others[0]);
      ghost var f := SimilarityTo(Model(), math, w);
      assert Scores(f, others[..1]) == [f(others[0])];
      for j := 1 to |others|
        invariant best == SeqMax(Scores(f, others[..j]))
      {
        var s := Similarity(w, others[j]);
        ScoresStep(f, others, j);
        if s > best {
          best := s;
        }
      }
      assert others[..|others|] == others;
    }

    /**
     * One of distance's two scoring loops: each word's best similarity over
     * `others`; `max()` of nothing raises ValueError on the first word when
     * `others` is empty.
     */
    method ScoreWords(words: seq<string>, others: seq<string>) returns (scores: seq<real>, raised: bool)
      requires Ready()
      ensures raised <==> |words| > 0 && |others| == 0
      ensures |others| > 0 ==> scores == BestMatches(Model(), math, words, others)
    {
      scores, raised := [], false;
      for i := 0 to |words|
        invariant |others| > 0 ==> scores == BestMatches(Model(), math, words[..i], others)
        invariant |others| == 0 ==> i == 0
      {
        if |others| == 0 {
          return [], true;
        }
        var score := BestMatch(words[i], others);
        assert words[..i + 1][..i] == words[..i];
        scores := scores + [score];
      }
      assert words[..|words|] == words;
    }

    /** distance over two already-filtered word lists. */
    method Distance(words1: seq<string>, words2: seq<string>) returns (r: Outcome)
      requires Ready()
      ensures r == CilinScore.Distance(Model(), math, words1, words2)
    {
      var scoreWords1, raised1 := ScoreWords(words1, words2);
      if raised1 {
        return ValueError;
      }
      var scoreWords2, raised2 := ScoreWords(words2, words1);
      if raised2 {
        return ValueError;
      }
      if |words1| == 0 {
        return ZeroDivisionError;
      }
      r := Ok(RunningMax(SumReals(scoreWords1) / (|words1| as real), SumReals(scoreWords2) / (|words2| as real)));
    }
  }
}
