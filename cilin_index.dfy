/**
 * The taxonomy index that read_cilin builds, as a value, and the queries
 * on its key set that the scoring formulas use (sibling count, the codes
 * between two branches and the words they hold).
 */
module CilinIndex {
  import opened CilinCode

  /**
   * The four structures of the loaded taxonomy:
   * code -> words of the code's (last) line, word -> one code per
   * occurrence of the word, all words, and N, the number of word
   * occurrences over all lines.
   */
  datatype Index = Index(
    codeWord: map<string, seq<string>>,
    wordCode: map<string, seq<string>>,
    vocab: set<string>,
    total: nat)

  /** The index before any line is read. */
  const Empty: Index := Index(map[], map[], {}, 0)

  /** Every line, as split on whitespace, has at least its code token. */
  predicate AllLines(lines: seq<seq<string>>) {
    forall i :: 0 <= i < |lines| ==> |lines[i]| >= 1
  }

  /** The codes `m` lists for `w`, or none. */
  function Get(m: map<string, seq<string>>, w: string): seq<string> {
    if w in m then m[w] else []
  }

  /** `k` copies of `c`. */
  function Repeat(c: string, k: nat): seq<string> {
    if k == 0 then [] else Repeat(c, k - 1) + [c]
  }

  // ---------------------------------------------------------------------
  // Loading (read_cilin)
  // ---------------------------------------------------------------------

  /** The inner loop of read_cilin: append `code` to the list of every word. */
  function AddWords(wordCode: map<string, seq<string>>, code: string, words: seq<string>): map<string, seq<string>>
    decreases |words|
  {
    if words == [] then wordCode
    else
      var wc := AddWords(wordCode, code, words[..|words| - 1]);
      var w := words[|words| - 1];
      if w in wc then wc[w := wc[w] + [code]] else wc[w := [code]]
  }

  /** One iteration of read_cilin's outer loop. */
  function AddLine(ix: Index, line: seq<string>): Index
    requires |line| >= 1
  {
    var code := line[0];
    var words := line[1..];
    Index(ix.codeWord[code := words],
          AddWords(ix.wordCode, code, words),
          ix.vocab + (set w | w in words),
          ix.total + |words|)
  }

  /** read_cilin applied to `lines`, starting from `ix`. */
  function LoadFrom(ix: Index, lines: seq<seq<string>>): Index
    requires AllLines(lines)
    decreases |lines|
  {
    if lines == [] then ix
    else AddLine(LoadFrom(ix, lines[..|lines| - 1]), lines[|lines| - 1])
  }

  /** The index a fresh CilinSimilarity holds after reading `lines`. */
  function Load(lines: seq<seq<string>>): Index
    requires AllLines(lines)
  {
    LoadFrom(Empty, lines)
  }

  lemma InitOfLines(lines: seq<seq<string>>)
    requires AllLines(lines) && lines != []
    ensures AllLines(lines[..|lines| - 1])
    ensures forall i :: 0 <= i < |lines| - 1 ==> lines[..|lines| - 1][i] == lines[i]
  {
  }

  /** Number of words over all lines, each occurrence counted. */
  function WordTotal(lines: seq<seq<string>>): nat
    requires AllLines(lines)
  {
    if lines == [] then 0 else |lines[0]| - 1 + WordTotal(lines[1..])
  }

  lemma {:induction false} WordTotalAppend(lines: seq<seq<string>>, line: seq<string>)
    requires AllLines(lines) && |line| >= 1
    ensures AllLines(lines + [line])
    ensures WordTotal(lines + [line]) == WordTotal(lines) + |line| - 1
  {
    if lines != [] {
      assert (lines + [line])[1..] == lines[1..] + [line];
      WordTotalAppend(lines[1..], line);
    }
  }

  /** After loading, N is the total number of words across all lines. */
  lemma {:induction false} LoadTotal(lines: seq<seq<string>>)
    requires AllLines(lines)
    ensures Load(lines).total == WordTotal(lines)
  {
    if lines != [] {
      var init := lines[..|lines| - 1];
      LoadTotal(init);
      WordTotalAppend(init, lines[|lines| - 1]);
      assert init + [lines[|lines| - 1]] == lines;
    }
  }

  /** After loading, vocab is the union of the words of all lines. */
  lemma {:induction false} LoadVocab(lines: seq<seq<string>>)
    requires AllLines(lines)
    ensures forall w :: w in Load(lines).vocab <==> exists i :: 0 <= i < |lines| && w in lines[i][1..]
  {
    if lines != [] {
      var init := lines[..|lines| - 1];
      InitOfLines(lines);
      LoadVocab(init);
      forall w | w in Load(lines).vocab
        ensures exists i :: 0 <= i < |lines| && w in lines[i][1..]
      {
        if w !in Load(init).vocab {
          assert w in lines[|lines| - 1][1..];
        } else {
          var i :| 0 <= i < |init| && w in init[i][1..];
          assert w in lines[i][1..];
        }
      }
    }
  }

  /** The codes recorded for `w`: one per occurrence of `w`, in line order. */
  function CodesOf(w: string, lines: seq<seq<string>>): seq<string>
    requires AllLines(lines)
  {
    if lines == [] then []
    else Repeat(lines[0][0], multiset(lines[0][1..])[w]) + CodesOf(w, lines[1..])
  }

  lemma {:induction false} CodesOfAppend(w: string, lines: seq<seq<string>>, line: seq<string>)
    requires AllLines(lines) && |line| >= 1
    ensures AllLines(lines + [line])
    ensures CodesOf(w, lines + [line]) == CodesOf(w, lines) + Repeat(line[0], multiset(line[1..])[w])
  {
    if lines != [] {
      assert (lines + [line])[1..] == lines[1..] + [line];
      CodesOfAppend(w, lines[1..], line);
    }
  }

  lemma AddWordsLast(wordCode: map<string, seq<string>>, code: string, words: seq<string>, w: string)
    requires words != []
    ensures var init := words[..|words| - 1];
      Get(AddWords(wordCode, code, words), w) ==
        Get(AddWords(wordCode, code, init), w) + (if w == words[|words| - 1] then [code] else [])
  {
  }

  lemma {:induction false} AddWordsKeys(wordCode: map<string, seq<string>>, code: string, words: seq<string>)
    ensures AddWords(wordCode, code, words).Keys == wordCode.Keys + (set w | w in words)
    decreases |words|
  {
    if words != [] {
      var init, last := words[..|words| - 1], words[|words| - 1];
      AddWordsKeys(wordCode, code, init);
      assert words == init + [last];
      assert (set w | w in words) == (set w | w in init) + {last};
    }
  }

  lemma {:induction false} AddWordsOf(wordCode: map<string, seq<string>>, code: string, words: seq<string>, w: string)
    ensures Get(AddWords(wordCode, code, words), w) == Get(wordCode, w) + Repeat(code, multiset(words)[w])
    decreases |words|
  {
    if words != [] {
      var init, last := words[..|words| - 1], words[|words| - 1];
      AddWordsOf(wordCode, code, init, w);
      AddWordsLast(wordCode, code, words, w);
      assert words == init + [last];
      assert multiset(words) == multiset(init) + multiset{last};
    }
  }

  /** The inner loop adds the words to the keys and one copy of the code per occurrence. */
  lemma AddWordsSpec(wordCode: map<string, seq<string>>, code: string, words: seq<string>)
    ensures AddWords(wordCode, code, words).Keys == wordCode.Keys + (set w | w in words)
    ensures forall w :: Get(AddWords(wordCode, code, words), w) == Get(wordCode, w) + Repeat(code, multiset(words)[w])
  {
    AddWordsKeys(wordCode, code, words);
    forall w ensures Get(AddWords(wordCode, code, words), w) == Get(wordCode, w) + Repeat(code, multiset(words)[w]) {
      AddWordsOf(wordCode, code, words, w);
    }
  }

  lemma {:induction false} LoadWordCodeKeys(lines: seq<seq<string>>)
    requires AllLines(lines)
    ensures Load(lines).wordCode.Keys == Load(lines).vocab
  {
    if lines != [] {
      var init, last := lines[..|lines| - 1], lines[|lines| - 1];
      InitOfLines(lines);
      LoadWordCodeKeys(init);
      AddWordsSpec(Load(init).wordCode, last[0], last[1..]);
    }
  }

  lemma {:induction false} LoadWordCodeOf(lines: seq<seq<string>>, w: string)
    requires AllLines(lines)
    ensures Get(Load(lines).wordCode, w) == CodesOf(w, lines)
  {
    if lines != [] {
      var init, last := lines[..|lines| - 1], lines[|lines| - 1];
      InitOfLines(lines);
      LoadWordCodeOf(init, w);
      AddWordsSpec(Load(init).wordCode, last[0], last[1..]);
      CodesOfAppend(w, init, last);
      assert init + [last] == lines;
    }
  }

  /**
   * After loading, word_code[w] holds the code of every line containing w,
   * once per occurrence and in line order; words outside vocab have no entry.
   */
  lemma LoadWordCode(lines: seq<seq<string>>)
    requires AllLines(lines)
    ensures Load(lines).wordCode.Keys == Load(lines).vocab
    ensures forall w :: Get(Load(lines).wordCode, w) == CodesOf(w, lines)
  {
    LoadWordCodeKeys(lines);
    forall w ensures Get(Load(lines).wordCode, w) == CodesOf(w, lines) {
      LoadWordCodeOf(lines, w);
    }
  }

  lemma {:induction false} RepeatMembers(c: string, k: nat)
    ensures |Repeat(c, k)| == k
    ensures forall x :: x in Repeat(c, k) <==> k > 0 && x == c
  {
    if k > 0 {
      RepeatMembers(c, k - 1);
    }
  }

  /** Codes of `w`: exactly the first tokens of the lines whose words contain `w`. */
  lemma {:induction false} CodesOfMembers(w: string, lines: seq<seq<string>>)
    requires AllLines(lines)
    ensures forall c :: c in CodesOf(w, lines) <==> exists i :: 0 <= i < |lines| && lines[i][0] == c && w in lines[i][1..]
  {
    if lines != [] {
      CodesOfMembers(w, lines[1..]);
      RepeatMembers(lines[0][0], multiset(lines[0][1..])[w]);
      forall c ensures c in CodesOf(w, lines) <==> exists i :: 0 <= i < |lines| && lines[i][0] == c && w in lines[i][1..] {
        if c in CodesOf(w, lines[1..]) {
          var i :| 0 <= i < |lines[1..]| && lines[1..][i][0] == c && w in lines[1..][i][1..];
          assert lines[i + 1] == lines[1..][i];
        }
        if exists i :: 0 <= i < |lines| && lines[i][0] == c && w in lines[i][1..] {
          var i :| 0 <= i < |lines| && lines[i][0] == c && w in lines[i][1..];
          if i > 0 {
            assert lines[1..][i - 1] == lines[i];
          }
        }
      }
    }
  }

  /**
   * Every word of vocab has a non-empty word_code list, and each listed code
   * is the first token of a line containing the word.
   */
  lemma LoadWordCodeSound(lines: seq<seq<string>>)
    requires AllLines(lines)
    ensures forall w :: w in Load(lines).vocab ==> w in Load(lines).wordCode && |Load(lines).wordCode[w]| > 0
    ensures forall w, c :: w in Load(lines).wordCode && c in Load(lines).wordCode[w] ==>
              exists i :: 0 <= i < |lines| && lines[i][0] == c && w in lines[i][1..]
  {
    LoadWordCode(lines);
    LoadVocab(lines);
    var ix := Load(lines);
    forall w | w in ix.wordCode
      ensures |ix.wordCode[w]| > 0
      ensures forall c :: c in ix.wordCode[w] ==> exists i :: 0 <= i < |lines| && lines[i][0] == c && w in lines[i][1..]
    {
      CodesOfMembers(w, lines);
      assert Get(ix.wordCode, w) == ix.wordCode[w];
      var i :| 0 <= i < |lines| && w in lines[i][1..];
      assert lines[i][0] in CodesOf(w, lines);
    }
  }

  /** Loading one more line sets its code to its words in code_word. */
  lemma LoadCodeWordStep(lines: seq<seq<string>>)
    requires AllLines(lines) && lines != []
    ensures AllLines(lines[..|lines| - 1])
    ensures Load(lines).codeWord == Load(lines[..|lines| - 1]).codeWord[lines[|lines| - 1][0] := lines[|lines| - 1][1..]]
  {
    InitOfLines(lines);
  }

  /** After loading, code_word has a key for each first token and no other. */
  lemma {:induction false} LoadCodeWordKeys(lines: seq<seq<string>>)
    requires AllLines(lines)
    ensures forall c :: c in Load(lines).codeWord <==> exists i :: 0 <= i < |lines| && lines[i][0] == c
  {
    if lines != [] {
      var init, last := lines[..|lines| - 1], lines[|lines| - 1];
      LoadCodeWordStep(lines);
      LoadCodeWordKeys(init);
      var cw := Load(lines).codeWord;
      forall c | c in cw
        ensures exists i :: 0 <= i < |lines| && lines[i][0] == c
      {
        if c == last[0] {
          assert lines[|lines| - 1][0] == c;
        } else {
          var i :| 0 <= i < |init| && init[i][0] == c;
          assert lines[i] == init[i];
        }
      }
      forall c | exists i :: 0 <= i < |lines| && lines[i][0] == c
        ensures c in cw
      {
        var i :| 0 <= i < |lines| && lines[i][0] == c;
        if i < |init| {
          assert init[i] == lines[i];
        }
      }
    }
  }

  /**
   * After loading, each code of code_word maps to the words of the LAST line
   * with that code (a repeated code overwrites).
   */
  lemma {:induction false} LoadCodeWordLast(lines: seq<seq<string>>)
    requires AllLines(lines)
    ensures forall c :: c in Load(lines).codeWord ==>
              exists i :: 0 <= i < |lines| && lines[i][0] == c && Load(lines).codeWord[c] == lines[i][1..] &&
                forall j :: i < j < |lines| ==> lines[j][0] != c
  {
    if lines != [] {
      var init, last := lines[..|lines| - 1], lines[|lines| - 1];
      LoadCodeWordStep(lines);
      LoadCodeWordLast(init);
      var cw, cw0 := Load(lines).codeWord, Load(init).codeWord;
      forall c | c in cw
        ensures exists i :: 0 <= i < |lines| && lines[i][0] == c && cw[c] == lines[i][1..] &&
                  forall j :: i < j < |lines| ==> lines[j][0] != c
      {
        if c == last[0] {
          assert lines[|lines| - 1][0] == c;
        } else {
          assert c in cw0 && cw[c] == cw0[c];
          var i :| 0 <= i < |init| && init[i][0] == c && cw0[c] == init[i][1..] &&
                   forall j :: i < j < |init| ==> init[j][0] != c;
          assert lines[i] == init[i];
          assert forall j :: i < j < |lines| - 1 ==> lines[j] == init[j];
        }
      }
    }
  }

  /** A repeated code keeps only its last word list, yet N counts both lines. */
  lemma RepeatedCodeOverwrites()
    ensures var ix := Load([["Aa01A01=", "x"], ["Aa01A01=", "y"]]);
      ix.codeWord == map["Aa01A01=" := ["y"]] && ix.total == 2 && SumLens(ix.codeWord, ix.codeWord.Keys) == 1
  {
    var lines := [["Aa01A01=", "x"], ["Aa01A01=", "y"]];
    assert lines[..1] == [["Aa01A01=", "x"]];
    assert lines[..1][..0] == [];
    assert LoadFrom(Empty, lines[..1][..0]) == Empty;
    var first := Load(lines[..1]);
    assert first == AddLine(Empty, lines[0]);
    assert first.codeWord == map["Aa01A01=" := ["x"]] && first.total == 1;
    var ix := Load(lines);
    assert ix == AddLine(first, lines[1]);
    assert ix.codeWord == map["Aa01A01=" := ["y"]];
    SumLensRemove(ix.codeWord, ix.codeWord.Keys, "Aa01A01=");
    assert ix.codeWord.Keys - {"Aa01A01="} == {};
  }

  /**
   * code_word and word_code are not inverse maps once a code repeats:
   * word_code still lists the code for a word of the overwritten line, but
   * code_word no longer holds that word under the code.
   */
  lemma RepeatedCodeBreaksInverse()
    ensures var ix := Load([["Aa01A01=", "x"], ["Aa01A01=", "y"]]);
      "Aa01A01=" in Get(ix.wordCode, "x") && "Aa01A01=" in ix.codeWord && "x" !in ix.codeWord["Aa01A01="]
  {
    var lines := [["Aa01A01=", "x"], ["Aa01A01=", "y"]];
    RepeatedCodeOverwrites();
    LoadWordCode(lines);
    assert lines[0][1..] == ["x"] && lines[1][1..] == ["y"];
    assert lines[1..][1..] == [];
    assert multiset(["x"])["x"] == 1 && multiset(["y"])["x"] == 0;
    assert Repeat("Aa01A01=", 1) == ["Aa01A01="];
    assert CodesOf("x", lines) == ["Aa01A01="] + CodesOf("x", lines[1..]);
  }

  // ---------------------------------------------------------------------
  // Sums of word-list lengths over a set of codes
  // ---------------------------------------------------------------------

  ghost function Pick(s: set<string>): string
    requires s != {}
  {
    var x :| x in s; x
  }

  /** The number of words the codes in `S` hold. */
  ghost function SumLens(cw: map<string, seq<string>>, S: set<string>): nat
    requires S <= cw.Keys
    decreases S
  {
    if S == {} then 0 else var c := Pick(S); |cw[c]| + SumLens(cw, S - {c})
  }

  lemma {:induction false} SumLensRemove(cw: map<string, seq<string>>, S: set<string>, x: string)
    requires S <= cw.Keys && x in S
    ensures SumLens(cw, S) == |cw[x]| + SumLens(cw, S - {x})
    decreases S
  {
    var c := Pick(S);
    if c != x {
      SumLensRemove(cw, S - {c}, x);
      SumLensRemove(cw, S - {x}, c);
      assert S - {c} - {x} == S - {x} - {c};
    }
  }

  lemma {:induction false} SumLensSubset(cw: map<string, seq<string>>, T: set<string>, S: set<string>)
    requires T <= S <= cw.Keys
    ensures SumLens(cw, T) <= SumLens(cw, S)
    decreases S
  {
    if T != {} {
      var x := Pick(T);
      SumLensRemove(cw, T, x);
      SumLensRemove(cw, S, x);
      SumLensSubset(cw, T - {x}, S - {x});
    }
  }

  lemma {:induction false} SumLensAgree(cw1: map<string, seq<string>>, cw2: map<string, seq<string>>, S: set<string>)
    requires S <= cw1.Keys && S <= cw2.Keys
    requires forall c :: c in S ==> |cw1[c]| == |cw2[c]|
    ensures SumLens(cw1, S) == SumLens(cw2, S)
    decreases S
  {
    if S != {} {
      var x := Pick(S);
      SumLensRemove(cw1, S, x);
      SumLensRemove(cw2, S, x);
      SumLensAgree(cw1, cw2, S - {x});
    }
  }

  /** Overwriting one code's list changes the sum by at most the new list's length. */
  lemma SumLensUpdate(cw: map<string, seq<string>>, code: string, words: seq<string>)
    ensures SumLens(cw[code := words], cw[code := words].Keys) <= SumLens(cw, cw.Keys) + |words|
  {
    var cw' := cw[code := words];
    SumLensRemove(cw', cw'.Keys, code);
    assert cw'.Keys - {code} == cw.Keys - {code};
    SumLensAgree(cw', cw, cw.Keys - {code});
    SumLensSubset(cw, cw.Keys - {code}, cw.Keys);
  }

  // ---------------------------------------------------------------------
  // The invariant of a loaded index
  // ---------------------------------------------------------------------

  /**
   * What the scoring code relies on: word_code has an entry, with at least
   * one code, for exactly the words of vocab; those codes are keys of
   * code_word; N is at least the number of words code_word holds, and
   * positive once any word is known.
   */
  ghost predicate Consistent(ix: Index) {
    && ix.vocab == ix.wordCode.Keys
    && (ix.vocab != {} ==> ix.total > 0)
    && (forall w :: w in ix.wordCode ==> |ix.wordCode[w]| > 0)
    && (forall w, c :: w in ix.wordCode && c in ix.wordCode[w] ==> c in ix.codeWord)
    && SumLens(ix.codeWord, ix.codeWord.Keys) <= ix.total
  }

  /** Every key of code_word is a well-formed code. */
  predicate AllCodes(keys: set<string>) {
    forall c :: c in keys ==> IsCode(c)
  }

  predicate WellFormed(ix: Index) {
    AllCodes(ix.codeWord.Keys)
  }

  /** Reading one more line keeps the index consistent. */
  lemma AddLineConsistent(ix: Index, line: seq<string>)
    requires |line| >= 1 && Consistent(ix)
    ensures Consistent(AddLine(ix, line))
  {
    var code, words := line[0], line[1..];
    var ix' := AddLine(ix, line);
    AddWordsSpec(ix.wordCode, code, words);
    RepeatMembers(code, multiset(words)[code]);
    forall w | w in ix'.wordCode
      ensures |ix'.wordCode[w]| > 0
      ensures forall c :: c in ix'.wordCode[w] ==> c in ix'.codeWord
    {
      RepeatMembers(code, multiset(words)[w]);
      assert ix'.wordCode[w] == Get(ix.wordCode, w) + Repeat(code, multiset(words)[w]);
      if w !in ix.wordCode {
        assert w in words;
      }
    }
    SumLensUpdate(ix.codeWord, code, words);
    if ix.vocab == {} && ix'.vocab != {} {
      var w :| w in ix'.vocab;
      assert w in words;
    }
  }

  /** The index read from any lines is consistent. */
  /** read_cilin keeps any consistent index consistent, whatever lines it reads. */
  lemma {:induction false} LoadFromConsistent(ix: Index, lines: seq<seq<string>>)
    requires AllLines(lines) && Consistent(ix)
    ensures Consistent(LoadFrom(ix, lines))
  {
    if lines != [] {
      InitOfLines(lines);
      LoadFromConsistent(ix, lines[..|lines| - 1]);
      AddLineConsistent(LoadFrom(ix, lines[..|lines| - 1]), lines[|lines| - 1]);
    }
  }

  lemma LoadConsistent(lines: seq<seq<string>>)
    requires AllLines(lines)
    ensures Consistent(Load(lines))
  {
    assert Empty.codeWord.Keys == {};
    LoadFromConsistent(Empty, lines);
  }

  /** The loaded index is well-formed exactly when every line starts with a well-formed code. */
  lemma LoadWellFormed(lines: seq<seq<string>>)
    requires AllLines(lines)
    ensures WellFormed(Load(lines)) <==> forall i :: 0 <= i < |lines| ==> IsCode(lines[i][0])
  {
    LoadCodeWordKeys(lines);
  }

  /** When no code is repeated, N is exactly the number of words code_word holds. */
  lemma {:induction false} LoadDistinctCodesTotal(lines: seq<seq<string>>)
    requires AllLines(lines)
    requires forall i, j :: 0 <= i < j < |lines| ==> lines[i][0] != lines[j][0]
    ensures SumLens(Load(lines).codeWord, Load(lines).codeWord.Keys) == Load(lines).total
  {
    if lines == [] {
      assert Empty.codeWord.Keys == {};
    } else {
      var init, last := lines[..|lines| - 1], lines[|lines| - 1];
      InitOfLines(lines);
      LoadDistinctCodesTotal(init);
      LoadCodeWordKeys(init);
      var cw := Load(init).codeWord;
      assert last[0] !in cw;
      var cw' := cw[last[0] := last[1..]];
      SumLensRemove(cw', cw'.Keys, last[0]);
      assert cw'.Keys - {last[0]} == cw.Keys;
      SumLensAgree(cw', cw, cw.Keys);
    }
  }

  // ---------------------------------------------------------------------
  // Sibling count (get_n)
  // ---------------------------------------------------------------------

  /** The distinct level values right after `prefix` among the keys that start with it. */
  function Siblings(keys: set<string>, prefix: string): set<string>
    requires AllCodes(keys)
  {
    set c | c in keys && IsPrefix(prefix, c) :: CodeLayer(c)[GetLayer(prefix)]
  }

  /** get_n: 0 for the empty prefix, otherwise the number of siblings. */
  function SiblingCount(keys: set<string>, prefix: string): nat
    requires AllCodes(keys)
  {
    if |prefix| == 0 then 0 else |Siblings(keys, prefix)|
  }

  lemma {:induction false} SiblingsBound(keys: set<string>, prefix: string)
    requires AllCodes(keys)
    ensures |Siblings(keys, prefix)| <= |keys|
    decreases keys
  {
    if keys == {} {
      assert Siblings(keys, prefix) == {};
    } else {
      var x := Pick(keys);
      var rest := keys - {x};
      SiblingsBound(rest, prefix);
      var extra := {CodeLayer(x)[GetLayer(prefix)]};
      assert Siblings(keys, prefix) <= Siblings(rest, prefix) + extra;
      SubsetCard(Siblings(keys, prefix), Siblings(rest, prefix) + extra);
    }
  }

  lemma {:induction false} SubsetCard<T>(a: set<T>, b: set<T>)
    requires a <= b
    ensures |a| <= |b|
  {
    assert b == a + (b - a);
  }

  /**
   * get_n is 0 only for the empty prefix: a non-empty prefix of some key
   * has at least one sibling, and no prefix has more siblings than keys.
   */
  lemma SiblingCountBounds(keys: set<string>, prefix: string)
    requires AllCodes(keys)
    ensures |prefix| == 0 ==> SiblingCount(keys, prefix) == 0
    ensures SiblingCount(keys, prefix) <= |keys|
    ensures |prefix| > 0 && (exists c :: c in keys && IsPrefix(prefix, c)) ==> SiblingCount(keys, prefix) >= 1
  {
    SiblingsBound(keys, prefix);
    if |prefix| > 0 && exists c :: c in keys && IsPrefix(prefix, c) {
      var c :| c in keys && IsPrefix(prefix, c);
      assert CodeLayer(c)[GetLayer(prefix)] in Siblings(keys, prefix);
    }
  }

  /** The divisor of the scoring formulas: two keys with a non-empty common prefix have n >= 1. */
  lemma SiblingCountOfKeys(keys: set<string>, c1: string, c2: string)
    requires AllCodes(keys) && c1 in keys && c2 in keys && |CommonStr(c1, c2)| > 0
    ensures SiblingCount(keys, CommonStr(c1, c2)) >= 1
  {
    SiblingCountBounds(keys, CommonStr(c1, c2));
  }

  // ---------------------------------------------------------------------
  // Codes between two branches (codes_between, count_word)
  // ---------------------------------------------------------------------

  function MinChar(a: char, b: char): char { if a <= b then a else b }
  function MaxChar(a: char, b: char): char { if a <= b then b else a }

  /**
   * codes_between: {c1} for identical codes; otherwise the keys sharing the
   * common prefix whose character at index get_layer(prefix) lies between
   * those of c1 and c2.
   */
  function Between(keys: set<string>, c1: string, c2: string): set<string>
    requires AllCodes(keys) && IsCode(c1) && IsCode(c2)
  {
    var common := CommonStr(c1, c2);
    if |common| == 8 then {c1}
    else set c | c in keys && InRange(common, c1, c2, c)
  }

  /**
   * `c` starts with `common`, and its character at index get_layer(common)
   * lies between those of c1 and c2.
   */
  predicate InRange(common: string, c1: string, c2: string, c: string)
    requires |c1| == 8 && |c2| == 8 && |c| == 8
  {
    var layer := GetLayer(common);
    IsPrefix(common, c) && MinChar(c1[layer], c2[layer]) <= c[layer] <= MaxChar(c1[layer], c2[layer])
  }

  /** Identical codes give exactly themselves; distinct codes never reach length 8. */
  lemma BetweenSameCode(keys: set<string>, c1: string, c2: string)
    requires AllCodes(keys) && IsCode(c1) && IsCode(c2)
    ensures |CommonStr(c1, c2)| == 8 <==> c1 == c2
    ensures c1 == c2 ==> Between(keys, c1, c2) == {c1}
  {
    assert c1[..8] == c1 && c2[..8] == c2;
    if c1 == c2 {
      LayerOfMatchingCodes(c1, c2);
    }
  }

  /** Both ends are in the range when they are keys, and the range holds only keys. */
  lemma BetweenContainsEnds(keys: set<string>, c1: string, c2: string)
    requires AllCodes(keys) && IsCode(c1) && IsCode(c2) && c1 in keys && c2 in keys
    ensures c1 in Between(keys, c1, c2) && c2 in Between(keys, c1, c2)
    ensures Between(keys, c1, c2) <= keys
  {
    BetweenSameCode(keys, c1, c2);
  }

  /**
   * For shared prefixes of length 4, 5 or 7 the compared character lies
   * inside the prefix, so every key under the prefix is in the range.
   */
  lemma BetweenWholeSubtree(keys: set<string>, c1: string, c2: string)
    requires AllCodes(keys) && IsCode(c1) && IsCode(c2)
    requires var n := |CommonStr(c1, c2)|; n == 4 || n == 5 || n == 7
    ensures Between(keys, c1, c2) == set c | c in keys && IsPrefix(CommonStr(c1, c2), c)
  {
    var common := CommonStr(c1, c2);
    var layer := GetLayer(common);
    assert layer < |common|;
    assert c1[layer] == common[layer] && c2[layer] == common[layer];
    forall c | c in keys && IsPrefix(common, c) ensures c[layer] == common[layer] {
      assert c[..|common|][layer] == c[layer];
    }
  }

  /**
   * After a two-character prefix the compared character is the first digit
   * of the third level's two-digit group, so a code outside the numeric range
   * of the two groups is returned: 19 is not between 01 and 15, but its
   * first digit is.
   */
  lemma TwoCharPrefixFirstDigitOnly()
    ensures var keys := {"Aa01A01=", "Aa15A01=", "Aa19A01="};
      AllCodes(keys) && IsCode("Aa01A01=") && IsCode("Aa15A01=")
      && CommonStr("Aa01A01=", "Aa15A01=") == "Aa"
      && "Aa19A01=" in Between(keys, "Aa01A01=", "Aa15A01=")
  {
    var c1, c2 := "Aa01A01=", "Aa15A01=";
    assert c1[..2] == c2[..2] && c1[2] != c2[2];
    CommonLenUnique(c1, c2, 2);
    assert IsPrefix("Aa", "Aa19A01=");
  }

  lemma BetweenSymmetric(keys: set<string>, c1: string, c2: string)
    requires AllCodes(keys) && IsCode(c1) && IsCode(c2)
    ensures Between(keys, c1, c2) == Between(keys, c2, c1)
  {
    CommonStrSymmetric(c1, c2);
    BetweenSameCode(keys, c1, c2);
  }

  predicate CountableCodes(ix: Index, c1: string, c2: string) {
    && WellFormed(ix) && IsCode(c1) && IsCode(c2)
    && (|CommonStr(c1, c2)| == 8 ==> c1 in ix.codeWord)
  }

  lemma BetweenKeys(ix: Index, c1: string, c2: string)
    requires CountableCodes(ix, c1, c2)
    ensures Between(ix.codeWord.Keys, c1, c2) <= ix.codeWord.Keys
  {
  }

  /** count_word: the number of words held by the codes between c1 and c2. */
  ghost function WordCount(ix: Index, c1: string, c2: string): nat
    requires CountableCodes(ix, c1, c2)
  {
    BetweenKeys(ix, c1, c2);
    SumLens(ix.codeWord, Between(ix.codeWord.Keys, c1, c2))
  }

  /** count_word never exceeds N. */
  lemma WordCountAtMostTotal(ix: Index, c1: string, c2: string)
    requires Consistent(ix) && CountableCodes(ix, c1, c2)
    ensures WordCount(ix, c1, c2) <= ix.total
  {
    BetweenKeys(ix, c1, c2);
    SumLensSubset(ix.codeWord, Between(ix.codeWord.Keys, c1, c2), ix.codeWord.Keys);
  }

  /** count_word includes the words of both codes when they are keys. */
  lemma WordCountCoversEnds(ix: Index, c1: string, c2: string)
    requires WellFormed(ix) && IsCode(c1) && IsCode(c2) && c1 in ix.codeWord && c2 in ix.codeWord
    ensures CountableCodes(ix, c1, c2)
    ensures WordCount(ix, c1, c2) >= |ix.codeWord[c1]| && WordCount(ix, c1, c2) >= |ix.codeWord[c2]|
  {
    var keys := ix.codeWord.Keys;
    var b := Between(keys, c1, c2);
    BetweenContainsEnds(keys, c1, c2);
    SumLensRemove(ix.codeWord, b, c1);
    SumLensRemove(ix.codeWord, b, c2);
  }

  lemma WordCountSymmetric(ix: Index, c1: string, c2: string)
    requires WellFormed(ix) && IsCode(c1) && IsCode(c2) && c1 in ix.codeWord && c2 in ix.codeWord
    ensures CountableCodes(ix, c1, c2) && CountableCodes(ix, c2, c1)
    ensures WordCount(ix, c1, c2) == WordCount(ix, c2, c1)
  {
    BetweenSymmetric(ix.codeWord.Keys, c1, c2);
  }
}
