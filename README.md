# Cilin word similarity, modelled in Dafny

This project models `CilinSimilarity` (`p_exe/p_exe/Release/resources/lib/cilin.py`).
The class scores how similar two Chinese words are, using the HIT Tongyici Cilin
(Extended) taxonomy. Every taxonomy entry carries an 8-character hierarchical code
such as `Aa01A01=`. The layout is five levels of widths 1, 1, 2, 1 and 2, followed by
a terminal marker: `=` for synonyms, `#` for related words, `@` for a closed entry.

The model has four modules, one per layer of the class:

- `CilinCode` (`cilin_code.dfy`) covers the code geometry. It defines the shared prefix
  (`get_common_str`, whose lengths 3 and 6 are cut back to a level boundary), the
  layer of a prefix (`get_layer`), the six parts of a code (`code_layer`) and the
  branch distance at the first differing level (`get_k`).
- `CilinIndex` (`cilin_index.dfy`) covers the index that `read_cilin` builds, as a
  value. It has four parts: `code_word`, `word_code` (a list per word, one code per
  occurrence), `vocab` and `N`. The module also holds the key-set queries: sibling
  count (`get_n`), `codes_between` and `count_word`.
- `CilinScore` (`cilin_score.dfy`) holds the scores as functions of an index. These
  are the per-pair scores `sim_by_code` and `sim2016_by_code`, the table `dist2016`,
  the running maxima over two words' code lists (`similarity`, `sim2016`, `dist`,
  `dense`), `g1`, `g2`, `sim2013` and the sentence-level `distance`. `math.cos`,
  `math.sqrt`, `math.log`, `math.pi` and `pow(math.e, x)` are uninterpreted
  fields of a `MathLib` value. The only fact assumed about them is that `e^x > 0`.
- `Cilin` (`cilin.dfy`) is the class `CilinSimilarity` itself. Its constructor and
  `ReadCilin` fill the fields in loops. Its query methods keep the source's loops and
  running-max variables. `GetN`, `CodesBetween`, `CountWord` and `SumWordLists` are
  proved equal to `SiblingCount`, `Between`, `WordCount` and `SumLens` of
  `CilinIndex`. The scoring methods are proved equal to the matching function of
  `CilinScore`.

The scores are real numbers. Python exceptions that can actually be reached are
modelled as results of the `Outcome` type: `ZeroDivisionError` and `ValueError` in
`dense` and `distance`.

## Model

| member | source | states |
|---|---|---|
| `CilinCode.CommonStr` | p_exe/p_exe/Release/resources/lib/cilin.py:134-146 | the shared prefix is a prefix of both codes and never has length 3 or 6 |
| `CilinCode.CommonStrLongest` | p_exe/p_exe/Release/resources/lib/cilin.py:139-146 | no common prefix of an admissible length (not 3, not 6) is longer |
| `CilinCode.CommonStrSymmetric` | p_exe/p_exe/Release/resources/lib/cilin.py:134-146 | get_common_str(c1, c2) == get_common_str(c2, c1) |
| `CilinCode.GetCommonStr` | p_exe/p_exe/Release/resources/lib/cilin.py:134-146 | the character-by-character loop, with its truncation, computes that prefix |
| `CilinCode.GetLayer` | p_exe/p_exe/Release/resources/lib/cilin.py:148-167 | lengths 1, 2, 4, 5, 7 map to the layer whose level boundary they are (1..5); every other length, 0 and 8 included, maps to 0 |
| `CilinCode.CodeLayer` | p_exe/p_exe/Release/resources/lib/cilin.py:169-177 | six parts, part i spanning the i-th level's characters; a well-formed code decodes to letters and two-digit groups |
| `CilinCode.CodeLayerRoundTrip` | p_exe/p_exe/Release/resources/lib/cilin.py:169-177 | the six parts concatenate back to the code |
| `CilinCode.LayerIsFirstDifference` | p_exe/p_exe/Release/resources/lib/cilin.py:148-177 | for distinct codes, the layer of the shared prefix is the first level on which the decoded codes differ |
| `CilinCode.GetKZeroIff` | p_exe/p_exe/Release/resources/lib/cilin.py:179-192 | get_k is 0 exactly when the first five levels agree (digit groups compared as integers) |
| `CilinCode.GetKSymmetric` | p_exe/p_exe/Release/resources/lib/cilin.py:179-192 | get_k is symmetric |
| `CilinIndex.LoadTotal` | p_exe/p_exe/Release/resources/lib/cilin.py:46-52 | after loading, N is the number of words over all lines |
| `CilinIndex.LoadVocab` | p_exe/p_exe/Release/resources/lib/cilin.py:46-50 | vocab is exactly the union of the lines' words |
| `CilinIndex.LoadWordCode` | p_exe/p_exe/Release/resources/lib/cilin.py:53-57 | word_code has a key for exactly the words of vocab; word_code[w] lists the code of each line once per occurrence of w, in line order |
| `CilinIndex.LoadWordCodeSound` | p_exe/p_exe/Release/resources/lib/cilin.py:46-57 | every vocab word has a non-empty list, and every listed code is the first token of a line containing the word |
| `CilinIndex.LoadCodeWordKeys` | p_exe/p_exe/Release/resources/lib/cilin.py:48-51 | the keys of code_word are exactly the lines' first tokens |
| `CilinIndex.LoadCodeWordLast` | p_exe/p_exe/Release/resources/lib/cilin.py:51 | code_word[c] holds the words of the last line with code c |
| `CilinIndex.RepeatedCodeOverwrites` | p_exe/p_exe/Release/resources/lib/cilin.py:51-52 | illustration on one fixed two-line input (supporting `LoadCodeWordLast` and `LoadTotal`): a repeated code keeps one word list while N counts both lines |
| `CilinIndex.RepeatedCodeBreaksInverse` | p_exe/p_exe/Release/resources/lib/cilin.py:51-57 | on the lines [X, "x"], [X, "y"], word_code["x"] lists X but code_word[X] does not hold "x": the two maps are not mutual inverses once a code repeats |
| `CilinIndex.LoadDistinctCodesTotal` | p_exe/p_exe/Release/resources/lib/cilin.py:51-52 | with no repeated code, N equals the number of words code_word holds |
| `CilinIndex.AddLineConsistent` | p_exe/p_exe/Release/resources/lib/cilin.py:47-57 | one line keeps the index consistent: word_code covers vocab with non-empty lists of keys, and code_word holds at most N words |
| `CilinIndex.LoadFromConsistent` | p_exe/p_exe/Release/resources/lib/cilin.py:39-57 | read_cilin keeps any consistent index consistent, whatever lines it reads |
| `CilinIndex.LoadConsistent` | p_exe/p_exe/Release/resources/lib/cilin.py:39-57 | any loaded index is consistent |
| `CilinIndex.LoadWellFormed` | p_exe/p_exe/Release/resources/lib/cilin.py:48-51 | every key is a well-formed code exactly when every line starts with one |
| `CilinIndex.SiblingCountBounds` | p_exe/p_exe/Release/resources/lib/cilin.py:194-209 | get_n is 0 for the empty prefix, at most the number of keys, and at least 1 when some key starts with a non-empty prefix |
| `CilinIndex.SiblingCountOfKeys` | p_exe/p_exe/Release/resources/lib/cilin.py:128-132 | for two keys with a non-empty shared prefix, n >= 1, so sim_formula's division by n and sim2016's division by 2n are safe |
| `CilinIndex.BetweenSameCode` | p_exe/p_exe/Release/resources/lib/cilin.py:315-318 | the shared prefix has length 8 exactly for identical codes, and codes_between then returns {c1} |
| `CilinIndex.BetweenContainsEnds` | p_exe/p_exe/Release/resources/lib/cilin.py:320-326 | when c1 and c2 are keys, both are returned, and only keys are returned |
| `CilinIndex.BetweenWholeSubtree` | p_exe/p_exe/Release/resources/lib/cilin.py:320-326 | for prefix lengths 4, 5 and 7 the compared raw character lies inside the prefix, so every key under the prefix is returned |
| `CilinIndex.TwoCharPrefixFirstDigitOnly` | p_exe/p_exe/Release/resources/lib/cilin.py:320-325 | after the prefix "Aa", only the first digit of the group is compared: Aa19A01= is returned between Aa01A01= and Aa15A01= |
| `CilinIndex.BetweenSymmetric` | p_exe/p_exe/Release/resources/lib/cilin.py:307-326 | codes_between(c1, c2) == codes_between(c2, c1) |
| `CilinIndex.WordCountAtMostTotal` | p_exe/p_exe/Release/resources/lib/cilin.py:295-305 | count_word <= N on a loaded index |
| `CilinIndex.WordCountCoversEnds` | p_exe/p_exe/Release/resources/lib/cilin.py:295-305 | count_word counts at least the words of c1 and of c2 |
| `CilinIndex.WordCountSymmetric` | p_exe/p_exe/Release/resources/lib/cilin.py:295-326 | count_word is symmetric |
| `CilinScore.RunningMax` | p_exe/p_exe/Release/resources/lib/cilin.py:83-84 | the update `if cur > best: best = cur` keeps the larger value, the first one on a tie |
| `CilinScore.ScoreShortCircuits` | p_exe/p_exe/Release/resources/lib/cilin.py:100-110 | both code scores give 0.1 for a '@' code or an empty prefix; from length 7 on they give 1 for two '=', 0.5 for two '#', else 0 |
| `CilinScore.FormulaInputs` | p_exe/p_exe/Release/resources/lib/cilin.py:112-113 | in the formula branch the prefix is the levels before the first difference, n >= 2 and k >= 1 |
| `CilinScore.SimByCodeByLevel` | p_exe/p_exe/Release/resources/lib/cilin.py:87-132 | sim_by_code by level of first difference: 0.1 at level 0, coefficient 0.65/0.8/0.9/0.96 with cos(n*pi/180)*(n-k+1)/n at levels 1-4, 0 when only the marker differs |
| `CilinScore.Dist2016` | p_exe/p_exe/Release/resources/lib/cilin.py:393-411 | 18 for layer 0, and 13, 8, 3, 1, 0 for layers 1 to 5 (twice the leading weight sums) |
| `CilinScore.WeightSums` | p_exe/p_exe/Release/resources/lib/cilin.py:397-401 | illustration on the fixed weight list (supporting `Dist2016`): the leading sums of the weights [0.5, 1, 2.5, 2.5] are 6.5, 4, 1.5, 0.5 and 0 |
| `CilinScore.SimFormulaNegative` | p_exe/p_exe/Release/resources/lib/cilin.py:131-132 | with a positive coefficient and cosine, sim_formula is negative whenever k > n + 1 |
| `CilinScore.ExamplePrefixes` | p_exe/p_exe/Release/resources/lib/cilin.py:134-146 | in the three-key example, Aa01A01= and Az01A01= share "A" while Aa01A01= and Ba01A01= share nothing |
| `CilinScore.ExampleSiblings` | p_exe/p_exe/Release/resources/lib/cilin.py:194-209 | in the index loaded from the three example lines, get_n("A") is 2 |
| `CilinScore.LegacyScoreNotMonotone` | p_exe/p_exe/Release/resources/lib/cilin.py:101-132 | a longer shared prefix can score lower: in the index read_cilin builds from the lines `Aa01A01= x`, `Az01A01= y`, `Ba01A01= z`, with cos(2*pi/180) > 0, the pair sharing "A" (n = 2, k = 25) scores below 0 while the pair sharing nothing scores 0.1 |
| `CilinScore.Sim2016ByLevel` | p_exe/p_exe/Release/resources/lib/cilin.py:353-390 | sim2016_by_code by level of first difference: factor 0.4/0.65/0.9/1.0 times sqrt(e^(-k/(2n))) at levels 1-4, with n >= 2 |
| `CilinScore.SameCodeScores` | p_exe/p_exe/Release/resources/lib/cilin.py:100-110 | a code against itself scores 1 for '=', 0.5 for '#', 0.1 for '@', and the same under both methods |
| `CilinScore.SimByCodeSymmetric` | p_exe/p_exe/Release/resources/lib/cilin.py:87-125 | sim_by_code is symmetric |
| `CilinScore.Sim2016ByCodeSymmetric` | p_exe/p_exe/Release/resources/lib/cilin.py:353-390 | sim2016_by_code is symmetric |
| `CilinScore.LayerDistance` | p_exe/p_exe/Release/resources/lib/cilin.py:272-274 | 2*(5-layer) is even, at most 10, and 10 exactly at layer 0 |
| `CilinScore.IdenticalCodesDistance` | p_exe/p_exe/Release/resources/lib/cilin.py:166-167 | identical codes are at distance 10, since get_layer gives 0 for an 8-character prefix |
| `CilinScore.MaxFromBounds` | p_exe/p_exe/Release/resources/lib/cilin.py:80-84 | the inner running maximum is at least its start and every score, and equals the start or one of them |
| `CilinScore.CrossBounds` | p_exe/p_exe/Release/resources/lib/cilin.py:76-85 | the nested running maximum is at least the start and every pair score, and equals the start or one of them |
| `CilinScore.CrossSymmetric` | p_exe/p_exe/Release/resources/lib/cilin.py:76-85 | for a symmetric pair score the nested maximum does not depend on which list is outside |
| `CilinScore.SimilarityBounds` | p_exe/p_exe/Release/resources/lib/cilin.py:60-85 | similarity is 0 for an unknown word; otherwise it is >= 0 and >= every sim_by_code of the code pairs, equals 0 or one of them, and is symmetric |
| `CilinScore.Sim2016Bounds` | p_exe/p_exe/Release/resources/lib/cilin.py:331-351 | sim2016 is 0 for an unknown word; otherwise the same maximum over sim2016_by_code, symmetric |
| `CilinScore.SelfSimilarity` | p_exe/p_exe/Release/resources/lib/cilin.py:60-125 | a word whose only code ends in '=' has similarity and sim2016 1 with itself |
| `CilinScore.DistRange` | p_exe/p_exe/Release/resources/lib/cilin.py:263-277 | for any code lists, dist (kept in dmin) is an even integer in [0, 10], at least every pair's 2*(5-layer), attained by some pair when both lists are non-empty, and 0 when either is empty |
| `CilinScore.DistSymmetric` | p_exe/p_exe/Release/resources/lib/cilin.py:263-277 | dist is symmetric |
| `CilinScore.DenseOfCountable` | p_exe/p_exe/Release/resources/lib/cilin.py:279-293 | when every pair has words between it, dense is the nested maximum from 0 of -log(count_word/N) |
| `CilinScore.DenseOfEmptyIndex` | p_exe/p_exe/Release/resources/lib/cilin.py:290 | with N = 0 and some pair, dense raises ZeroDivisionError |
| `CilinScore.DenseOfUncountable` | p_exe/p_exe/Release/resources/lib/cilin.py:290 | with N > 0 and a pair whose count_word is 0, dense raises ValueError (log of 0) |
| `CilinScore.DenseBounds` | p_exe/p_exe/Release/resources/lib/cilin.py:285-293 | a successful dense is >= 0 and >= every pair's -log(count_word/N) |
| `CilinScore.DenseSymmetric` | p_exe/p_exe/Release/resources/lib/cilin.py:279-305 | dense is symmetric |
| `CilinScore.PathSimilarity` | p_exe/p_exe/Release/resources/lib/cilin.py:241-247 | g1 = e^(-0.47*dist) is positive |
| `CilinScore.DensitySimilarity` | p_exe/p_exe/Release/resources/lib/cilin.py:249-255 | g2, tanh written with e^x, lies strictly between -1 and 1 and is 0 at 0 |
| `CilinScore.DensityOutcome` | p_exe/p_exe/Release/resources/lib/cilin.py:249-255 | g2 of dense succeeds exactly when dense does, and then lies in (-1, 1) |
| `CilinScore.DensitySimilarityOdd` | p_exe/p_exe/Release/resources/lib/cilin.py:249-255 | g2 is odd |
| `CilinScore.Sim2013Symmetric` | p_exe/p_exe/Release/resources/lib/cilin.py:224-239 | sim2013 is symmetric, exceptions included |
| `CilinScore.Sim2013Range` | p_exe/p_exe/Release/resources/lib/cilin.py:224-239 | on a loaded index sim2013 never divides by zero, and a result exceeds -0.7 |
| `CilinScore.SeqMaxBounds` | p_exe/p_exe/Release/resources/lib/cilin.py:422 | Python's max of a non-empty sequence bounds every element and is one of them |
| `CilinScore.BestMatchBounds` | p_exe/p_exe/Release/resources/lib/cilin.py:421-426 | a word's best match is its largest similarity over the other list, and is attained |
| `CilinScore.DistanceProperties` | p_exe/p_exe/Release/resources/lib/cilin.py:415-429 | distance is symmetric, succeeds exactly for two non-empty lists, and then lies between 0 and any bound on the word similarities |
| `CilinScore.DistanceOfOneWord` | p_exe/p_exe/Release/resources/lib/cilin.py:419-427 | aligning one word against a non-empty list gives that word's best similarity over the list |
| `Cilin.CilinSimilarity.constructor` | p_exe/p_exe/Release/resources/lib/cilin.py:18-37 | the fields hold the index loaded from the lines; it is consistent, and well-formed exactly when every line starts with a code |
| `Cilin.CilinSimilarity.ReadCilin` | p_exe/p_exe/Release/resources/lib/cilin.py:39-57 | the loop over lines leaves the fields equal to the fold of one-line updates over the old fields, and keeps a valid object valid |
| `Cilin.CilinSimilarity.AppendCode` | p_exe/p_exe/Release/resources/lib/cilin.py:53-57 | the inner loop appends the code to each word's list, creating missing lists |
| `Cilin.CilinSimilarity.GetN` | p_exe/p_exe/Release/resources/lib/cilin.py:194-209 | the set-building scan over the keys returns the sibling count |
| `Cilin.CilinSimilarity.CodesBetween` | p_exe/p_exe/Release/resources/lib/cilin.py:307-326 | the scan over the keys returns the set `Between` defines: the prefix's subtree, filtered on the raw character at index get_layer |
| `Cilin.CilinSimilarity.SumWordLists` | p_exe/p_exe/Release/resources/lib/cilin.py:302-305 | the accumulation of `cnt` is the total length of the codes' word lists |
| `Cilin.CilinSimilarity.CountWord` | p_exe/p_exe/Release/resources/lib/cilin.py:295-305 | count_word is the word count between the two codes |
| `Cilin.CilinSimilarity.SimByCode` | p_exe/p_exe/Release/resources/lib/cilin.py:87-125 | computes sim_by_code of the current index |
| `Cilin.CilinSimilarity.Sim2016ByCode` | p_exe/p_exe/Release/resources/lib/cilin.py:353-390 | computes sim2016_by_code of the current index |
| `Cilin.CilinSimilarity.BestInRow` | p_exe/p_exe/Release/resources/lib/cilin.py:80-84 | the inner loop's running maximum |
| `Cilin.CilinSimilarity.BestCodePair` | p_exe/p_exe/Release/resources/lib/cilin.py:76-85 | the nested loops' running maximum from 0 |
| `Cilin.CilinSimilarity.Similarity` | p_exe/p_exe/Release/resources/lib/cilin.py:60-85 | computes similarity |
| `Cilin.CilinSimilarity.Sim2016` | p_exe/p_exe/Release/resources/lib/cilin.py:331-351 | computes sim2016 |
| `Cilin.CilinSimilarity.FarthestInRow` | p_exe/p_exe/Release/resources/lib/cilin.py:271-276 | dist's inner loop's running maximum |
| `Cilin.CilinSimilarity.Dist` | p_exe/p_exe/Release/resources/lib/cilin.py:263-277 | computes dist for any code lists, an even integer in [0, 10] |
| `Cilin.CilinSimilarity.DensePair` | p_exe/p_exe/Release/resources/lib/cilin.py:290 | one pair's -log(count_word/N); ZeroDivisionError exactly when N = 0, ValueError exactly when count_word = 0 |
| `Cilin.CilinSimilarity.DenseRow` | p_exe/p_exe/Release/resources/lib/cilin.py:287-292 | dense's inner loop: the running maximum, or the first exception |
| `Cilin.CilinSimilarity.Dense` | p_exe/p_exe/Release/resources/lib/cilin.py:279-293 | computes dense, or the exception it raises |
| `Cilin.CilinSimilarity.G1` | p_exe/p_exe/Release/resources/lib/cilin.py:241-247 | computes g1 for any code lists, which is positive |
| `Cilin.CilinSimilarity.G2` | p_exe/p_exe/Release/resources/lib/cilin.py:249-255 | computes g2, or dense's exception |
| `Cilin.CilinSimilarity.Sim2013` | p_exe/p_exe/Release/resources/lib/cilin.py:224-239 | computes sim2013: 0 for an unknown word, else 0.3*g1 + 0.7*g2 |
| `Cilin.CilinSimilarity.BestMatch` | p_exe/p_exe/Release/resources/lib/cilin.py:422 | computes the generator max of similarities |
| `Cilin.CilinSimilarity.ScoreWords` | p_exe/p_exe/Release/resources/lib/cilin.py:421-426 | one scoring loop of distance: raises ValueError exactly when words is non-empty and others empty; otherwise each word's best match |
| `Cilin.CilinSimilarity.Distance` | p_exe/p_exe/Release/resources/lib/cilin.py:415-429 | computes distance on filtered word lists, with its ValueError and ZeroDivisionError cases |

## Behaviour of the code worth knowing

The model follows `cilin.py` in each of these cases:

- `read_cilin` checks nothing about a line. It accepts a code token of any length, and a blank line raises `IndexError` at `res[0]`.
- `word_code[w]` is a list with one code per occurrence, not a set.
- Neither score guards against `n = 0`. The model proves that `n >= 1` for codes that are keys (`SiblingCountOfKeys`).
- In `dense`, `N = 0` raises `ZeroDivisionError` at `count / N`. Otherwise a zero word count reaches `math.log` and raises `ValueError`.
- A longer shared prefix does not always give a higher `sim_by_code`. The factor `(n-k+1)/n` turns negative when the branch distance k exceeds n + 1, so a pair sharing a first-level letter can score below the 0.1 of a pair sharing nothing (`LegacyScoreNotMonotone`).
- `code_word` and `word_code` are not mutual inverses. A repeated code overwrites `code_word[code]` but stays in the earlier words' `word_code` lists (`RepeatedCodeBreaksInverse`).
- `codes_between` compares one raw character, `c[layer]`. After a two-character prefix that character is the first digit of the third level's two-digit group. So for `Aa01A01=` and `Aa15A01=` it also returns the key `Aa19A01=`, although 19 lies outside 01..15 (`TwoCharPrefixFirstDigitOnly`).
- The `except` branch of `dist2016` can never be reached for layers 0 to 5, so `dist2016` always returns a number.
- `distance` with an empty list raises Python's own `ValueError`, from `max()` of nothing. Two empty lists raise `ZeroDivisionError`.

## Left out

- Reading `data/Synonym/cilin.txt` and its GBK decoding: the constructor takes the lines, already split on whitespace.
- `Cilin.CilinSimilarity.constructor`: requires every line to have at least its code token. A blank line makes the source raise `IndexError`, which is not modelled.
- jieba segmentation and POS filtering in `distance`: the method takes the already-filtered word lists. `lib.preprocess` and the `__main__` demo are not part of this model.
- Numeric values of `cos`, `sqrt`, `log`, `e^x` and `pi`: these are uninterpreted, with `e^x > 0` the only assumed fact. Floating-point rounding is not modelled, and the scores are exact reals.
- Bounds such as "score in [0, 1]": the code does not guarantee them, since `(n-k+1)/n` can be negative.
- The `print` in `dist2016`'s `except` branch: it is console output only and cannot be reached.
- `get_code` and `get_vocab`: plain field accessors, with no logic to model.
- Malformed keys: the scoring queries require codes of exactly 8 characters with ASCII digits at the two numeric groups. The source is more permissive. `code_layer` reads only up to index 7, so longer keys are accepted (`"Aa01A01=x"` against itself scores 0 through the length >= 7 branch, as it ends in neither `=` nor `#`). Shorter keys raise `IndexError`. A non-digit group raises `ValueError` only when `get_k` reaches its `int()`. None of these cases is modelled.
- `CilinScore.SimByCodeByLevel`, `Cilin.CilinSimilarity.SimByCode`, `CilinScore.Sim2016ByCode`, `CilinScore.Sim2016ByLevel` and `Cilin.CilinSimilarity.Sim2016ByCode`: stated only for codes that are keys of `code_word`, which is how `similarity` and `sim2016` call them. The source can be called directly with arbitrary codes, and may then divide by `n = 0`.
- `Cilin.CilinSimilarity.CountWord`: requires identical codes to be keys. For identical codes outside the key set the source raises `KeyError`, which is not modelled.
- Python's dictionary iteration order over the keys: `get_n` and `codes_between` build sets, so the order cannot affect their results, and the model scans the keys in any order.
- Python's int results (`return 0`, `cur_sim = 1`) are modelled as the equal reals.
