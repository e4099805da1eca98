/**
 * Geometry of HIT Tongyici Cilin (Extended) codes.
 *
 * A code such as `Aa01A01=` has the layout [L1][L2][D1D2][L3][D3D4][T]:
 * five hierarchy levels of widths 1, 1, 2, 1, 2 followed by a terminal
 * marker (`=`, `#` or `@`).  Everything here is a pure function of strings,
 * except GetCommonStr, which builds the shared prefix character by character.
 */
module CilinCode {

  /** `p` is a prefix of `s` (the source's `s.startswith(p)`). */
  predicate IsPrefix(p: string, s: string) {
    |p| <= |s| && s[..|p|] == p
  }

  /** `s` is non-empty and its last character is `ch` (`s.endswith(ch)`). */
  predicate EndsWith(s: string, ch: char) {
    |s| > 0 && s[|s| - 1] == ch
  }

  predicate IsDigit(ch: char) {
    '0' <= ch <= '9'
  }

  /** A well-formed taxonomy code: eight characters, digits at 2-3 and 5-6. */
  predicate IsCode(c: string) {
    |c| == 8 && IsDigit(c[2]) && IsDigit(c[3]) && IsDigit(c[5]) && IsDigit(c[6])
  }

  // ---------------------------------------------------------------------
  // Common prefix
  // ---------------------------------------------------------------------

  /** Length of the longest common prefix of `c1` and `c2`. */
  function CommonLen(c1: string, c2: string): (n: nat)
    ensures n <= |c1| && n <= |c2|
    ensures c1[..n] == c2[..n]
    ensures n < |c1| && n < |c2| ==> c1[n] != c2[n]
    decreases |c1|
  {
    if |c1| == 0 || |c2| == 0 || c1[0] != c2[0] then 0
    else
      var m := CommonLen(c1[1..], c2[1..]);
      assert c1[..m + 1] == [c1[0]] + c1[1..][..m];
      assert c2[..m + 1] == [c2[0]] + c2[1..][..m];
      m + 1
  }

  /** Any length with the three properties of CommonLen is CommonLen. */
  lemma CommonLenUnique(c1: string, c2: string, n: nat)
    requires n <= |c1| && n <= |c2| && c1[..n] == c2[..n]
    requires n < |c1| && n < |c2| ==> c1[n] != c2[n]
    ensures n == CommonLen(c1, c2)
  {
    var m := CommonLen(c1, c2);
    PrefixEqAt(c1, c2, n);
    PrefixEqAt(c1, c2, m);
  }

  /**
   * The common prefix used for scoring (get_common_str): the longest common
   * prefix, with its last character dropped when it would end inside a
   * two-digit group (raw length 3 or 6).  Equivalently: the longest common
   * prefix whose length is neither 3 nor 6.
   */
  function CommonStr(c1: string, c2: string): (r: string)
    ensures IsPrefix(r, c1) && IsPrefix(r, c2)
    ensures |r| != 3 && |r| != 6
  {
    var n := CommonLen(c1, c2);
    var r := if n == 3 || n == 6 then c1[..n - 1] else c1[..n];
    assert IsPrefix(r, c2) by {
      assert c2[..|r|] == c2[..n][..|r|];
    }
    r
  }

  /** No common prefix of admissible length (not 3, not 6) is longer than get_common_str's. */
  lemma CommonStrLongest(c1: string, c2: string, p: string)
    requires IsPrefix(p, c1) && IsPrefix(p, c2) && |p| != 3 && |p| != 6
    ensures |p| <= |CommonStr(c1, c2)|
  {
    PrefixEqAt(c1, p, |p|);
    PrefixEqAt(c2, p, |p|);
  }

  lemma {:induction false} CommonStrSymmetric(c1: string, c2: string)
    ensures CommonStr(c1, c2) == CommonStr(c2, c1)
  {
    var r, s := CommonStr(c1, c2), CommonStr(c2, c1);
    CommonStrLongest(c1, c2, s);
    CommonStrLongest(c2, c1, r);
    assert r == c1[..|r|] && s == c1[..|s|];
  }

  /**
   * get_common_str: walks both codes in step (Python's zip stops at the
   * shorter one), appending matching characters, then truncates lengths 3
   * and 6 to the enclosing level boundary.
   */
  method GetCommonStr(c1: string, c2: string) returns (res: string)
    ensures res == CommonStr(c1, c2)
  {
    res := "";
    var i := 0;
    while i < |c1| && i < |c2|
      invariant i <= |c1| && i <= |c2|
      invariant res == c1[..i] && c1[..i] == c2[..i]
    {
      if c1[i] == c2[i] {
        res := res + [c1[i]];
        i := i + 1;
      } else {
        break;
      }
    }
    CommonLenUnique(c1, c2, i);
    if |res| == 3 || |res| == 6 {
      res := res[..|res| - 1];
    }
  }

  // ---------------------------------------------------------------------
  // Levels and layers
  // ---------------------------------------------------------------------

  /** Position at which the first `i` levels of a code end (widths 1,1,2,1,2,1). */
  function LevelEnd(i: nat): nat
    requires i <= 6
  {
    [0, 1, 2, 4, 5, 7, 8][i]
  }

  /**
   * get_layer: the number of whole levels a shared prefix covers.  Layer 0
   * stands for every length that is not a level boundary 1..5, which
   * includes the empty prefix and the full 8-character one.
   */
  function GetLayer(common: string): (layer: nat)
    ensures layer <= 5
    ensures 0 < layer ==> LevelEnd(layer) == |common|
    ensures layer == 0 ==> forall i :: 1 <= i <= 5 ==> LevelEnd(i) != |common|
  {
    var length := |common|;
    if length == 1 then 1
    else if length == 2 then 2
    else if length == 4 then 3
    else if length == 5 then 4
    else if length == 7 then 5
    else 0
  }

  /** code_layer: the six parts of a code, level `i` spans LevelEnd(i)..LevelEnd(i+1). */
  function CodeLayer(c: string): (levels: seq<string>)
    requires |c| >= 8
    ensures |levels| == 6
    ensures forall i :: 0 <= i < 6 ==> levels[i] == c[LevelEnd(i)..LevelEnd(i + 1)]
    ensures IsCode(c) ==> IsDecoded(levels)
  {
    [[c[0]], [c[1]], c[2..4], [c[4]], c[5..7], [c[7]]]
  }

  /** Concatenation of a sequence of strings. */
  function Flatten(parts: seq<string>): string
  {
    if parts == [] then [] else Flatten(parts[..|parts| - 1]) + parts[|parts| - 1]
  }

  /** The first `i` levels of a code, glued together, are its first LevelEnd(i) characters. */
  lemma {:induction false} LevelsSpanPrefix(c: string, i: nat)
    requires |c| >= 8 && i <= 6
    ensures Flatten(CodeLayer(c)[..i]) == c[..LevelEnd(i)]
  {
    var levels := CodeLayer(c);
    if i > 0 {
      LevelsSpanPrefix(c, i - 1);
      assert levels[..i][..i - 1] == levels[..i - 1];
      assert c[..LevelEnd(i)] == c[..LevelEnd(i - 1)] + c[LevelEnd(i - 1)..LevelEnd(i)];
    }
  }

  /** The six parts of a code concatenate back to the code. */
  lemma CodeLayerRoundTrip(c: string)
    requires |c| == 8
    ensures Flatten(CodeLayer(c)) == c
  {
    LevelsSpanPrefix(c, 6);
    assert CodeLayer(c)[..6] == CodeLayer(c);
  }

  /** `L` is the first index at which two level sequences disagree. */
  predicate FirstDifference(p1: seq<string>, p2: seq<string>, L: nat) {
    L < |p1| && L < |p2| && p1[..L] == p2[..L] && p1[L] != p2[L]
  }

  lemma FirstDifferenceUnique(p1: seq<string>, p2: seq<string>, L: nat, M: nat)
    requires FirstDifference(p1, p2, L) && FirstDifference(p1, p2, M)
    ensures L == M
  {
    PrefixEqAt(p1, p2, L);
    PrefixEqAt(p1, p2, M);
  }

  /** Codes differing in their first eight characters share fewer than eight, and the layer brackets that length. */
  lemma CommonLenBracket(c1: string, c2: string)
    requires |c1| >= 8 && |c2| >= 8 && c1[..8] != c2[..8]
    ensures CommonLen(c1, c2) < 8
    ensures var L := GetLayer(CommonStr(c1, c2));
      L <= 5 && LevelEnd(L) <= CommonLen(c1, c2) < LevelEnd(L + 1)
  {
    ShorterPrefixEq(c1, c2, CommonLen(c1, c2), 8);
  }

  /** Codes sharing their first `n` characters agree on every level that ends by `n`. */
  lemma SharedLevels(c1: string, c2: string, n: nat, L: nat)
    requires |c1| >= 8 && |c2| >= 8 && n <= 8 && c1[..n] == c2[..n] && L <= 5 && LevelEnd(L) <= n
    ensures CodeLayer(c1)[..L] == CodeLayer(c2)[..L]
  {
    var p1, p2 := CodeLayer(c1), CodeLayer(c2);
    forall i | 0 <= i < L ensures p1[i] == p2[i] {
      SharedSlice(c1, c2, n, LevelEnd(i), LevelEnd(i + 1));
    }
  }

  /**
   * For two codes that differ in their first eight characters, the layer of
   * their common prefix is the first level on which they disagree.
   */
  lemma LayerIsFirstDifference(c1: string, c2: string)
    requires |c1| >= 8 && |c2| >= 8 && c1[..8] != c2[..8]
    ensures FirstDifference(CodeLayer(c1), CodeLayer(c2), GetLayer(CommonStr(c1, c2)))
  {
    var n := CommonLen(c1, c2);
    CommonLenBracket(c1, c2);
    var p1, p2 := CodeLayer(c1), CodeLayer(c2);
    var L := GetLayer(CommonStr(c1, c2));
    SharedLevels(c1, c2, n, L);
    assert p1[L][n - LevelEnd(L)] == c1[n];
    assert p2[L][n - LevelEnd(L)] == c2[n];
  }

  /** Equal prefixes agree position by position. */
  lemma PrefixEqAt<T>(s: seq<T>, t: seq<T>, m: nat)
    requires m <= |s| && m <= |t| && s[..m] == t[..m]
    ensures forall j :: 0 <= j < m ==> s[j] == t[j]
  {
    forall j | 0 <= j < m ensures s[j] == t[j] {
      assert s[..m][j] == t[..m][j];
    }
  }

  /** A shared prefix of length `n` contains every shorter shared prefix. */
  lemma ShorterPrefixEq(c1: string, c2: string, n: nat, m: nat)
    requires n <= |c1| && n <= |c2| && c1[..n] == c2[..n] && m <= |c1| && m <= |c2|
    ensures m <= n ==> c1[..m] == c2[..m]
  {
    if m <= n {
      assert c1[..m] == c1[..n][..m];
      assert c2[..m] == c2[..n][..m];
    }
  }

  /** Slices inside a shared prefix agree. */
  lemma SharedSlice(c1: string, c2: string, n: nat, a: nat, b: nat)
    requires n <= |c1| && n <= |c2| && c1[..n] == c2[..n] && a <= b <= n
    ensures c1[a..b] == c2[a..b]
  {
    PrefixEqAt(c1, c2, n);
    assert forall k :: 0 <= k < b - a ==> c1[a..b][k] == c1[a + k] && c2[a..b][k] == c2[a + k];
  }

  /** Codes agreeing on their first eight characters have layer 0 (no shared level counted). */
  lemma LayerOfMatchingCodes(c1: string, c2: string)
    requires |c1| >= 8 && |c2| >= 8 && c1[..8] == c2[..8]
    ensures |CommonStr(c1, c2)| >= 8
    ensures GetLayer(CommonStr(c1, c2)) == 0
  {
    PrefixEqAt(c1, c2, 8);
  }

  // ---------------------------------------------------------------------
  // Branch distance
  // ---------------------------------------------------------------------

  /** The six parts of a well-formed code: single characters and two-digit groups. */
  predicate IsDecoded(p: seq<string>) {
    && |p| == 6
    && |p[0]| == 1 && |p[1]| == 1 && |p[3]| == 1 && |p[5]| == 1
    && |p[2]| == 2 && IsDigit(p[2][0]) && IsDigit(p[2][1])
    && |p[4]| == 2 && IsDigit(p[4][0]) && IsDigit(p[4][1])
  }

  function Abs(x: int): nat {
    if x < 0 then -x else x
  }

  /** Python's ord() of a one-character string. */
  function Ord(s: string): int
    requires |s| == 1
  {
    s[0] as int
  }

  /** Python's int() of a two-digit group. */
  function GroupValue(s: string): int
    requires |s| == 2 && IsDigit(s[0]) && IsDigit(s[1])
  {
    10 * (s[0] as int - '0' as int) + (s[1] as int - '0' as int)
  }

  lemma GroupValueInjective(s: string, t: string)
    requires |s| == 2 && IsDigit(s[0]) && IsDigit(s[1])
    requires |t| == 2 && IsDigit(t[0]) && IsDigit(t[1])
    requires GroupValue(s) == GroupValue(t)
    ensures s == t
  {
    assert s[0] == t[0];
    assert s == [s[0], s[1]] && t == [t[0], t[1]];
  }

  /**
   * get_k: the distance between the branches of two decoded codes at the
   * first of the five levels where they differ (character distance for the
   * letter levels, numeric distance for the digit groups).
   */
  function GetK(p1: seq<string>, p2: seq<string>): (k: nat)
    requires IsDecoded(p1) && IsDecoded(p2)
  {
    if p1[0] != p2[0] then Abs(Ord(p1[0]) - Ord(p2[0]))
    else if p1[1] != p2[1] then Abs(Ord(p1[1]) - Ord(p2[1]))
    else if p1[2] != p2[2] then Abs(GroupValue(p1[2]) - GroupValue(p2[2]))
    else if p1[3] != p2[3] then Abs(Ord(p1[3]) - Ord(p2[3]))
    else Abs(GroupValue(p1[4]) - GroupValue(p2[4]))
  }

  /** The branch distance is zero exactly when the first five levels agree. */
  lemma GetKZeroIff(p1: seq<string>, p2: seq<string>)
    requires IsDecoded(p1) && IsDecoded(p2)
    ensures GetK(p1, p2) == 0 <==> p1[..5] == p2[..5]
  {
    assert p1[0] == [p1[0][0]] && p2[0] == [p2[0][0]];
    assert p1[1] == [p1[1][0]] && p2[1] == [p2[1][0]];
    assert p1[3] == [p1[3][0]] && p2[3] == [p2[3][0]];
    if p1[0] == p2[0] && p1[1] == p2[1] && p1[2] != p2[2] && GroupValue(p1[2]) == GroupValue(p2[2]) {
      GroupValueInjective(p1[2], p2[2]);
    }
    if p1[0] == p2[0] && p1[1] == p2[1] && p1[2] == p2[2] && p1[3] == p2[3] {
      if GroupValue(p1[4]) == GroupValue(p2[4]) {
        GroupValueInjective(p1[4], p2[4]);
      }
      assert p1[..5] == p2[..5] <==> p1[4] == p2[4];
    }
    if p1[..5] == p2[..5] {
      assert p1[0] == p1[..5][0] && p1[4] == p1[..5][4];
    }
  }

  lemma GetKSymmetric(p1: seq<string>, p2: seq<string>)
    requires IsDecoded(p1) && IsDecoded(p2)
    ensures GetK(p1, p2) == GetK(p2, p1)
  {
  }
}
