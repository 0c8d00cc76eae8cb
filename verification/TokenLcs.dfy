/** common_lcs: the longest common run of two token lists, with two reused rows of the table. */
module TokenLcs {

  type Token = int

  /** The length of the longest common ending of the first i tokens of `a` and the first j of `b`. */
  function Table(a: seq<Token>, b: seq<Token>, i: nat, j: nat): nat
    requires i <= |a| && j <= |b|
  {
    if i == 0 || j == 0 || a[i - 1] != b[j - 1] then 0 else Table(a, b, i - 1, j - 1) + 1
  }

  /** A run of k tokens at p in `a` and at q in `b`. */
  predicate CommonRun(a: seq<Token>, b: seq<Token>, p: nat, q: nat, k: nat) {
    p + k <= |a| && q + k <= |b| && a[p..p + k] == b[q..q + k]
  }

  lemma {:induction false} TableIsRun(a: seq<Token>, b: seq<Token>, i: nat, j: nat)
    requires i <= |a| && j <= |b|
    ensures var k := Table(a, b, i, j); k <= i && k <= j && CommonRun(a, b, i - k, j - k, k)
  {
    if i > 0 && j > 0 && a[i - 1] == b[j - 1] {
      TableIsRun(a, b, i - 1, j - 1);
      var k := Table(a, b, i - 1, j - 1);
      assert a[i - 1 - k..i] == a[i - 1 - k..i - 1] + [a[i - 1]];
      assert b[j - 1 - k..j] == b[j - 1 - k..j - 1] + [b[j - 1]];
    }
  }

  lemma {:induction false} RunFitsTable(a: seq<Token>, b: seq<Token>, p: nat, q: nat, k: nat)
    requires CommonRun(a, b, p, q, k)
    ensures k <= Table(a, b, p + k, q + k)
  {
    if k > 0 {
      var r, s := a[p..p + k], b[q..q + k];
      assert a[p + k - 1] == r[k - 1] == s[k - 1] == b[q + k - 1];
      assert a[p..p + k - 1] == r[..k - 1] == s[..k - 1] == b[q..q + k - 1];
      RunFitsTable(a, b, p, q, k - 1);
    }
  }

  /** The cells before (i, j), row by row. */
  predicate Before(i: nat, j: nat, k: nat, l: nat) {
    k < i || (k == i && l < j)
  }

  method LongestCommonRun(a: seq<Token>, b: seq<Token>) returns (maxLength: nat)
    ensures exists p: nat, q: nat :: CommonRun(a, b, p, q, maxLength)
    ensures forall p: nat, q: nat, k: nat :: CommonRun(a, b, p, q, k) ==> k <= maxLength
  {
    maxLength := 0;
    ghost var bestI: nat, bestJ: nat := 0, 0;
    if a == [] || b == [] {
      assert CommonRun(a, b, 0, 0, 0);
      return;
    }
    var prevRow := new nat[|b| + 1](_ => 0);
    var currRow := new nat[|b| + 1](_ => 0);
    for i := 1 to |a| + 1
      invariant prevRow != currRow
      invariant forall l :: 0 <= l <= |b| ==> prevRow[l] == Table(a, b, i - 1, l)
      invariant currRow[0] == 0
      invariant bestI <= |a| && bestJ <= |b| && maxLength == Table(a, b, bestI, bestJ)
      invariant forall k: nat, l: nat :: k < i && l <= |b| ==> Table(a, b, k, l) <= maxLength
    {
      for j := 1 to |b| + 1
        invariant prevRow != currRow
        invariant forall l :: 0 <= l <= |b| ==> prevRow[l] == Table(a, b, i - 1, l)
        invariant forall l :: 0 <= l < j ==> currRow[l] == Table(a, b, i, l)
        invariant bestI <= |a| && bestJ <= |b| && maxLength == Table(a, b, bestI, bestJ)
        invariant forall k: nat, l: nat :: l <= |b| && Before(i, j, k, l) ==> Table(a, b, k, l) <= maxLength
      {
        if a[i - 1] == b[j - 1] {
          if i == 1 || j == 1 {
            currRow[j] := 1;
          } else {
            currRow[j] := prevRow[j - 1] + 1;
          }
          if currRow[j] > maxLength {
            maxLength := currRow[j];
            bestI, bestJ := i, j;
          }
        } else {
          currRow[j] := 0;
        }
      }
      forall j | 0 <= j <= |b| {
        prevRow[j] := currRow[j];
      }
    }
    TableIsRun(a, b, bestI, bestJ);
    forall p: nat, q: nat, k: nat | CommonRun(a, b, p, q, k) ensures k <= maxLength {
      RunFitsTable(a, b, p, q, k);
    }
  }
}
