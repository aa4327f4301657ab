/**
 * The pure helpers of the camera-fix visualiser: the 48 axis-aligned
 * orientations (signed 3x3 permutation matrices), the change of world
 * axes applied to a camera-to-world matrix, and the cloud merge.
 */
module VisualizeCameraFix {
  import opened Wrappers
  import opened Clouds

  // ---------------------------------------------------------------------
  // generate_48_orientations
  // ---------------------------------------------------------------------

  /** A 3x3 matrix with integer entries (the script stores them as float64 0 and +-1). */
  type Mat3 = seq<seq<int>>

  predicate IsMat3(m: Mat3) {
    |m| == 3 && forall i :: 0 <= i < 3 ==> |m[i]| == 3
  }

  /** itertools.permutations([0, 1, 2]), in the order it yields them. */
  const Perms3: seq<seq<nat>> := [[0, 1, 2], [0, 2, 1], [1, 0, 2], [1, 2, 0], [2, 0, 1], [2, 1, 0]]

  /** The sign tuple (-1, 1) each axis runs through. */
  const Signs: seq<int> := [-1, 1]

  /** A permutation of {0, 1, 2}: row i's nonzero entry goes to column p[i]. */
  predicate IsPerm3(p: seq<nat>) {
    |p| == 3 && p[0] < 3 && p[1] < 3 && p[2] < 3 && p[0] != p[1] && p[0] != p[2] && p[1] != p[2]
  }

  predicate IsSign(s: int) {
    s == 1 || s == -1
  }

  /** The matrix with s[i] at (i, p[i]) and zeros elsewhere. */
  function SignedPermutation(p: seq<nat>, sx: int, sy: int, sz: int): (m: Mat3)
    requires |p| == 3
    ensures IsMat3(m)
  {
    var s := [sx, sy, sz];
    seq(3, i requires 0 <= i < 3 => seq(3, j requires 0 <= j < 3 => if j == p[i] then s[i] else 0))
  }

  /**
   * The candidate the loops build on their k-th pass (k < 48): permutation
   * k / 8, signs from the bits of k % 8, most significant for x.
   */
  function Candidate(k: nat): (m: Mat3)
    requires k < 48
    ensures IsMat3(m)
  {
    SignedPermutation(Perms3[k / 8], Signs[(k / 4) % 2], Signs[(k / 2) % 2], Signs[k % 2])
  }

  /** The first n candidates, in loop order. */
  function Candidates(n: nat): (ms: seq<Mat3>)
    requires n <= 48
    ensures |ms| == n && forall k :: 0 <= k < n ==> ms[k] == Candidate(k)
  {
    seq(n, k requires 0 <= k < n => Candidate(k))
  }

  /** The determinant, by cofactor expansion along the first row. */
  function Det3(m: Mat3): int
    requires IsMat3(m)
  {
    m[0][0] * (m[1][1] * m[2][2] - m[1][2] * m[2][1])
    - m[0][1] * (m[1][0] * m[2][2] - m[1][2] * m[2][0])
    + m[0][2] * (m[1][0] * m[2][1] - m[1][1] * m[2][0])
  }

  /** The number of pass (pi, a, b, c) has digits pi, a, b, c in the mixed radix (6, 2, 2, 2). */
  lemma PassDigits(pi: nat, a: nat, b: nat, c: nat)
    requires pi < 6 && a < 2 && b < 2 && c < 2
    ensures var k := 8 * pi + 4 * a + 2 * b + c;
      k / 8 == pi && (k / 4) % 2 == a && (k / 2) % 2 == b && k % 2 == c
  {
    var k := 8 * pi + 4 * a + 2 * b + c;
    assert k / 8 == pi;
    assert k / 4 == 2 * pi + a;
    assert (2 * pi + a) % 2 == a;
    assert k / 2 == 4 * pi + 2 * a + b;
    assert (4 * pi + 2 * a + b) % 2 == b;
  }

  /** The loop pass (pi, a, b, c) builds candidate 8 pi + 4 a + 2 b + c. */
  lemma CandidateOfPass(pi: nat, a: nat, b: nat, c: nat)
    requires pi < 6 && a < 2 && b < 2 && c < 2
    ensures 8 * pi + 4 * a + 2 * b + c < 48
    ensures Candidate(8 * pi + 4 * a + 2 * b + c) == SignedPermutation(Perms3[pi], Signs[a], Signs[b], Signs[c])
  {
    var k := 8 * pi + 4 * a + 2 * b + c;
    PassDigits(pi, a, b, c);
    var q, sx, sy, sz := Perms3[k / 8], Signs[(k / 4) % 2], Signs[(k / 2) % 2], Signs[k % 2];
    assert Candidate(k) == SignedPermutation(q, sx, sy, sz);
    assert q == Perms3[pi] && sx == Signs[a] && sy == Signs[b] && sz == Signs[c];
  }

  /** The determinant of a signed permutation matrix: the permutation's sign times the product of the signs. */
  function PermSign(p: seq<nat>): int {
    if p in [[0, 1, 2], [1, 2, 0], [2, 0, 1]] then 1 else -1
  }

  lemma {:induction false} SignedPermutationDetValue(p: seq<nat>, sx: int, sy: int, sz: int)
    requires IsPerm3(p)
    ensures Det3(SignedPermutation(p, sx, sy, sz)) == PermSign(p) * (sx * sy * sz)
  {
    var m := SignedPermutation(p, sx, sy, sz);
    assert m[0][p[0]] == sx && m[1][p[1]] == sy && m[2][p[2]] == sz;
    PermsComplete(p);
  }

  /** Every signed permutation matrix has determinant +1 or -1, so every candidate passes the check. */
  lemma SignedPermutationDet(p: seq<nat>, sx: int, sy: int, sz: int)
    requires IsPerm3(p) && IsSign(sx) && IsSign(sy) && IsSign(sz)
    ensures Det3(SignedPermutation(p, sx, sy, sz)) == 1 || Det3(SignedPermutation(p, sx, sy, sz)) == -1
  {
    SignedPermutationDetValue(p, sx, sy, sz);
    assert sx * sy == 1 || sx * sy == -1;
  }

  /** Each permutation the loops use is one, and each sign is +-1. */
  lemma PassValues(pi: nat, a: nat)
    requires pi < 6 && a < 2
    ensures IsPerm3(Perms3[pi]) && IsSign(Signs[a])
  {
  }

  /** A signed permutation matrix determines its permutation and its signs. */
  lemma SignedPermutationInjective(p: seq<nat>, s: seq<int>, q: seq<nat>, t: seq<int>)
    requires IsPerm3(p) && IsPerm3(q) && |s| == 3 && |t| == 3
    requires forall i :: 0 <= i < 3 ==> IsSign(s[i]) && IsSign(t[i])
    requires SignedPermutation(p, s[0], s[1], s[2]) == SignedPermutation(q, t[0], t[1], t[2])
    ensures p == q && s == t
  {
    var m := SignedPermutation(p, s[0], s[1], s[2]);
    var n := SignedPermutation(q, t[0], t[1], t[2]);
    forall i | 0 <= i < 3
      ensures p[i] == q[i] && s[i] == t[i]
    {
      assert m[i][p[i]] == s[i];
      assert n[i][p[i]] == m[i][p[i]];
    }
  }

  /** The six permutations the loops go through are distinct. */
  lemma PermIndexUnique(pi: nat, pj: nat)
    requires pi < 6 && pj < 6 && Perms3[pi] == Perms3[pj]
    ensures pi == pj
  {
    assert Perms3[pi][0] == Perms3[pj][0] && Perms3[pi][1] == Perms3[pj][1];
  }

  /** k splits into its loop pass: permutation k / 8 and the three sign bits. */
  lemma PassOfCandidate(k: nat)
    requires k < 48
    ensures k / 8 < 6 && (k / 4) % 2 < 2 && (k / 2) % 2 < 2 && k % 2 < 2
    ensures k == 8 * (k / 8) + 4 * ((k / 4) % 2) + 2 * ((k / 2) % 2) + k % 2
  {
  }

  /** The 48 candidates are pairwise distinct. */
  lemma CandidateInjective(j: nat, k: nat)
    requires j < 48 && k < 48 && Candidate(j) == Candidate(k)
    ensures j == k
  {
    PassOfCandidate(j);
    PassOfCandidate(k);
    var pj, aj, bj, cj := j / 8, (j / 4) % 2, (j / 2) % 2, j % 2;
    var pk, ak, bk, ck := k / 8, (k / 4) % 2, (k / 2) % 2, k % 2;
    var s := [Signs[aj], Signs[bj], Signs[cj]];
    var t := [Signs[ak], Signs[bk], Signs[ck]];
    PassValues(pj, 0);
    PassValues(pk, 0);
    SignedPermutationInjective(Perms3[pj], s, Perms3[pk], t);
    PermIndexUnique(pj, pk);
    assert s[0] == t[0] && s[1] == t[1] && s[2] == t[2];
    assert aj == ak && bj == bk && cj == ck;
  }


  /** No candidate equals an earlier one, so the de-duplication never drops a candidate. */
  lemma CandidateFresh(k: nat)
    requires k < 48
    ensures Candidate(k) !in Candidates(k)
  {
    if Candidate(k) in Candidates(k) {
      var j :| 0 <= j < k && Candidates(k)[j] == Candidate(k);
      CandidateInjective(j, k);
    }
  }

  /** Every permutation of {0, 1, 2} is one of the six the loops go through. */
  lemma PermsComplete(p: seq<nat>)
    requires IsPerm3(p)
    ensures exists pi :: 0 <= pi < 6 && Perms3[pi] == p
  {
    if p[0] == 0 && p[1] == 1 {
      assert Perms3[0] == p;
    } else if p[0] == 0 {
      assert Perms3[1] == p;
    } else if p[0] == 1 && p[1] == 0 {
      assert Perms3[2] == p;
    } else if p[0] == 1 {
      assert Perms3[3] == p;
    } else if p[1] == 0 {
      assert Perms3[4] == p;
    } else {
      assert Perms3[5] == p;
    }
  }

  /** The writes of one pass: a zero matrix, then s at (i, perm[i]) for each row. */
  method PlaceSigns(perm: seq<nat>, sx: int, sy: int, sz: int) returns (matrix: Mat3)
    requires |perm| == 3 && perm[0] < 3 && perm[1] < 3 && perm[2] < 3
    ensures matrix == SignedPermutation(perm, sx, sy, sz)
  {
    matrix := [[0, 0, 0], [0, 0, 0], [0, 0, 0]];
    matrix := matrix[0 := matrix[0][perm[0] := sx]];
    matrix := matrix[1 := matrix[1][perm[1] := sy]];
    matrix := matrix[2 := matrix[2][perm[2] := sz]];
    ghost var m := SignedPermutation(perm, sx, sy, sz);
    forall i | 0 <= i < 3
      ensures matrix[i] == m[i]
    {
      assert forall j :: 0 <= j < 3 ==> matrix[i][j] == m[i][j];
    }
  }

  lemma CandidatesSnoc(n: nat)
    requires n < 48
    ensures Candidates(n + 1) == Candidates(n) + [Candidate(n)]
  {
  }

  /**
   * The body of the innermost loop: the matrix of this pass is built, and
   * appended when its determinant is +-1 and it is not yet listed; pass
   * (pi, a, b, c) always appends candidate 8 pi + 4 a + 2 b + c.
   */
  method AddCandidate(orientations: seq<Mat3>, perm: seq<nat>, sx: int, sy: int, sz: int,
                      ghost pi: nat, ghost a: nat, ghost b: nat, ghost c: nat)
    returns (next: seq<Mat3>)
    requires pi < 6 && a < 2 && b < 2 && c < 2
    requires perm == Perms3[pi] && sx == Signs[a] && sy == Signs[b] && sz == Signs[c]
    requires orientations == Candidates(8 * pi + 4 * a + 2 * b + c)
    ensures next == Candidates(8 * pi + 4 * a + 2 * b + c + 1)
  {
    next := orientations;
    var matrix := PlaceSigns(perm, sx, sy, sz);
    ghost var k := 8 * pi + 4 * a + 2 * b + c;
    CandidateOfPass(pi, a, b, c);
    PassValues(pi, a);
    PassValues(pi, b);
    PassValues(pi, c);
    SignedPermutationDet(perm, sx, sy, sz);
    CandidateFresh(k);
    CandidatesSnoc(k);
    var det := Det3(matrix);
    if det == 1 || det == -1 {
      if matrix !in orientations {
        next := orientations + [matrix];
      }
    }
  }

  /**
   * generate_48_orientations: for every permutation and every sign triple,
   * the signed permutation matrix, kept when its determinant is +-1 and it
   * is not already listed. All 48 are kept, in loop order.
   */
  method Generate48Orientations() returns (orientations: seq<Mat3>)
    ensures orientations == Candidates(48)
  {
    orientations := [];
    for pi := 0 to 6
      invariant orientations == Candidates(8 * pi)
    {
      var perm := Perms3[pi];
      for a := 0 to 2
        invariant orientations == Candidates(8 * pi + 4 * a)
      {
        var sx := Signs[a];
        for b := 0 to 2
          invariant orientations == Candidates(8 * pi + 4 * a + 2 * b)
        {
          var sy := Signs[b];
          for c := 0 to 2
            invariant orientations == Candidates(8 * pi + 4 * a + 2 * b + c)
          {
            var sz := Signs[c];
            orientations := AddCandidate(orientations, perm, sx, sy, sz, pi, a, b, c);
          }
        }
      }
    }
  }

  /** A signed permutation matrix: row i holds +-1 at column p[i] of a permutation p, and zeros elsewhere. */
  ghost predicate IsSignedPermutationMatrix(m: Mat3) {
    exists p: seq<nat>, sx: int, sy: int, sz: int ::
      IsPerm3(p) && IsSign(sx) && IsSign(sy) && IsSign(sz) && m == SignedPermutation(p, sx, sy, sz)
  }

  /**
   * The 48 orientations are exactly the signed permutation matrices: each
   * listed matrix is one, with determinant +-1, no two are equal, and every
   * signed permutation matrix is listed.
   */
  lemma OrientationsAreSignedPermutations()
    ensures |Candidates(48)| == 48
    ensures forall k :: 0 <= k < 48 ==> IsSignedPermutationMatrix(Candidates(48)[k])
    ensures forall k :: 0 <= k < 48 ==> Det3(Candidates(48)[k]) == 1 || Det3(Candidates(48)[k]) == -1
    ensures forall j, k :: 0 <= j < k < 48 ==> Candidates(48)[j] != Candidates(48)[k]
    ensures forall m :: IsSignedPermutationMatrix(m) ==> m in Candidates(48)
  {
    var all := Candidates(48);
    forall k | 0 <= k < 48
      ensures IsSignedPermutationMatrix(all[k])
      ensures Det3(all[k]) == 1 || Det3(all[k]) == -1
    {
      var p, sx, sy, sz := Perms3[k / 8], Signs[(k / 4) % 2], Signs[(k / 2) % 2], Signs[k % 2];
      PassValues(k / 8, (k / 4) % 2);
      PassValues(k / 8, (k / 2) % 2);
      PassValues(k / 8, k % 2);
      SignedPermutationDet(p, sx, sy, sz);
      assert all[k] == SignedPermutation(p, sx, sy, sz);
    }
    forall j, k | 0 <= j < k < 48
      ensures all[j] != all[k]
    {
      if all[j] == all[k] {
        CandidateInjective(j, k);
      }
    }
    forall m | IsSignedPermutationMatrix(m)
      ensures m in all
    {
      var p: seq<nat>, sx: int, sy: int, sz: int :|
        IsPerm3(p) && IsSign(sx) && IsSign(sy) && IsSign(sz) && m == SignedPermutation(p, sx, sy, sz);
      PermsComplete(p);
      var pi :| 0 <= pi < 6 && Perms3[pi] == p;
      var a := if sx == 1 then 1 else 0;
      var b := if sy == 1 then 1 else 0;
      var c := if sz == 1 then 1 else 0;
      CandidateOfPass(pi, a, b, c);
      assert all[8 * pi + 4 * a + 2 * b + c] == m;
    }
  }

  // ---------------------------------------------------------------------
  // apply_transform_to_cam2world
  // ---------------------------------------------------------------------

  type Matrix = seq<seq<real>>

  predicate HasShape(m: Matrix, rows: nat, cols: nat) {
    |m| == rows && forall i :: 0 <= i < rows ==> |m[i]| == cols
  }

  /** Sum of products of two equally long vectors. */
  function Dot(x: seq<real>, y: seq<real>): real
    requires |x| == |y|
  {
    if x == [] then 0.0 else x[0] * y[0] + Dot(x[1..], y[1..])
  }

  function Column(m: Matrix, j: nat): (col: seq<real>)
    requires forall i :: 0 <= i < |m| ==> j < |m[i]|
    ensures |col| == |m|
  {
    seq(|m|, i requires 0 <= i < |m| => m[i][j])
  }

  /** The matrix product a @ b. */
  function MatMul(a: Matrix, b: Matrix, n: nat, k: nat, l: nat): (c: Matrix)
    requires HasShape(a, n, k) && HasShape(b, k, l)
    ensures HasShape(c, n, l)
  {
    seq(n, i requires 0 <= i < n => seq(l, j requires 0 <= j < l => Dot(a[i], Column(b, j))))
  }

  /** np.eye(4) with its upper-left 3x3 block replaced by S. */
  function Homogeneous(s: Matrix): (h: Matrix)
    requires HasShape(s, 3, 3)
    ensures HasShape(h, 4, 4)
  {
    seq(4, i requires 0 <= i < 4 => seq(4, j requires 0 <= j < 4 =>
      if i < 3 && j < 3 then s[i][j] else if i == j then 1.0 else 0.0))
  }

  /**
   * apply_transform_to_cam2world: asserts a 4x4 cam2world and a 3x3 S
   * (None is the AssertionError), then returns cam2world @ homog(S).
   */
  function ApplyTransformToCam2World(cam2world: Matrix, s: Matrix): (r: Option<Matrix>)
    ensures r.Some? <==> HasShape(cam2world, 4, 4) && HasShape(s, 3, 3)
    ensures r.Some? ==> HasShape(r.value, 4, 4)
  {
    if HasShape(cam2world, 4, 4) && HasShape(s, 3, 3) then
      Some(MatMul(cam2world, Homogeneous(s), 4, 4, 4))
    else
      None
  }

  /** Dot of non-empty vectors: the product of the heads plus the dot of the tails. */
  lemma DotStep(x: seq<real>, y: seq<real>)
    requires |x| == |y| > 0
    ensures Dot(x, y) == x[0] * y[0] + Dot(x[1..], y[1..])
  {
  }

  lemma Dot4(x: seq<real>, y: seq<real>)
    requires |x| == 4 && |y| == 4
    ensures Dot(x, y) == x[0] * y[0] + x[1] * y[1] + x[2] * y[2] + x[3] * y[3]
  {
    var x1, y1 := x[1..], y[1..];
    var x2, y2 := x1[1..], y1[1..];
    var x3, y3 := x2[1..], y2[1..];
    DotStep(x3, y3);
    assert x3[1..] == [];
    DotStep(x2, y2);
    DotStep(x1, y1);
    DotStep(x, y);
    assert x1[0] == x[1] && x2[0] == x[2] && x3[0] == x[3];
    assert y1[0] == y[1] && y2[0] == y[2] && y3[0] == y[3];
  }

  /** a0 * b0 + a1 * b1 + a2 * b2: a row of three times a column of three. */
  function Lin3(a0: real, a1: real, a2: real, b0: real, b1: real, b2: real): real {
    a0 * b0 + a1 * b1 + a2 * b2
  }

  /** One entry of the transformed matrix. */
  lemma ApplyEntry(cam2world: Matrix, s: Matrix, i: nat, j: nat)
    requires HasShape(cam2world, 4, 4) && HasShape(s, 3, 3) && i < 4 && j < 4
    ensures ApplyTransformToCam2World(cam2world, s).value[i][j] ==
      if j < 3 then Lin3(cam2world[i][0], cam2world[i][1], cam2world[i][2], s[0][j], s[1][j], s[2][j])
      else cam2world[i][3]
  {
    var h := Homogeneous(s);
    Dot4(cam2world[i], Column(h, j));
  }

  /**
   * The transformed matrix keeps cam2world's translation column, and its
   * first three columns are cam2world's first three columns times S.
   */
  lemma ApplyTransformEntries(cam2world: Matrix, s: Matrix)
    requires HasShape(cam2world, 4, 4) && HasShape(s, 3, 3)
    ensures var r := ApplyTransformToCam2World(cam2world, s).value;
      && (forall i, j :: 0 <= i < 4 && 0 <= j < 3 ==>
            r[i][j] == cam2world[i][0] * s[0][j] + cam2world[i][1] * s[1][j] + cam2world[i][2] * s[2][j])
      && (forall i :: 0 <= i < 4 ==> r[i][3] == cam2world[i][3])
  {
    var r := ApplyTransformToCam2World(cam2world, s).value;
    forall i, j | 0 <= i < 4 && 0 <= j < 3
      ensures r[i][j] == cam2world[i][0] * s[0][j] + cam2world[i][1] * s[1][j] + cam2world[i][2] * s[2][j]
    {
      ApplyEntry(cam2world, s, i, j);
    }
    forall i | 0 <= i < 4
      ensures r[i][3] == cam2world[i][3]
    {
      ApplyEntry(cam2world, s, i, 3);
    }
  }

  const Identity3: Matrix := [[1.0, 0.0, 0.0], [0.0, 1.0, 0.0], [0.0, 0.0, 1.0]]

  /** The identity change of axes leaves cam2world as it is. */
  lemma ApplyIdentity(cam2world: Matrix)
    requires HasShape(cam2world, 4, 4)
    ensures ApplyTransformToCam2World(cam2world, Identity3) == Some(cam2world)
  {
    ApplyTransformEntries(cam2world, Identity3);
    var r := ApplyTransformToCam2World(cam2world, Identity3).value;
    forall i | 0 <= i < 4
      ensures r[i] == cam2world[i]
    {
      assert r[i][0] == cam2world[i][0];
      assert r[i][1] == cam2world[i][1];
      assert r[i][2] == cam2world[i][2];
    }
    assert r == cam2world;
  }

  lemma Dot3(x: seq<real>, y: seq<real>)
    requires |x| == 3 && |y| == 3
    ensures Dot(x, y) == x[0] * y[0] + x[1] * y[1] + x[2] * y[2]
  {
    var x1, y1 := x[1..], y[1..];
    var x2, y2 := x1[1..], y1[1..];
    DotStep(x2, y2);
    assert x2[1..] == [];
    DotStep(x1, y1);
    DotStep(x, y);
    assert x1[0] == x[1] && x2[0] == x[2];
    assert y1[0] == y[1] && y2[0] == y[2];
  }

  /** Entry (i, j) of a product of 3x3 matrices. */
  lemma MatMul3Entry(s: Matrix, t: Matrix, i: nat, j: nat)
    requires HasShape(s, 3, 3) && HasShape(t, 3, 3) && i < 3 && j < 3
    ensures MatMul(s, t, 3, 3, 3)[i][j] == Lin3(s[i][0], s[i][1], s[i][2], t[0][j], t[1][j], t[2][j])
  {
    Dot3(s[i], Column(t, j));
  }

  /** Multiplying a row by S and then by a column of T is multiplying it by the matching column of S * T. */
  lemma RowAssoc(c0: real, c1: real, c2: real, s: Matrix, t0: real, t1: real, t2: real,
                 o0: real, o1: real, o2: real, u0: real, u1: real, u2: real)
    requires HasShape(s, 3, 3)
    requires o0 == Lin3(c0, c1, c2, s[0][0], s[1][0], s[2][0])
    requires o1 == Lin3(c0, c1, c2, s[0][1], s[1][1], s[2][1])
    requires o2 == Lin3(c0, c1, c2, s[0][2], s[1][2], s[2][2])
    requires u0 == Lin3(s[0][0], s[0][1], s[0][2], t0, t1, t2)
    requires u1 == Lin3(s[1][0], s[1][1], s[1][2], t0, t1, t2)
    requires u2 == Lin3(s[2][0], s[2][1], s[2][2], t0, t1, t2)
    ensures Lin3(o0, o1, o2, t0, t1, t2) == Lin3(c0, c1, c2, u0, u1, u2)
  {
  }

  lemma ApplyTwiceEntry(cam2world: Matrix, s: Matrix, t: Matrix, i: nat, j: nat)
    requires HasShape(cam2world, 4, 4) && HasShape(s, 3, 3) && HasShape(t, 3, 3) && i < 4 && j < 4
    ensures var once := ApplyTransformToCam2World(cam2world, s).value;
      ApplyTransformToCam2World(once, t).value[i][j] == ApplyTransformToCam2World(cam2world, MatMul(s, t, 3, 3, 3)).value[i][j]
  {
    var once := ApplyTransformToCam2World(cam2world, s).value;
    var st := MatMul(s, t, 3, 3, 3);
    ApplyEntry(once, t, i, j);
    ApplyEntry(cam2world, st, i, j);
    if j < 3 {
      var c := cam2world[i];
      ApplyEntry(cam2world, s, i, 0);
      ApplyEntry(cam2world, s, i, 1);
      ApplyEntry(cam2world, s, i, 2);
      MatMul3Entry(s, t, 0, j);
      MatMul3Entry(s, t, 1, j);
      MatMul3Entry(s, t, 2, j);
      RowAssoc(c[0], c[1], c[2], s, t[0][j], t[1][j], t[2][j], once[i][0], once[i][1], once[i][2], st[0][j], st[1][j], st[2][j]);
    } else {
      ApplyEntry(cam2world, s, i, 3);
    }
  }



  /** Applying S and then T is applying S @ T once. */
  lemma ApplyTwice(cam2world: Matrix, s: Matrix, t: Matrix)
    requires HasShape(cam2world, 4, 4) && HasShape(s, 3, 3) && HasShape(t, 3, 3)
    ensures var once := ApplyTransformToCam2World(cam2world, s).value;
      ApplyTransformToCam2World(once, t) == ApplyTransformToCam2World(cam2world, MatMul(s, t, 3, 3, 3))
  {
    var once := ApplyTransformToCam2World(cam2world, s).value;
    var lhs := ApplyTransformToCam2World(once, t).value;
    var rhs := ApplyTransformToCam2World(cam2world, MatMul(s, t, 3, 3, 3)).value;
    forall i | 0 <= i < 4
      ensures lhs[i] == rhs[i]
    {
      forall j | 0 <= j < 4
        ensures lhs[i][j] == rhs[i][j]
      {
        ApplyTwiceEntry(cam2world, s, t, i, j);
      }
    }
    assert lhs == rhs;
  }

  // ---------------------------------------------------------------------
  // merge_clouds_world_points
  // ---------------------------------------------------------------------

  /**
   * merge_clouds_world_points: a dict is returned as it is; a list is
   * merged. An empty list has no arrays to concatenate, and arrays of one
   * key with differing widths cannot be concatenated: ValueError.
   */
  method MergeCloudsWorldPoints(clouds: CloudsArg) returns (r: Result<Cloud, PyError>)
    ensures clouds.Dict? ==> r == Success(clouds.cloud)
    ensures clouds.List? && clouds.clouds == [] ==> r == Failure(ValueError)
    ensures clouds.List? && clouds.clouds != [] && !AllHave(clouds.clouds, WorldPoints) ==>
      r == Failure(KeyError(WorldPoints))
    ensures (clouds.List? && clouds.clouds != [] && AllHave(clouds.clouds, WorldPoints) &&
             !MergeWidthsOk(clouds.clouds)) ==> r == Failure(ValueError)
    ensures (clouds.List? && clouds.clouds != [] && AllHave(clouds.clouds, WorldPoints) &&
             MergeWidthsOk(clouds.clouds)) ==> r == Success(MergedCloud(clouds.clouds))
  {
    if clouds.Dict? {
      return Success(clouds.cloud);
    }
    r := MergeList(clouds.clouds);
  }
}
