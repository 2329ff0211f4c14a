/** The per-vertex inverse linear-blend-skinning computation of
    reconstruct_bind_mesh, as specification functions over the two cached
    poses, and the properties the reconstruction promises.

    A vertex's weights are the chunk of the flat weight array that belongs
    to it; offset j of a chunk is the weight of influence joints[j]. Every
    influence whose weight is strictly positive contributes
    weight * (inverse(B[joint]) * D[joint]) to the blend, which starts at
    the zero matrix and is never normalised; the vertex is mapped back into
    bind space as point * inverse(blend). */
module Skinning {
  import opened Matrix

  /** A joint, identified by its node name. */
  type Joint = string

  /** A pose cache: joint name to world matrix at one sampled time. */
  type Pose = map<Joint, Mat4>

  /** The skin cluster's ordered influence joints and the two cached poses. */
  datatype Rig = Rig(joints: seq<Joint>, bindPose: Pose, deformedPose: Pose)

  // ----- the flat weight array, cut into per-vertex chunks -----

  /** The number of iterations of `range(0, len, n)`, i.e. ceil(len / n). */
  function ChunkCount(len: nat, n: nat): nat
    requires n > 0
  {
    (len + n - 1) / n
  }

  lemma MulMonotone(a: nat, b: nat, n: nat)
    requires a <= b
    ensures a * n <= b * n
  {
    assert b * n == a * n + (b - a) * n;
  }

  /** ChunkCount is the least c with c * n >= len. */
  lemma ChunkCountOf(len: nat, n: nat, c: nat)
    requires n > 0
    requires c * n >= len && (c == 0 || (c - 1) * n < len)
    ensures c == ChunkCount(len, n)
  {
    var q, r := (len + n - 1) / n, (len + n - 1) % n;
    assert len + n - 1 == q * n + r && 0 <= r < n;
    assert (c + 1) * n == c * n + n && (q + 1) * n == q * n + n;
    assert c > 0 ==> (c - 1) * n == c * n - n;
    if q > c {
      MulMonotone(c + 1, q, n);
      assert false;
    }
    if q < c {
      MulMonotone(q + 1, c, n);
      assert false;
    }
  }

  /** ChunkCount(len, n) chunks of n cover len weights, one fewer would not. */
  lemma ChunkCountBounds(len: nat, n: nat)
    requires n > 0
    ensures ChunkCount(len, n) * n >= len
    ensures ChunkCount(len, n) > 0 ==> (ChunkCount(len, n) - 1) * n < len
  {
    var q, r := (len + n - 1) / n, (len + n - 1) % n;
    assert len + n - 1 == q * n + r && 0 <= r < n;
    assert q > 0 ==> (q - 1) * n == q * n - n;
  }

  /** Chunk k is visited by the loop exactly when its start k * n lies
      inside the weight array. */
  lemma ChunkIndexInRange(len: nat, n: nat, k: nat)
    requires n > 0
    ensures k < ChunkCount(len, n) <==> k * n < len
  {
    var c := ChunkCount(len, n);
    ChunkCountBounds(len, n);
    if k >= c {
      MulMonotone(c, k, n);
    } else {
      MulMonotone(k, c - 1, n);
    }
  }

  /** Any c chunks of n that cover the weights are at least ChunkCount of them. */
  lemma ChunkCountLeast(len: nat, n: nat, c: nat)
    requires n > 0 && c * n >= len
    ensures ChunkCount(len, n) <= c
  {
    ChunkIndexInRange(len, n, c);
  }

  /** When n divides the weight count, there is one chunk per n weights. */
  lemma ChunkCountExact(c: nat, n: nat)
    requires n > 0
    ensures ChunkCount(c * n, n) == c
  {
    if c > 0 {
      assert (c - 1) * n == c * n - n;
    }
    ChunkCountOf(c * n, n, c);
  }

  /** When n divides the weight count, there are exactly |weights| / n chunks. */
  lemma ChunkCountWhenDivisible(len: nat, n: nat)
    requires n > 0 && len % n == 0
    ensures ChunkCount(len, n) == len / n
  {
    var c := len / n;
    assert len == c * n;
    ChunkCountExact(c, n);
  }

  /** The weights of vertex k, `weights[k*n : k*n + n]` (Python slicing:
      the last chunk is cut short at the end of the array). */
  function Chunk(weights: seq<real>, n: nat, k: nat): (ws: seq<real>)
    requires n > 0 && k < ChunkCount(|weights|, n)
    ensures k * n < |weights| && 0 < |ws| <= n
    ensures k * n + |ws| <= |weights|
    ensures |ws| == n || k * n + |ws| == |weights|
    ensures forall j :: 0 <= j < |ws| ==> ws[j] == weights[k * n + j]
  {
    ChunkIndexInRange(|weights|, n, k);
    var start := k * n;
    weights[start .. if start + n <= |weights| then start + n else |weights|]
  }

  // ----- the blend of one vertex -----

  /** The deformation matrix of one joint, inverse(B) * D: it carries a
      point from bind space to deformed space through that joint alone. */
  function Deformation(bind: Mat4, deformed: Mat4, inverse: Mat4 -> Mat4): Mat4 {
    Mul(inverse(bind), deformed)
  }

  /** Every influence with a positive weight names a joint of the rig that
      both pose caches hold (otherwise the lookups would fail). */
  predicate Resolvable(ws: seq<real>, rig: Rig) {
    forall j :: 0 <= j < |ws| && ws[j] > 0.0 ==>
      j < |rig.joints| && rig.joints[j] in rig.bindPose && rig.joints[j] in rig.deformedPose
  }

  /** The same, for the flat weight array: weight i belongs to influence i % n. */
  predicate WeightsResolvable(weights: seq<real>, n: nat, rig: Rig) {
    n > 0 &&
    forall i :: 0 <= i < |weights| && weights[i] > 0.0 ==>
      i % n < |rig.joints| && rig.joints[i % n] in rig.bindPose && rig.joints[i % n] in rig.deformedPose
  }

  /** The deformation of influence j, both poses looked up with joints[j]. */
  function JointDeformation(j: nat, rig: Rig, inverse: Mat4 -> Mat4): Mat4
    requires j < |rig.joints| && rig.joints[j] in rig.bindPose && rig.joints[j] in rig.deformedPose
  {
    var joint := rig.joints[j];
    Deformation(rig.bindPose[joint], rig.deformedPose[joint], inverse)
  }

  /** The weighted blend of one vertex, accumulated over its influences in
      order from the zero matrix; influences with weight <= 0 are skipped. */
  function Blend(ws: seq<real>, rig: Rig, inverse: Mat4 -> Mat4): Mat4
    requires Resolvable(ws, rig)
    decreases |ws|
  {
    if ws == [] then Zero
    else
      var j := |ws| - 1;
      var rest := Blend(ws[..j], rig, inverse);
      if ws[j] > 0.0 then Add(rest, Scale(ws[j], JointDeformation(j, rig, inverse))) else rest
  }

  /** The sum of the strictly positive weights of one vertex. */
  function PositiveSum(ws: seq<real>): real
    decreases |ws|
  {
    if ws == [] then 0.0
    else
      var j := |ws| - 1;
      PositiveSum(ws[..j]) + (if ws[j] > 0.0 then ws[j] else 0.0)
  }

  /** Every weight multiplied by c. */
  function ScaleWeights(c: real, ws: seq<real>): (vs: seq<real>)
    ensures |vs| == |ws| && forall j :: 0 <= j < |ws| ==> vs[j] == c * ws[j]
  {
    seq(|ws|, j requires 0 <= j < |ws| => c * ws[j])
  }

  /** The bind-space position of one vertex: point * inverse(blend). */
  function BindVertex(p: Vec4, ws: seq<real>, rig: Rig, inverse: Mat4 -> Mat4): Vec4
    requires Resolvable(ws, rig)
  {
    Transform(p, inverse(Blend(ws, rig, inverse)))
  }

  // ----- chunks and influences -----

  lemma ModOfChunkOffset(k: nat, n: nat, j: nat)
    requires j < n
    ensures (k * n + j) % n == j
  {
    var i := k * n + j;
    var q, r := i / n, i % n;
    assert i == q * n + r && 0 <= r < n;
    assert (k + 1) * n == k * n + n && (q + 1) * n == q * n + n;
    if q > k {
      MulMonotone(k + 1, q, n);
      assert false;
    }
    if q < k {
      MulMonotone(q + 1, k, n);
      assert false;
    }
  }

  /** Offset j of chunk k is influence j: each vertex's chunk resolves
      whenever the flat weight array does. */
  lemma ChunkResolvable(weights: seq<real>, n: nat, k: nat, rig: Rig)
    requires WeightsResolvable(weights, n, rig) && k < ChunkCount(|weights|, n)
    ensures Resolvable(Chunk(weights, n, k), rig)
  {
    var ws := Chunk(weights, n, k);
    forall j | 0 <= j < |ws| && ws[j] > 0.0
      ensures j < |rig.joints| && rig.joints[j] in rig.bindPose && rig.joints[j] in rig.deformedPose
    {
      ModOfChunkOffset(k, n, j);
      assert weights[k * n + j] > 0.0;
    }
  }

  // ----- what the blend is -----

  /** Influences with weight <= 0 contribute nothing: two weight rows that
      agree wherever either is positive give the same blend (so negative
      weights are skipped, exactly like zero ones). */
  lemma {:induction false} BlendIgnoresNonPositive(ws: seq<real>, vs: seq<real>, rig: Rig, inverse: Mat4 -> Mat4)
    requires |ws| == |vs|
    requires forall j :: 0 <= j < |ws| && (ws[j] > 0.0 || vs[j] > 0.0) ==> ws[j] == vs[j]
    requires Resolvable(ws, rig)
    ensures Resolvable(vs, rig)
    ensures Blend(ws, rig, inverse) == Blend(vs, rig, inverse)
  {
    if ws != [] {
      var j := |ws| - 1;
      BlendIgnoresNonPositive(ws[..j], vs[..j], rig, inverse);
    }
  }

  /** With no positive weight the blend stays the zero matrix. */
  lemma {:induction false} BlendOfNoInfluence(ws: seq<real>, rig: Rig, inverse: Mat4 -> Mat4)
    requires forall j :: 0 <= j < |ws| ==> ws[j] <= 0.0
    ensures Resolvable(ws, rig) && Blend(ws, rig, inverse) == Zero
  {
    if ws != [] {
      BlendOfNoInfluence(ws[..|ws| - 1], rig, inverse);
    }
  }

  /** A vertex with no positive weight has a singular blend, so
      BindVertexUndoesBlend does not apply to it: its bind vertex is
      whatever the host inverse returns for the zero matrix. */
  lemma NoInfluenceSingular(ws: seq<real>, rig: Rig, inverse: Mat4 -> Mat4)
    requires forall j :: 0 <= j < |ws| ==> ws[j] <= 0.0
    ensures Resolvable(ws, rig) && !Invertible(Blend(ws, rig, inverse))
  {
    BlendOfNoInfluence(ws, rig, inverse);
    ZeroSingular();
  }

  /** A vertex with a single positive weight w on influence j has blend
      w * (inverse(B[joints[j]]) * D[joints[j]]). */
  lemma {:induction false} BlendSingleInfluence(ws: seq<real>, j: nat, rig: Rig, inverse: Mat4 -> Mat4)
    requires Resolvable(ws, rig)
    requires j < |ws| && ws[j] > 0.0
    requires forall i :: 0 <= i < |ws| && i != j ==> ws[i] <= 0.0
    ensures j < |rig.joints| && rig.joints[j] in rig.bindPose && rig.joints[j] in rig.deformedPose
    ensures Blend(ws, rig, inverse) == Scale(ws[j], JointDeformation(j, rig, inverse))
  {
    var last := |ws| - 1;
    if j == last {
      BlendOfNoInfluence(ws[..last], rig, inverse);
      ScaleUnit(0.0, Scale(ws[j], JointDeformation(j, rig, inverse)));
    } else {
      BlendSingleInfluence(ws[..last], j, rig, inverse);
    }
  }

  lemma PositiveTimesPositive(c: real, w: real)
    requires c > 0.0
    ensures c * w > 0.0 <==> w > 0.0
  {
    if w > 0.0 {
      assert c * w > 0.0;
    } else {
      assert c * w <= 0.0;
    }
  }

  /** The blend is a literal weighted sum: scaling every weight by c > 0
      scales the blend by c (nothing renormalises the weights). */
  lemma {:induction false} BlendScaled(c: real, ws: seq<real>, rig: Rig, inverse: Mat4 -> Mat4)
    requires c > 0.0 && Resolvable(ws, rig)
    ensures Resolvable(ScaleWeights(c, ws), rig)
    ensures Blend(ScaleWeights(c, ws), rig, inverse) == Scale(c, Blend(ws, rig, inverse))
  {
    ScaledWeightsPositive(c, ws);
    if ws == [] {
      ScaleUnit(c, Zero);
    } else {
      var j := |ws| - 1;
      var w, v := ws[j], ScaleWeights(c, ws)[j];
      assert v == c * w;
      ScaleWeightsPrefix(c, ws, j);
      BlendScaled(c, ws[..j], rig, inverse);
      if w > 0.0 {
        ScaleStep(c, w, v, Blend(ws[..j], rig, inverse), JointDeformation(j, rig, inverse));
      }
    }
  }

  /** Scaling by c > 0 keeps exactly the same weights positive. */
  lemma ScaledWeightsPositive(c: real, ws: seq<real>)
    requires c > 0.0
    ensures forall j :: 0 <= j < |ws| ==> (ScaleWeights(c, ws)[j] > 0.0 <==> ws[j] > 0.0)
  {
    forall j | 0 <= j < |ws| ensures ScaleWeights(c, ws)[j] > 0.0 <==> ws[j] > 0.0 {
      PositiveTimesPositive(c, ws[j]);
    }
  }

  lemma ScaleWeightsPrefix(c: real, ws: seq<real>, j: nat)
    requires j <= |ws|
    ensures ScaleWeights(c, ws)[..j] == ScaleWeights(c, ws[..j])
  {
    var vs, us := ScaleWeights(c, ws)[..j], ScaleWeights(c, ws[..j]);
    assert forall i :: 0 <= i < j ==> vs[i] == us[i];
  }

  /** One more influence on both sides of BlendScaled. */
  lemma ScaleStep(c: real, w: real, v: real, rest: Mat4, d: Mat4)
    requires v == c * w
    ensures Add(Scale(c, rest), Scale(v, d)) == Scale(c, Add(rest, Scale(w, d)))
  {
    ScaleScale(c, w, d);
    ScaleAdd(c, rest, Scale(w, d));
  }

  /** A joint that did not move has the identity as its deformation. */
  lemma StillJointDeformation(bind: Mat4, inverse: Mat4 -> Mat4)
    requires InverseOp(inverse) && Invertible(bind)
    ensures Deformation(bind, bind, inverse) == Identity
  {
  }

  /** If no influencing joint moved between the two poses, the blend is
      (sum of the positive weights) * I. */
  lemma {:induction false} BlendStillPose(ws: seq<real>, rig: Rig, inverse: Mat4 -> Mat4)
    requires InverseOp(inverse) && Resolvable(ws, rig)
    requires forall j :: 0 <= j < |ws| && ws[j] > 0.0 && j < |rig.joints| ==>
      rig.joints[j] in rig.bindPose && rig.joints[j] in rig.deformedPose &&
      rig.bindPose[rig.joints[j]] == rig.deformedPose[rig.joints[j]] && Invertible(rig.bindPose[rig.joints[j]])
    ensures Blend(ws, rig, inverse) == Scale(PositiveSum(ws), Identity)
  {
    if ws == [] {
      ScaleUnit(0.0, Identity);
    } else {
      var j := |ws| - 1;
      var s, w := PositiveSum(ws[..j]), ws[j];
      assert w > 0.0 ==> PositiveSum(ws) == s + w;
      assert w <= 0.0 ==> PositiveSum(ws) == s;
      BlendStillPose(ws[..j], rig, inverse);
      if w > 0.0 {
        StillJointDeformation(rig.bindPose[rig.joints[j]], inverse);
        StillStep(s, w, PositiveSum(ws), Blend(ws[..j], rig, inverse), JointDeformation(j, rig, inverse));
      }
    }
  }

  /** One more unmoved joint on top of BlendStillPose's prefix. */
  lemma StillStep(s: real, w: real, total: real, rest: Mat4, d: Mat4)
    requires rest == Scale(s, Identity) && d == Identity && total == s + w
    ensures Add(rest, Scale(w, d)) == Scale(total, Identity)
  {
    AddScales(s, w, Identity);
  }

  // ----- what the bind vertex is -----

  /** When the blend is invertible, the bind vertex is exactly the point
      that the blend carries to the source point, and the only one. */
  lemma BindVertexUndoesBlend(p: Vec4, ws: seq<real>, rig: Rig, inverse: Mat4 -> Mat4)
    requires InverseOp(inverse) && Resolvable(ws, rig) && Invertible(Blend(ws, rig, inverse))
    ensures Transform(BindVertex(p, ws, rig, inverse), Blend(ws, rig, inverse)) == p
    ensures forall q :: Transform(q, Blend(ws, rig, inverse)) == p ==> q == BindVertex(p, ws, rig, inverse)
  {
    var m := Blend(ws, rig, inverse);
    TransformInverse(p, m, inverse(m));
    forall q | Transform(q, m) == p ensures q == BindVertex(p, ws, rig, inverse) {
      TransformInverse(q, m, inverse(m));
    }
  }

  /** Scaling every weight by c > 0 divides the bind vertex by c: the
      reconstruction reproduces whatever weight sum it is given. */
  lemma BindVertexScaledWeights(c: real, p: Vec4, ws: seq<real>, rig: Rig, inverse: Mat4 -> Mat4)
    requires c > 0.0 && InverseOp(inverse) && Resolvable(ws, rig) && Invertible(Blend(ws, rig, inverse))
    ensures Resolvable(ScaleWeights(c, ws), rig)
    ensures BindVertex(p, ScaleWeights(c, ws), rig, inverse) == VScale(1.0 / c, BindVertex(p, ws, rig, inverse))
  {
    var m := Blend(ws, rig, inverse);
    BlendScaled(c, ws, rig, inverse);
    ScaledInverse(c, m, inverse(m));
    InverseOfKnown(inverse, Scale(c, m), Scale(1.0 / c, inverse(m)));
    TransformScaleMatrix(p, 1.0 / c, inverse(m));
  }

  /** If no influencing joint moved, the bind vertex is the source point
      divided by the vertex's positive weight sum s; when s is 1 it is the
      source point itself. */
  lemma BindVertexStillPose(p: Vec4, ws: seq<real>, rig: Rig, inverse: Mat4 -> Mat4)
    requires InverseOp(inverse) && Resolvable(ws, rig)
    requires forall j :: 0 <= j < |ws| && ws[j] > 0.0 && j < |rig.joints| ==>
      rig.joints[j] in rig.bindPose && rig.joints[j] in rig.deformedPose &&
      rig.bindPose[rig.joints[j]] == rig.deformedPose[rig.joints[j]] && Invertible(rig.bindPose[rig.joints[j]])
    requires PositiveSum(ws) != 0.0
    ensures BindVertex(p, ws, rig, inverse) == VScale(1.0 / PositiveSum(ws), p)
    ensures PositiveSum(ws) == 1.0 ==> BindVertex(p, ws, rig, inverse) == p
  {
    var s := PositiveSum(ws);
    assert s == 1.0 ==> 1.0 / s == 1.0;
    BlendStillPose(ws, rig, inverse);
    ScaledIdentityInverse(s);
    InverseOfKnown(inverse, Scale(s, Identity), Scale(1.0 / s, Identity));
    TransformScaleMatrix(p, 1.0 / s, Identity);
    TransformIdentity(p);
    VScaleUnit(p);
  }

  /** A deformation built from two invertible poses is invertible. */
  lemma DeformationInvertible(bind: Mat4, deformed: Mat4, inverse: Mat4 -> Mat4)
    requires InverseOp(inverse) && Invertible(bind) && Invertible(deformed)
    ensures IsInverse(Deformation(bind, deformed, inverse), Deformation(deformed, bind, inverse))
  {
    var bi, di := inverse(bind), inverse(deformed);
    MulAssoc(Mul(bi, deformed), di, bind);
    MulAssoc(bi, deformed, di);
    MulIdentity(bi);
    MulAssoc(Mul(di, bind), bi, deformed);
    MulAssoc(di, bind, bi);
    MulIdentity(di);
  }

  /** A point held rigidly by one joint (local coordinates q) is carried by
      the deformation from its bind position to its deformed position. */
  lemma DeformationCarriesJoint(q: Vec4, bind: Mat4, deformed: Mat4, inverse: Mat4 -> Mat4)
    requires InverseOp(inverse) && Invertible(bind)
    ensures Transform(Transform(q, bind), Deformation(bind, deformed, inverse)) == Transform(q, deformed)
  {
    TransformMul(Transform(q, bind), inverse(bind), deformed);
    TransformInverse(q, bind, inverse(bind));
  }

  /** A vertex fully weighted (w = 1) to a single joint whose two poses are
      invertible is sent back exactly along that joint's motion: the bind
      vertex is source * inverse(inverse(B) * D), and moving it through
      the joint's bind pose to its deformed pose gives the source point. */
  lemma BindVertexSingleInfluence(p: Vec4, ws: seq<real>, j: nat, rig: Rig, inverse: Mat4 -> Mat4)
    requires InverseOp(inverse) && Resolvable(ws, rig)
    requires j < |ws| && ws[j] == 1.0
    requires forall i :: 0 <= i < |ws| && i != j ==> ws[i] <= 0.0
    requires j < |rig.joints| && rig.joints[j] in rig.bindPose && rig.joints[j] in rig.deformedPose
    requires Invertible(rig.bindPose[rig.joints[j]]) && Invertible(rig.deformedPose[rig.joints[j]])
    ensures BindVertex(p, ws, rig, inverse) == Transform(p, inverse(JointDeformation(j, rig, inverse)))
    ensures Transform(Transform(BindVertex(p, ws, rig, inverse), inverse(rig.bindPose[rig.joints[j]])),
                      rig.deformedPose[rig.joints[j]]) == p
  {
    var joint := rig.joints[j];
    var b, d := rig.bindPose[joint], rig.deformedPose[joint];
    var s := JointDeformation(j, rig, inverse);
    BlendSingleInfluence(ws, j, rig, inverse);
    ScaleUnit(0.0, s);
    DeformationInvertible(b, d, inverse);
    assert Invertible(s);
    var q := BindVertex(p, ws, rig, inverse);
    TransformMul(q, inverse(b), d);
    TransformInverse(p, s, inverse(s));
  }

  // ----- an end-to-end case -----

  /** A joint whose deformed pose is its bind pose followed by m has
      deformation m. */
  lemma DeformationOfRelativeMove(bind: Mat4, m: Mat4, inverse: Mat4 -> Mat4)
    requires InverseOp(inverse) && Invertible(bind)
    ensures Deformation(bind, Mul(bind, m), inverse) == m
  {
    assert IsInverse(bind, inverse(bind));
    MulAssoc(inverse(bind), bind, m);
    MulIdentityLeft(m);
  }

  /** The bind vertex of the chunk [1.0, 0.0] is the source point
      transformed by the inverse of influence 0's deformation. */
  lemma BlendOfFirstInfluence(p: Vec4, rig: Rig, inverse: Mat4 -> Mat4)
    requires |rig.joints| >= 1 && rig.joints[0] in rig.bindPose && rig.joints[0] in rig.deformedPose
    ensures Resolvable([1.0, 0.0], rig)
    ensures Blend([1.0, 0.0], rig, inverse) == JointDeformation(0, rig, inverse)
  {
    var ws := [1.0, 0.0];
    var s := JointDeformation(0, rig, inverse);
    assert ws[..1] == [1.0];
    assert [1.0][..0] == [];
    assert Blend(ws, rig, inverse) == Blend([1.0], rig, inverse);
    assert Blend([1.0], rig, inverse) == Add(Zero, Scale(1.0, s));
    ScaleUnit(1.0, s);
  }

  /** A point with w = 1 translated by (0, 0, -5). */
  lemma TranslateDown(p: Vec4)
    requires p.w == 1.0
    ensures Transform(p, Translation(0.0, 0.0, -5.0)) == Vec4(p.x, p.y, p.z - 5.0, 1.0)
  {
    assert p.x + p.w * 0.0 == p.x && p.y + p.w * 0.0 == p.y && p.z + p.w * -5.0 == p.z - 5.0;
    TransformTranslation(p, 0.0, 0.0, -5.0);
  }

  /** Moving a point with w = 1 by the host inverse of a (0, 0, 5)
      translation moves it by (0, 0, -5). */
  lemma UndoTranslation(p: Vec4, inverse: Mat4 -> Mat4)
    requires InverseOp(inverse) && p.w == 1.0
    ensures Transform(p, inverse(Translation(0.0, 0.0, 5.0))) == Vec4(p.x, p.y, p.z - 5.0, 1.0)
  {
    assert 0.0 + 0.0 == 0.0 && 5.0 + -5.0 == 0.0;
    InverseOfTranslation(inverse, 0.0, 0.0, 5.0, 0.0, 0.0, -5.0);
    TranslateDown(p);
  }

  /** One vertex fully weighted to influence 0, whose joint moves by
      (0, 0, 5) in world space between the bind pose and the deformed pose,
      is moved back by (0, 0, -5). */
  lemma TranslatedVertex(p: Vec4, rig: Rig, inverse: Mat4 -> Mat4)
    requires InverseOp(inverse) && p.w == 1.0
    requires |rig.joints| >= 1 && rig.joints[0] in rig.bindPose && rig.joints[0] in rig.deformedPose
    requires Invertible(rig.bindPose[rig.joints[0]])
    requires rig.deformedPose[rig.joints[0]] == Mul(rig.bindPose[rig.joints[0]], Translation(0.0, 0.0, 5.0))
    ensures Resolvable([1.0, 0.0], rig)
    ensures BindVertex(p, [1.0, 0.0], rig, inverse) == Vec4(p.x, p.y, p.z - 5.0, 1.0)
  {
    var t := Translation(0.0, 0.0, 5.0);
    UndoTranslation(p, inverse);
    BlendOfFirstInfluence(p, rig, inverse);
    DeformationOfRelativeMove(rig.bindPose[rig.joints[0]], t, inverse);
    assert Blend([1.0, 0.0], rig, inverse) == t;
  }

  /** Two joints, four vertices each fully weighted (w = 1.0) to the first
      joint, which moves by (0, 0, 5) between the bind pose and the deformed
      pose: every reconstructed vertex is the source vertex minus (0, 0, 5). */
  lemma TranslatedJointScenario(points: seq<Vec4>, rig: Rig, inverse: Mat4 -> Mat4)
    requires InverseOp(inverse)
    requires |points| == 4 && forall k :: 0 <= k < 4 ==> points[k].w == 1.0
    requires |rig.joints| == 2 && rig.joints[0] in rig.bindPose && rig.joints[0] in rig.deformedPose
    requires Invertible(rig.bindPose[rig.joints[0]])
    requires rig.deformedPose[rig.joints[0]] == Mul(rig.bindPose[rig.joints[0]], Translation(0.0, 0.0, 5.0))
    ensures ChunkCount(8, 2) == 4
    ensures forall k :: 0 <= k < 4 ==>
      var ws := Chunk([1.0, 0.0, 1.0, 0.0, 1.0, 0.0, 1.0, 0.0], 2, k);
      Resolvable(ws, rig) &&
      BindVertex(points[k], ws, rig, inverse) == Vec4(points[k].x, points[k].y, points[k].z - 5.0, 1.0)
  {
    var weights := [1.0, 0.0, 1.0, 0.0, 1.0, 0.0, 1.0, 0.0];
    forall k | 0 <= k < 4
      ensures var ws := Chunk(weights, 2, k);
        Resolvable(ws, rig) &&
        BindVertex(points[k], ws, rig, inverse) == Vec4(points[k].x, points[k].y, points[k].z - 5.0, 1.0)
    {
      var ws := Chunk(weights, 2, k);
      assert weights[2 * k] == 1.0 && weights[2 * k + 1] == 0.0 by {
        assert k == 0 || k == 1 || k == 2 || k == 3;
      }
      assert ws == [1.0, 0.0];
      TranslatedVertex(points[k], rig, inverse);
    }
  }
}
