# Bind-mesh reconstruction, modelled in Dafny

`reconstruct_bind_mesh` rebuilds the bind-pose shape of a skinned mesh whose
skin cluster was bound with the wrong bind pose. It does this by running
linear-blend skinning backwards:

1. It looks for the mesh's skin cluster among the source connections of the
   mesh. The name is the node part of the first plug whose node type is
   `skinCluster`.
2. It caches the world matrix of every influence joint twice: once at the
   bind-pose time (B) and once at the deformed time (D).
3. It walks the flat per-vertex weight array in chunks of `num_influences`.
   For each vertex it sums `weight * (inverse(B[joint]) * D[joint])` over the
   influences with a strictly positive weight, starting from the zero matrix.
   It then maps the deformed vertex back into bind space as
   `vertex * inverse(blend)`.

The model has three modules:

- `Matrix` (Matrix.dfy) holds 4x4 matrices and homogeneous points over the
  reals, in the row-vector convention of Maya's `MMatrix` and `MPoint`:
  `p * M` is `Transform(p, M)` and `A * B` is `Mul(A, B)`. The host's matrix
  inverse is a foreign operation, so it is a parameter `inverse: Mat4 -> Mat4`.
  The predicate `InverseOp(inverse)` states what that parameter must do: it
  returns a two-sided inverse of every invertible matrix.
- `Skinning` (Skinning.dfy) holds the per-vertex computation as
  specification functions (`Chunk`, `Blend`, `BindVertex`) and the
  properties the reconstruction has.
- `BindMesh` (BindMesh.dfy) holds the body of `reconstruct_bind_mesh` as
  methods with loops, each proved against those functions:
  - the skin-cluster search;
  - the two pose-cache loops;
  - the inner blend loop and the outer vertex loop;
  - the whole body, with its no-op branch.

  The host scene is reached only through parameters:
  - `nodeType` stands for `cmds.nodeType`;
  - `skinClusters` gives what the skin cluster reports: its influences,
    weights and influence count;
  - `bindWorld` and `deformedWorld` stand for `cmds.xform` at the two times.

Points of the code's behaviour worth stating:

- Every weight `<= 0.0` is skipped, not only zero weights.
- The code never checks whether the blend is singular. It inverts whatever
  blend it has, so the methods do not require an invertible blend. Every
  property about the inverse is stated under `Invertible(blend)`. A vertex
  with no positive weight has the zero matrix as its blend, which is
  singular (`NoInfluenceSingular`), so its output is whatever the host
  inverse returns for it.
- Weights are never renormalised.
- `if skin_cluster_name:` is Python truthiness, so an empty name (a plug
  that starts with `.`) also skips the reconstruction.

## Model

| member | source | states |
|---|---|---|
| Skinning.ChunkIndexInRange | reconstruct_bind_mesh.py:168 | `range(0, len(weights), n)` reaches chunk k exactly when k*n < len(weights) (both directions) |
| Skinning.ChunkCountLeast | reconstruct_bind_mesh.py:168 | no fewer than ChunkCount chunks of n can cover the weight array |
| Skinning.ChunkCountBounds | reconstruct_bind_mesh.py:168 | ChunkCount chunks cover the weights and one fewer would not |
| Skinning.ChunkCountOf | reconstruct_bind_mesh.py:168 | ChunkCount is the unique c with c*n >= len > (c-1)*n |
| Skinning.ChunkCountExact | reconstruct_bind_mesh.py:168 | c*n weights give exactly c vertices |
| Skinning.ChunkCountWhenDivisible | reconstruct_bind_mesh.py:168 | when n divides len(weights) there are len(weights)/n vertices |
| Skinning.Chunk | reconstruct_bind_mesh.py:168-170 | vertex k's weights are `weights[k*n : k*n+n]`, element j being `weights[k*n+j]`, non-empty, cut short only at the end of the array |
| Skinning.ChunkResolvable | reconstruct_bind_mesh.py:170-176 | offset j of every chunk is influence j, so a weight array whose positive weights all name cached joints gives chunks that do too |
| Skinning.BlendIgnoresNonPositive | reconstruct_bind_mesh.py:172-178 | weights `<= 0`, negative ones included, contribute nothing: rows agreeing on their positive weights have the same blend |
| Skinning.BlendOfNoInfluence | reconstruct_bind_mesh.py:171-178 | with no positive weight the blend stays the zero matrix it starts from |
| Skinning.NoInfluenceSingular | reconstruct_bind_mesh.py:171-179 | a vertex with no positive weight has a singular blend, so the round trip of line 179 does not hold for it |
| Skinning.BlendSingleInfluence | reconstruct_bind_mesh.py:171-178 | a single positive weight w on influence j gives blend w * (inverse(B[joints[j]]) * D[joints[j]]), both poses looked up with joints[j] |
| Skinning.BlendScaled | reconstruct_bind_mesh.py:171-178 | the blend is a literal weighted sum: scaling every weight by c > 0 scales the blend by c (no renormalisation) |
| Skinning.StillJointDeformation | reconstruct_bind_mesh.py:177 | a joint with B == D (B invertible) has the identity as its skin matrix |
| Skinning.BlendStillPose | reconstruct_bind_mesh.py:171-178 | if no influencing joint moved, the blend is (sum of positive weights) * I |
| Skinning.BindVertexUndoesBlend | reconstruct_bind_mesh.py:179 | for an invertible blend, `bind_vertex * blend == cur_vertex`, and bind_vertex is the only point with that property |
| Skinning.BindVertexScaledWeights | reconstruct_bind_mesh.py:171-179 | scaling a vertex's weights by c > 0 divides all four homogeneous coordinates of its bind vertex by c, w included; read as a position (x/w, y/w, z/w) the point does not move (see the `w` line under "## Left out") |
| Skinning.BindVertexStillPose | reconstruct_bind_mesh.py:171-179 | if no influencing joint moved, the bind vertex is the source point with all four homogeneous coordinates, w included, divided by the positive weight sum s, so read as a position (x/w, y/w, z/w) it is the source point; it is the source point itself when s is 1 (see the `w` line under "## Left out") |
| Skinning.DeformationInvertible | reconstruct_bind_mesh.py:177 | `inverse(B) * D` has inverse `inverse(D) * B` when both poses are invertible |
| Skinning.DeformationCarriesJoint | reconstruct_bind_mesh.py:177 | `inverse(B) * D` carries a point held by the joint from its bind position to its deformed position |
| Skinning.BindVertexSingleInfluence | reconstruct_bind_mesh.py:172-179 | a vertex weighted 1.0 to one joint maps to `p * inverse(inverse(B) * D)`, and moving it through B^-1 then D gives p back |
| Skinning.DeformationOfRelativeMove | reconstruct_bind_mesh.py:177 | a joint whose deformed pose is its bind pose followed by m has skin matrix m |
| Skinning.TranslatedVertex | reconstruct_bind_mesh.py:169-179 | a vertex weighted [1.0, 0.0] whose joint moved by (0, 0, 5) is moved back by (0, 0, -5) |
| Skinning.TranslatedJointScenario | reconstruct_bind_mesh.py:165-181 | four vertices, two influences, weights [1,0,1,0,1,0,1,0], joint 0 moved by (0, 0, 5): four chunks, each vertex moved back by (0, 0, -5) |
| Matrix.TransformMul | reconstruct_bind_mesh.py:177-179 | `(p * A) * B == p * (A * B)` |
| Matrix.MulAssoc | reconstruct_bind_mesh.py:177 | the matrix product is associative |
| Matrix.InverseUnique | reconstruct_bind_mesh.py:177 | a matrix has at most one two-sided inverse |
| Matrix.InverseOfKnown | reconstruct_bind_mesh.py:177 | the host inverse returns the known inverse of an invertible matrix |
| Matrix.MulZero | reconstruct_bind_mesh.py:171 | the zero matrix the blend starts from times any matrix is the zero matrix |
| Matrix.ZeroSingular | reconstruct_bind_mesh.py:171 | the zero matrix the blend starts from has no inverse |
| Matrix.TransformInverse | reconstruct_bind_mesh.py:179 | multiplying a point by a matrix and then by its inverse (either order) gives the point back |
| Matrix.ScaledInverse | reconstruct_bind_mesh.py:178-179 | c * M with c != 0 has inverse (1/c) * inverse(M) |
| Matrix.InverseOfTranslation | reconstruct_bind_mesh.py:177 | the host inverse of a translation is the opposite translation |
| BindMesh.BeforeDot | reconstruct_bind_mesh.py:131 | `split('.')[0]` is the longest prefix of the plug without a '.' |
| BindMesh.BeforeDotOfPlug | reconstruct_bind_mesh.py:131 | the plug "node.attribute" gives "node" |
| BindMesh.FirstSkinClusterIndex | reconstruct_bind_mesh.py:129-132 | Some(k) exactly when k is the first connection typed skinCluster; None exactly when none is |
| BindMesh.FindSkinCluster | reconstruct_bind_mesh.py:128-132 | the loop with `break` returns the node part of the first skinCluster connection, and None iff no connection is a skin cluster |
| BindMesh.CachePose | reconstruct_bind_mesh.py:143-153 | each pose cache has exactly the influence joints as keys, each mapped to its world matrix at that time (a repeated joint is harmless) |
| BindMesh.CacheIsSnapshot | reconstruct_bind_mesh.py:143-153 | a cache with those keys and values is the pose snapshot |
| BindMesh.SceneRigResolvable | reconstruct_bind_mesh.py:143-153 | both caches hold every influence, so a positive weight only needs its offset to be below the number of joints |
| BindMesh.BlendInfluences | reconstruct_bind_mesh.py:171-178 | the inner loop computes Blend of the vertex's weights |
| BindMesh.ReconstructVertex | reconstruct_bind_mesh.py:171-179 | one vertex becomes `cur_vertex * inverse(blend)` |
| BindMesh.ReconstructPoints | reconstruct_bind_mesh.py:165-181 | one output point per weight chunk (len/n when n divides len), in order, point k computed from source point k and chunk k alone |
| BindMesh.ReconstructBindMesh | reconstruct_bind_mesh.py:128-193 | no points when there is no skin-cluster name or it is empty; otherwise exactly the points of ReconstructPoints over the two cached poses |

## Left out

- Maya API plumbing is not part of this model: `force_get_shape`, `get_dag_path`, `get_mobject`, `get_mfn_mesh` and `get_skin_cluster_mobject` (reconstruct_bind_mesh.py:6-29). They are foreign calls.
- `get_skin_weights`, `set_skin_weights` and the weight copy onto the new skin cluster (reconstruct_bind_mesh.py:31-88, 185-190) are left out. They only move arrays between host objects.
- Scene mutation is left out: deleting, duplicating and renaming the mesh, `setPoints`, and binding the new skin cluster (reconstruct_bind_mesh.py:117-124, 183, 189). The output of the model is the point list that `setPoints` receives.
- Timeline moves (`cmds.currentTime`) are left out. The two poses are given as two joint-to-matrix functions, one per sampled time.
- Floating point is left out. Matrices and points are over the reals, and the host inverse is abstract: nothing is said about what it returns for a singular matrix.
- The homogeneous `w` of `MPoint` is carried as a plain fourth coordinate. The model does not divide x, y and z by `w`, so a result with `w != 1` is the position (x/w, y/w, z/w); BindVertexScaledWeights and BindVertexStillPose state their results in these homogeneous coordinates.
- `cmds.listConnections` returning `None` (no connections at all) is modelled as an empty connection list. The source would fail on it instead.
- Failures that the source does not handle are modelled as preconditions rather than error results:
  - `num_influences == 0` (an error in `range`);
  - more weight chunks than source points (`source_points[vertex_index]` out of range);
  - a positive weight whose offset has no joint (`joints[j]` out of range).
  A missing joint in `cmds.xform` is not modelled, since the joint-to-matrix parameters are total.
- Timing, printing and the module-level driver (reconstruct_bind_mesh.py:106, 167, 193, 195-206) are left out.
- ReconstructBindMesh does not require an invertible blend. What the inverse of a singular blend yields is whatever the abstract `inverse` returns.
