/** The body of reconstruct_bind_mesh: finding the skin cluster among the
    mesh's source connections, caching the bind and deformed poses of its
    influence joints, and the per-vertex loop that maps every deformed
    vertex back into bind space.

    The host scene is reached only through parameters: `nodeType` answers
    what cmds.nodeType answers for a plug, `skinClusters` what the skin
    cluster reports (its influences, its flat weight array and its
    influence count), `bindWorld` and `deformedWorld` the world matrix of a
    joint at the bind-pose time and at the deformed time, and `inverse` the
    host's matrix inverse. */
module BindMesh {
  import opened Matrix
  import opened Skinning

  datatype Option<T> = None | Some(value: T)

  /** The node type the connection search looks for. */
  const SkinClusterType: string := "skinCluster"

  // ----- the skin-cluster name -----

  /** `s.split('.')[0]`: the longest prefix of s without a '.'. */
  function BeforeDot(s: string): (r: string)
    ensures r <= s && '.' !in r
    ensures |r| < |s| ==> s[|r|] == '.'
  {
    if s == [] || s[0] == '.' then [] else [s[0]] + BeforeDot(s[1..])
  }

  /** A plug "node.attribute" names the node before its first '.'. */
  lemma {:induction false} BeforeDotOfPlug(node: string, attribute: string)
    requires '.' !in node
    ensures BeforeDot(node + "." + attribute) == node
  {
    if node != [] {
      assert (node + "." + attribute)[1..] == node[1..] + "." + attribute;
      BeforeDotOfPlug(node[1..], attribute);
    }
  }

  /** Connection k is the first one whose node is a skin cluster. */
  predicate IsFirstSkinCluster(connections: seq<string>, nodeType: string -> string, k: nat) {
    k < |connections| && nodeType(connections[k]) == SkinClusterType &&
    forall i :: 0 <= i < k ==> nodeType(connections[i]) != SkinClusterType
  }

  /** The index of the first skin-cluster connection, if there is one. */
  function FirstSkinClusterIndex(connections: seq<string>, nodeType: string -> string): (r: Option<nat>)
    ensures r.None? <==> forall k :: 0 <= k < |connections| ==> nodeType(connections[k]) != SkinClusterType
    ensures forall k: nat :: r == Some(k) <==> IsFirstSkinCluster(connections, nodeType, k)
    decreases |connections|
  {
    if connections == [] then None
    else if nodeType(connections[0]) == SkinClusterType then Some(0)
    else
      match FirstSkinClusterIndex(connections[1..], nodeType)
      case None => None
      case Some(k) => Some(k + 1)
  }

  /** The skin-cluster name the search settles on: the node part of the
      first skin-cluster connection, or None. */
  function SkinClusterName(connections: seq<string>, nodeType: string -> string): Option<string> {
    match FirstSkinClusterIndex(connections, nodeType)
    case None => None
    case Some(k) => Some(BeforeDot(connections[k]))
  }

  /** Python's `if skin_cluster_name:` -- None and "" are both false. */
  predicate Truthy(name: Option<string>) {
    name.Some? && name.value != ""
  }

  /** The search loop: the first connection whose node type is skinCluster,
      cut before its first '.'; None when no connection matches. */
  method FindSkinCluster(connections: seq<string>, nodeType: string -> string) returns (name: Option<string>)
    ensures name.None? <==> forall k :: 0 <= k < |connections| ==> nodeType(connections[k]) != SkinClusterType
    ensures name.Some? ==> exists k: nat :: IsFirstSkinCluster(connections, nodeType, k) && name.value == BeforeDot(connections[k])
    ensures name == SkinClusterName(connections, nodeType)
  {
    name := None;
    var i := 0;
    while i < |connections|
      invariant 0 <= i <= |connections|
      invariant forall k :: 0 <= k < i ==> nodeType(connections[k]) != SkinClusterType
    {
      if nodeType(connections[i]) == SkinClusterType {
        assert IsFirstSkinCluster(connections, nodeType, i);
        name := Some(BeforeDot(connections[i]));
        break;
      }
      i := i + 1;
    }
  }

  // ----- the pose caches -----

  /** The pose of `joints` at one time: each joint to its world matrix. */
  function Snapshot(joints: seq<Joint>, worldMatrix: Joint -> Mat4): Pose {
    map j | j in joints :: worldMatrix(j)
  }

  /** A cache holding exactly the joints, each with its world matrix, is the snapshot. */
  lemma CacheIsSnapshot(cache: Pose, joints: seq<Joint>, worldMatrix: Joint -> Mat4)
    requires cache.Keys == set j | j in joints
    requires forall j :: j in cache ==> cache[j] == worldMatrix(j)
    ensures cache == Snapshot(joints, worldMatrix)
  {
    var s := Snapshot(joints, worldMatrix);
    assert cache.Keys == s.Keys;
    assert forall j :: j in cache ==> cache[j] == s[j];
  }

  /** One pose-cache loop: a dictionary filled joint by joint; a joint
      listed twice is written twice with the same matrix. */
  method CachePose(joints: seq<Joint>, worldMatrix: Joint -> Mat4) returns (cache: Pose)
    ensures cache.Keys == set j | j in joints
    ensures forall j :: j in cache ==> cache[j] == worldMatrix(j)
    ensures cache == Snapshot(joints, worldMatrix)
  {
    cache := map[];
    for i := 0 to |joints|
      invariant cache.Keys == set j | j in joints[..i]
      invariant forall j :: j in cache ==> cache[j] == worldMatrix(j)
    {
      var joint := joints[i];
      var m := worldMatrix(joint);
      assert joints[..i + 1] == joints[..i] + [joint];
      cache := cache[joint := m];
    }
    assert joints[..|joints|] == joints;
    CacheIsSnapshot(cache, joints, worldMatrix);
  }

  /** The rig the loop sees: the influences and their two cached poses. */
  function SceneRig(joints: seq<Joint>, bindWorld: Joint -> Mat4, deformedWorld: Joint -> Mat4): Rig {
    Rig(joints, Snapshot(joints, bindWorld), Snapshot(joints, deformedWorld))
  }

  /** Every positive weight belongs to an influence the joint list has. */
  predicate InfluencesListed(weights: seq<real>, n: nat, joints: seq<Joint>) {
    n > 0 && forall i :: 0 <= i < |weights| && weights[i] > 0.0 ==> i % n < |joints|
  }

  /** Both caches hold every influence, so only the joint list can fail a lookup. */
  lemma SceneRigResolvable(weights: seq<real>, n: nat, joints: seq<Joint>, bindWorld: Joint -> Mat4, deformedWorld: Joint -> Mat4)
    requires InfluencesListed(weights, n, joints)
    ensures WeightsResolvable(weights, n, SceneRig(joints, bindWorld, deformedWorld))
  {
    var rig := SceneRig(joints, bindWorld, deformedWorld);
    forall i | 0 <= i < |weights| && weights[i] > 0.0
      ensures rig.joints[i % n] in rig.bindPose && rig.joints[i % n] in rig.deformedPose
    {
      assert joints[i % n] in joints;
    }
  }

  // ----- the reconstruction loop -----

  /** The inner loop: the weighted skin matrix of one vertex, summed from
      the zero matrix over the influences with positive weight. */
  method BlendInfluences(vertexWeights: seq<real>, rig: Rig, inverse: Mat4 -> Mat4) returns (blend: Mat4)
    requires Resolvable(vertexWeights, rig)
    ensures blend == Blend(vertexWeights, rig, inverse)
  {
    blend := Zero;
    for j := 0 to |vertexWeights|
      invariant Resolvable(vertexWeights[..j], rig)
      invariant blend == Blend(vertexWeights[..j], rig, inverse)
    {
      var weight := vertexWeights[j];
      assert vertexWeights[..j + 1][..j] == vertexWeights[..j];
      if weight > 0.0 {
        var jointName := rig.joints[j];
        var currentJointMatrix := rig.deformedPose[jointName];
        var bindJointMatrix := rig.bindPose[jointName];
        var skinMatrix := Mul(inverse(bindJointMatrix), currentJointMatrix);
        blend := Add(blend, Scale(weight, skinMatrix));
      }
    }
    assert vertexWeights[..|vertexWeights|] == vertexWeights;
  }

  /** One iteration of the outer loop: the vertex's blend, then
      `cur_vertex * weighted_skin_matrix.inverse()`. */
  method ReconstructVertex(curVertex: Vec4, vertexWeights: seq<real>, rig: Rig, inverse: Mat4 -> Mat4)
    returns (bindVertex: Vec4)
    requires Resolvable(vertexWeights, rig)
    ensures bindVertex == BindVertex(curVertex, vertexWeights, rig, inverse)
  {
    var weightedSkinMatrix := BlendInfluences(vertexWeights, rig, inverse);
    bindVertex := Transform(curVertex, inverse(weightedSkinMatrix));
  }

  /** The outer loop: one bind vertex per chunk of n weights, in order,
      vertex k built from source point k and chunk k alone. */
  method ReconstructPoints(sourcePoints: seq<Vec4>, weights: seq<real>, numInfluences: nat, rig: Rig, inverse: Mat4 -> Mat4)
    returns (bindVerts: seq<Vec4>)
    requires WeightsResolvable(weights, numInfluences, rig)
    requires ChunkCount(|weights|, numInfluences) <= |sourcePoints|
    ensures |bindVerts| == ChunkCount(|weights|, numInfluences)
    ensures |weights| % numInfluences == 0 ==> |bindVerts| == |weights| / numInfluences
    ensures forall k :: 0 <= k < |bindVerts| ==>
      Resolvable(Chunk(weights, numInfluences, k), rig) &&
      bindVerts[k] == BindVertex(sourcePoints[k], Chunk(weights, numInfluences, k), rig, inverse)
  {
    var n := numInfluences;
    bindVerts := [];
    var vertexIndex := 0;
    var i := 0;
    while i < |weights|
      invariant i == vertexIndex * n
      invariant |bindVerts| == vertexIndex <= ChunkCount(|weights|, n)
      invariant forall k :: 0 <= k < vertexIndex ==>
        Resolvable(Chunk(weights, n, k), rig) &&
        bindVerts[k] == BindVertex(sourcePoints[k], Chunk(weights, n, k), rig, inverse)
      decreases |weights| - i
    {
      assert (vertexIndex + 1) * n == i + n;
      ChunkIndexInRange(|weights|, n, vertexIndex);
      var curVertex := sourcePoints[vertexIndex];
      var vertexWeights := weights[i .. if i + n <= |weights| then i + n else |weights|];
      assert vertexWeights == Chunk(weights, n, vertexIndex);
      ChunkResolvable(weights, n, vertexIndex, rig);
      var bindVertex := ReconstructVertex(curVertex, vertexWeights, rig, inverse);
      bindVerts := bindVerts + [bindVertex];
      vertexIndex := vertexIndex + 1;
      i := i + n;
    }
    ChunkCountLeast(|weights|, n, vertexIndex);
    if |weights| % n == 0 {
      ChunkCountWhenDivisible(|weights|, n);
    }
  }

  // ----- the whole body -----

  /** What the skin cluster reports: its influence joints, its flat
      per-vertex weight array and the number of influences per vertex. */
  datatype SkinClusterData = SkinClusterData(joints: seq<Joint>, weights: seq<real>, numInfluences: nat)

  /** The skin cluster's data fits the mesh: a positive influence count,
      no more chunks than source points, every positive weight on a listed
      influence. */
  predicate Reconstructible(data: SkinClusterData, vertexCount: nat) {
    InfluencesListed(data.weights, data.numInfluences, data.joints) &&
    ChunkCount(|data.weights|, data.numInfluences) <= vertexCount
  }

  /** reconstruct_bind_mesh: None when no usable skin-cluster name is found
      (nothing is reconstructed); otherwise the bind-space points, one per
      weight chunk, vertex k being source point k mapped back through the
      blend of chunk k over the two cached poses. */
  method ReconstructBindMesh(connections: seq<string>, nodeType: string -> string,
                             skinClusters: string -> SkinClusterData,
                             bindWorld: Joint -> Mat4, deformedWorld: Joint -> Mat4,
                             sourcePoints: seq<Vec4>, inverse: Mat4 -> Mat4)
    returns (result: Option<seq<Vec4>>)
    requires Truthy(SkinClusterName(connections, nodeType)) ==>
      Reconstructible(skinClusters(SkinClusterName(connections, nodeType).value), |sourcePoints|)
    ensures result.None? <==> !Truthy(SkinClusterName(connections, nodeType))
    ensures result.Some? ==>
      var data := skinClusters(SkinClusterName(connections, nodeType).value);
      var n := data.numInfluences;
      var rig := SceneRig(data.joints, bindWorld, deformedWorld);
      n > 0 && |result.value| == ChunkCount(|data.weights|, n) &&
      forall k :: 0 <= k < |result.value| ==>
        Resolvable(Chunk(data.weights, n, k), rig) &&
        result.value[k] == BindVertex(sourcePoints[k], Chunk(data.weights, n, k), rig, inverse)
  {
    var skinClusterName := FindSkinCluster(connections, nodeType);
    if skinClusterName.Some? && skinClusterName.value != "" {
      var data := skinClusters(skinClusterName.value);
      var joints := data.joints;
      var cachedBindPose := CachePose(joints, bindWorld);
      var cachedDeformedPose := CachePose(joints, deformedWorld);
      var rig := Rig(joints, cachedBindPose, cachedDeformedPose);
      SceneRigResolvable(data.weights, data.numInfluences, joints, bindWorld, deformedWorld);
      var bindVerts := ReconstructPoints(sourcePoints, data.weights, data.numInfluences, rig, inverse);
      result := Some(bindVerts);
    } else {
      result := None;
    }
  }
}
