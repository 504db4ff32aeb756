/**
  The cluster light-list reader and the colour accumulation of the shader's `main`:
  the pixel's cluster index is linearised from its slice coordinates, the light count is
  float 0 of that cluster's record, and the loop reads light ids from floats 1, 2, ... of
  the record, stopping once it passes the count and in any case before float
  `4 * clusterTextureHeight - 1`. Each id is decoded into a light whose contribution
  is added to the colour; the ambient term is added last.
*/
module Deferred {
  import opened Texture
  import opened Extract
  import opened Lights
  import opened Cluster

  function Add(a: Vec3, b: Vec3): Vec3 {
    Vec3(a.x + b.x, a.y + b.y, a.z + b.z)
  }

  /** Component-wise product, GLSL's `vec3 * vec3`. */
  function Mul(a: Vec3, b: Vec3): Vec3 {
    Vec3(a.x * b.x, a.y * b.y, a.z * b.z)
  }

  const Black: Vec3 := Vec3(0.0, 0.0, 0.0)
  const AmbientLight: Vec3 := Vec3(0.025, 0.025, 0.025)

  /** The cluster texture as the shader addresses it: record width and height come from the host. */
  predicate IsClusterTexture(clusterBuffer: Grid, clusterTextureWidth: int, clusterTextureHeight: int) {
    IsTexture(clusterBuffer) && clusterTextureWidth > 0 && clusterTextureHeight > 0
  }

  /** `int(ExtractFloat(u_clusterbuffer, ..., index, 0))`: the light count of cluster `index`. */
  function LightCount(clusterBuffer: Grid, clusterTextureWidth: int, clusterTextureHeight: int, index: int): int
    requires IsClusterTexture(clusterBuffer, clusterTextureWidth, clusterTextureHeight)
  {
    Trunc(ExtractFloat(clusterBuffer, clusterTextureWidth, clusterTextureHeight, index, 0).value)
  }

  /** `int(ExtractFloat(u_clusterbuffer, ..., index, lightIndex))`: the light id held in float `lightIndex`. */
  function LightIdAt(clusterBuffer: Grid, clusterTextureWidth: int, clusterTextureHeight: int, index: int, lightIndex: nat): int
    requires IsClusterTexture(clusterBuffer, clusterTextureWidth, clusterTextureHeight)
  {
    Trunc(ExtractFloat(clusterBuffer, clusterTextureWidth, clusterTextureHeight, index, lightIndex).value)
  }

  /** The loop's fixed cap on reads: `lightIndex` runs from 1 while `lightIndex < clusterTextureHeight * 4 - 1`. */
  function MaxReads(clusterTextureHeight: int): int {
    clusterTextureHeight * 4 - 2
  }

  /** How many light ids the loop reads for a cluster whose count is `count`: the count clamped to `[0, MaxReads]`. */
  function ReadCount(count: int, clusterTextureHeight: int): int {
    if count <= 0 then 0
    else if count <= MaxReads(clusterTextureHeight) then count
    else MaxReads(clusterTextureHeight)
  }

  /**
    Every float the loop reads for ids, `k + 1` for `k < ReadCount(count, h)`, is past the
    count at float 0, at most the count, and below `4 * h - 1`: inside the record's `h` texels.
  */
  lemma ReadsStayInRecord(count: int, clusterTextureHeight: int, k: int)
    requires clusterTextureHeight > 0 && 0 <= k < ReadCount(count, clusterTextureHeight)
    ensures 1 <= k + 1 <= count && k + 1 < clusterTextureHeight * 4 - 1
    ensures (k + 1) / 4 < clusterTextureHeight
  {
  }

  /** The sum, in loop order, of the contributions of the lights with ids `ids`. */
  function Accumulated(lightBuffer: Grid, numLights: int, ids: seq<int>, shade: Light -> Vec3): Vec3
    requires IsTexture(lightBuffer) && numLights > 0
    decreases |ids|
  {
    if ids == [] then Black
    else Add(Accumulated(lightBuffer, numLights, ids[..|ids| - 1], shade),
             shade(UnpackLight(lightBuffer, numLights, ids[|ids| - 1])))
  }

  /** Adding one more light id adds that light's contribution. */
  lemma AccumulatedSnoc(lightBuffer: Grid, numLights: int, ids: seq<int>, lightId: int, shade: Light -> Vec3)
    requires IsTexture(lightBuffer) && numLights > 0
    ensures Accumulated(lightBuffer, numLights, ids + [lightId], shade)
         == Add(Accumulated(lightBuffer, numLights, ids, shade), shade(UnpackLight(lightBuffer, numLights, lightId)))
  {
    assert (ids + [lightId])[..|ids|] == ids;
  }

  /**
    The per-pixel light loop of `main`. The Blinn-Phong contribution of one decoded light
    is the parameter `shade`. Returns the colour and the light ids read, in order: the
    `k`-th id read is float `k + 1` of the cluster's record.
  */
  method ShadePixel(clusterBuffer: Grid, clusterTextureWidth: int, clusterTextureHeight: int,
                    lightBuffer: Grid, numLights: int,
                    sliceX: int, sliceY: int, sliceZ: int, xSlices: int, ySlices: int,
                    albedo: Vec3, shade: Light -> Vec3)
    returns (fragColor: Vec3, lightIds: seq<int>)
    requires IsClusterTexture(clusterBuffer, clusterTextureWidth, clusterTextureHeight)
    requires IsTexture(lightBuffer) && numLights > 0
    ensures var index := ClusterIndex(sliceX, sliceY, sliceZ, xSlices, ySlices);
            var count := LightCount(clusterBuffer, clusterTextureWidth, clusterTextureHeight, index);
            // the number of ids read: the count, clamped to [0, 4 * height - 2]
            && |lightIds| == ReadCount(count, clusterTextureHeight)
            // the k-th id comes from float k + 1 of the record: floats 1, 2, ... in increasing order
            && (forall k :: 0 <= k < |lightIds| ==>
                  lightIds[k] == LightIdAt(clusterBuffer, clusterTextureWidth, clusterTextureHeight, index, k + 1))
            // a count of zero or less reads no id, and the colour is then the ambient term alone
            && (count <= 0 ==> lightIds == [] && fragColor == Mul(albedo, AmbientLight))
    ensures fragColor == Add(Accumulated(lightBuffer, numLights, lightIds, shade), Mul(albedo, AmbientLight))
  {
    var index := ClusterIndex(sliceX, sliceY, sliceZ, xSlices, ySlices);
    var numLightsInCluster := LightCount(clusterBuffer, clusterTextureWidth, clusterTextureHeight, index);
    fragColor := Black;
    lightIds := [];
    var lightIndex := 1;
    while lightIndex < clusterTextureHeight * 4 - 1
      invariant 1 <= lightIndex <= clusterTextureHeight * 4 - 1
      invariant lightIndex == 1 || lightIndex - 1 <= numLightsInCluster
      invariant |lightIds| == lightIndex - 1
      invariant forall k :: 0 <= k < |lightIds| ==>
                  lightIds[k] == LightIdAt(clusterBuffer, clusterTextureWidth, clusterTextureHeight, index, k + 1)
      invariant fragColor == Accumulated(lightBuffer, numLights, lightIds, shade)
      decreases clusterTextureHeight * 4 - 1 - lightIndex
    {
      if lightIndex > numLightsInCluster {
        break;
      }
      var lightId := LightIdAt(clusterBuffer, clusterTextureWidth, clusterTextureHeight, index, lightIndex);
      var light := UnpackLight(lightBuffer, numLights, lightId);
      fragColor := Add(fragColor, shade(light));
      AccumulatedSnoc(lightBuffer, numLights, lightIds, lightId, shade);
      lightIds := lightIds + [lightId];
      lightIndex := lightIndex + 1;
    }
    fragColor := Add(fragColor, Mul(albedo, AmbientLight));
  }

  /**
    The record the upstream encoder writes for a cluster holding the lights `ids`: float 0
    is the count, floats `1 .. |ids|` the ids, the rest zero.
  */
  function ClusterRecord(ids: seq<int>, clusterTextureHeight: nat): (rec: seq<real>)
    requires |ids| <= 4 * clusterTextureHeight - 1
    ensures |rec| == 4 * clusterTextureHeight
  {
    seq(4 * clusterTextureHeight, j requires 0 <= j < 4 * clusterTextureHeight =>
      if j == 0 then |ids| as real else if j <= |ids| then ids[j - 1] as real else 0.0)
  }

  /**
    On a cluster texture packed from such records, the count read for cluster `index` is the
    number of its lights and float `k + 1` holds its `k`-th light id.
  */
  lemma PackedClusterRead(records: seq<seq<real>>, clusterTextureHeight: nat, index: int, ids: seq<int>)
    requires IsRecordArray(records, clusterTextureHeight)
    requires 0 <= index < |records| && |ids| <= 4 * clusterTextureHeight - 1
    requires records[index] == ClusterRecord(ids, clusterTextureHeight)
    ensures LightCount(Pack(records, clusterTextureHeight), |records|, clusterTextureHeight, index) == |ids|
    ensures forall k :: 0 <= k < |ids| ==>
              LightIdAt(Pack(records, clusterTextureHeight), |records|, clusterTextureHeight, index, k + 1) == ids[k]
  {
    ExtractRoundTrip(records, clusterTextureHeight, index, 0);
    TruncOfInteger(|ids|);
    forall k | 0 <= k < |ids|
      ensures LightIdAt(Pack(records, clusterTextureHeight), |records|, clusterTextureHeight, index, k + 1) == ids[k]
    {
      ExtractRoundTrip(records, clusterTextureHeight, index, k + 1);
      TruncOfInteger(ids[k]);
    }
  }

  /**
    The loop reads at most `4 * clusterTextureHeight - 2` ids, one fewer than the
    `4 * clusterTextureHeight - 1` floats a record has for ids: a cluster packed with
    that many lights has its last light read by no iteration.
  */
  lemma FullClusterLastLightUnread(records: seq<seq<real>>, clusterTextureHeight: nat, index: int, ids: seq<int>)
    requires IsRecordArray(records, clusterTextureHeight)
    requires 0 <= index < |records| && |ids| == 4 * clusterTextureHeight - 1
    requires records[index] == ClusterRecord(ids, clusterTextureHeight)
    ensures var count := LightCount(Pack(records, clusterTextureHeight), |records|, clusterTextureHeight, index);
            count == |ids| && ReadCount(count, clusterTextureHeight) == |ids| - 1
  {
    PackedClusterRead(records, clusterTextureHeight, index, ids);
  }
}
