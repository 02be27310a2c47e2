/**
 * A skeleton: an ordered list of bones, the flat buffer of skinning matrices
 * a skinned mesh reads, and an optional texture holding that buffer.
 *
 * Matrix arithmetic is not modelled: a matrix is any type `M`, and the
 * matrix library is a record of operations the skeleton is given
 * (`multiply`, `getInverse`, `toArray`, `decompose`), about which nothing is
 * assumed beyond what each lemma states.
 */
module Skeletons {
  import opened Wrappers

  /** The `type` tag of a bone node. */
  const BONE: string := "bone"

  /** The position, rotation and scale a matrix decomposes into. */
  datatype Transform = Transform(position: seq<real>, quaternion: seq<real>, scale: seq<real>)

  /** The 4x4 matrix operations the skeleton relies on. */
  datatype MatrixOps<!M> = MatrixOps(
    multiply: (M, M) -> M,     // a × b
    inverse: M -> M,           // getInverse
    elements: M -> seq<real>,  // the 16 entries toArray writes, in storage order
    decompose: M -> Transform)

  /** `toArray` always writes sixteen entries. */
  ghost predicate SixteenElements<M(!new)>(ops: MatrixOps<M>)
  {
    forall m :: |ops.elements(m)| == 16
  }

  /** A node of the scene graph as the skeleton uses it. */
  class Node<M> {
    /** The node's `type`: `BONE` for a bone, anything else for other objects. */
    const kind: string
    var name: string
    var parent: Node?<M>
    var matrix: M
    var worldMatrix: M
    /** The inverse of the bone's world matrix in the bind pose. */
    var offsetMatrix: M
    /** The position, quaternion and scale decomposed from `matrix`. */
    var transform: Transform

    constructor (kind: string, name: string, parent: Node?<M>, matrix: M, worldMatrix: M, offsetMatrix: M, transform: Transform)
      ensures this.kind == kind && this.name == name && this.parent == parent
      ensures this.matrix == matrix && this.worldMatrix == worldMatrix && this.offsetMatrix == offsetMatrix
      ensures this.transform == transform
    {
      this.kind := kind;
      this.name := name;
      this.parent := parent;
      this.matrix := matrix;
      this.worldMatrix := worldMatrix;
      this.offsetMatrix := offsetMatrix;
      this.transform := transform;
    }
  }

  /** The texture the bone matrices are uploaded through; only its version matters here. */
  class BoneTexture {
    var version: int

    constructor ()
      ensures version == 0
    {
      version := 0;
    }
  }

  /** The skinning matrix of one bone: its world matrix times its offset matrix, as sixteen entries. */
  function SkinEntries<M>(ops: MatrixOps<M>, world: M, offset: M): seq<real>
  {
    ops.elements(ops.multiply(world, offset))
  }

  /** Writes the sixteen entries of `entries` into `a` at `off` (Matrix4.toArray). */
  method WriteMatrix(a: array<real>, off: nat, entries: seq<real>)
    requires |entries| == 16 && off + 16 <= a.Length
    modifies a
    ensures a[off..off + 16] == entries
    ensures forall p :: 0 <= p < a.Length && !(off <= p < off + 16) ==> a[p] == old(a[p])
  {
    for k := 0 to 16
      invariant forall p :: off <= p < off + k ==> a[p] == entries[p - off]
      invariant forall p :: 0 <= p < a.Length && !(off <= p < off + k) ==> a[p] == old(a[p])
    {
      a[off + k] := entries[k];
    }
  }

  class Skeleton<M(!new)> {
    /** The bones, in the order their matrices appear in `boneMatrices`. */
    const bones: seq<Node<M>>
    /** Sixteen entries per bone. */
    const boneMatrices: array<real>
    var boneTexture: BoneTexture?

    predicate Valid()
    {
      boneMatrices.Length == 16 * |bones|
    }

    /** A skeleton over a copy of `bones` (none given: no bones), with a zeroed matrix buffer and no texture. */
    constructor (bones: Option<seq<Node<M>>>)
      ensures Valid()
      ensures this.bones == bones.GetOr([])
      ensures fresh(boneMatrices)
      ensures forall p :: 0 <= p < boneMatrices.Length ==> boneMatrices[p] == 0.0
      ensures boneTexture == null
    {
      this.bones := bones.GetOr([]);
      boneMatrices := new real[16 * |bones.GetOr([])|](_ => 0.0);
      boneTexture := null;
    }

    /**
     * Returns the skeleton to its bind pose: every bone's world matrix becomes
     * the inverse of its offset matrix, and only then is each bone's local
     * matrix derived from its world matrix and its parent's.
     */
    method Pose(ops: MatrixOps<M>)
      modifies (set b | b in bones)`worldMatrix, (set b | b in bones)`matrix, (set b | b in bones)`transform
      ensures forall i :: 0 <= i < |bones| ==> bones[i].worldMatrix == ops.inverse(bones[i].offsetMatrix)
      ensures forall i :: 0 <= i < |bones| && bones[i].parent != null && bones[i].parent.kind == BONE ==>
                bones[i].matrix == ops.multiply(ops.inverse(bones[i].parent.worldMatrix), bones[i].worldMatrix)
      ensures forall i :: 0 <= i < |bones| && (bones[i].parent == null || bones[i].parent.kind != BONE) ==>
                bones[i].matrix == bones[i].worldMatrix
      ensures forall i :: 0 <= i < |bones| ==> bones[i].transform == ops.decompose(bones[i].matrix)
      // A parent that is one of these bones is seen in its bind pose, whatever its position in the list.
      ensures forall i, k :: 0 <= i < |bones| && 0 <= k < |bones| && bones[i].parent == bones[k] && bones[k].kind == BONE ==>
                bones[i].matrix == ops.multiply(ops.inverse(ops.inverse(bones[k].offsetMatrix)), ops.inverse(bones[i].offsetMatrix))
    {
      ResetWorldMatrices(ops);
      DeriveLocalMatrices(ops);
    }

    /** The first pass of `Pose`: every bone's world matrix becomes the inverse of its offset matrix. */
    method ResetWorldMatrices(ops: MatrixOps<M>)
      modifies (set b | b in bones)`worldMatrix
      ensures forall i :: 0 <= i < |bones| ==> bones[i].worldMatrix == ops.inverse(bones[i].offsetMatrix)
    {
      for i := 0 to |bones|
        invariant forall j :: 0 <= j < i ==> bones[j].worldMatrix == ops.inverse(bones[j].offsetMatrix)
      {
        var bone := bones[i];
        bone.worldMatrix := ops.inverse(bone.offsetMatrix);
      }
    }

    /** The second pass of `Pose`: each bone's local matrix, relative to its parent bone if it has one. */
    method DeriveLocalMatrices(ops: MatrixOps<M>)
      modifies (set b | b in bones)`matrix, (set b | b in bones)`transform
      ensures forall i :: 0 <= i < |bones| && bones[i].parent != null && bones[i].parent.kind == BONE ==>
                bones[i].matrix == ops.multiply(ops.inverse(bones[i].parent.worldMatrix), bones[i].worldMatrix)
      ensures forall i :: 0 <= i < |bones| && (bones[i].parent == null || bones[i].parent.kind != BONE) ==>
                bones[i].matrix == bones[i].worldMatrix
      ensures forall i :: 0 <= i < |bones| ==> bones[i].transform == ops.decompose(bones[i].matrix)
    {
      for i := 0 to |bones|
        invariant forall j :: 0 <= j < i && bones[j].parent != null && bones[j].parent.kind == BONE ==>
                    bones[j].matrix == ops.multiply(ops.inverse(bones[j].parent.worldMatrix), bones[j].worldMatrix)
        invariant forall j :: 0 <= j < i && (bones[j].parent == null || bones[j].parent.kind != BONE) ==>
                    bones[j].matrix == bones[j].worldMatrix
        invariant forall j :: 0 <= j < i ==> bones[j].transform == ops.decompose(bones[j].matrix)
      {
        var bone := bones[i];
        if bone.parent != null && bone.parent.kind == BONE {
          bone.matrix := ops.multiply(ops.inverse(bone.parent.worldMatrix), bone.worldMatrix);
        } else {
          bone.matrix := bone.worldMatrix;
        }
        bone.transform := ops.decompose(bone.matrix);
      }
    }

    /**
     * Writes each bone's skinning matrix into its sixteen slots of
     * `boneMatrices`, and marks the bone texture, if any, as changed once.
     */
    method UpdateBones(ops: MatrixOps<M>)
      requires Valid() && SixteenElements(ops)
      modifies boneMatrices, boneTexture
      ensures forall p :: 0 <= p < boneMatrices.Length ==>
                boneMatrices[p] == SkinEntries(ops, bones[p / 16].worldMatrix, bones[p / 16].offsetMatrix)[p % 16]
      ensures boneTexture == old(boneTexture)
      ensures boneTexture != null ==> boneTexture.version == old(boneTexture.version) + 1
    {
      for i := 0 to |bones|
        invariant forall p :: 0 <= p < 16 * i ==>
                    boneMatrices[p] == SkinEntries(ops, bones[p / 16].worldMatrix, bones[p / 16].offsetMatrix)[p % 16]
        invariant boneTexture == old(boneTexture) && (boneTexture != null ==> boneTexture.version == old(boneTexture.version))
      {
        var bone := bones[i];
        var entries := SkinEntries(ops, bone.worldMatrix, bone.offsetMatrix);
        WriteMatrix(boneMatrices, 16 * i, entries);
        forall p | 16 * i <= p < 16 * (i + 1)
          ensures boneMatrices[p] == SkinEntries(ops, bones[p / 16].worldMatrix, bones[p / 16].offsetMatrix)[p % 16]
        {
          assert p / 16 == i && p % 16 == p - 16 * i;
          assert boneMatrices[16 * i..16 * i + 16][p - 16 * i] == boneMatrices[p];
        }
      }
      if boneTexture != null {
        boneTexture.version := boneTexture.version + 1;
      }
    }

    /** The first bone named `name`, or null when no bone has that name. */
    method GetBoneByName(name: string) returns (bone: Node?<M>)
      ensures bone == null <==> forall i :: 0 <= i < |bones| ==> bones[i].name != name
      ensures bone != null ==> exists i :: 0 <= i < |bones| && bones[i] == bone && bone.name == name
                                         && forall j :: 0 <= j < i ==> bones[j].name != name
    {
      for i := 0 to |bones|
        invariant forall j :: 0 <= j < i ==> bones[j].name != name
      {
        if bones[i].name == name {
          return bones[i];
        }
      }
      return null;
    }
  }
}
