/**
 * Point clouds as the offline tools pass them around: a dict from names
 * ("worldpoints", "colors", ...) to arrays of rows, and the merge both
 * tools share: every cloud's world points, and its colors when every cloud
 * has them, concatenated in order along the first axis.
 */
module Clouds {
  import opened Wrappers

  /** An array of rows, as np.concatenate(..., axis=0) joins them. */
  type Rows = seq<seq<real>>

  /** A cloud dict; only its array-valued entries are modelled. */
  type Cloud = map<string, Rows>

  /** The argument of merge_clouds_world_points: one cloud dict, or a list of them. */
  datatype CloudsArg = Dict(cloud: Cloud) | List(clouds: seq<Cloud>)

  /** The exceptions the merge can raise. */
  datatype PyError = KeyError(key: string) | ValueError

  const WorldPoints := "worldpoints"
  const Colors := "colors"

  /** all(key in cl for cl in clouds); true of an empty list. */
  predicate AllHave(clouds: seq<Cloud>, key: string) {
    forall i :: 0 <= i < |clouds| ==> key in clouds[i]
  }

  /** The keys merged: world points always, colors when every cloud has them. */
  function Mergeable(clouds: seq<Cloud>): (keys: seq<string>)
    ensures |keys| >= 1 && keys[0] == WorldPoints
    ensures Colors in keys <==> AllHave(clouds, Colors)
    ensures forall k :: k in keys ==> k == WorldPoints || k == Colors
  {
    [WorldPoints] + if AllHave(clouds, Colors) then [Colors] else []
  }

  /** The arrays stored under `key`, one per cloud, in order. */
  function Column(clouds: seq<Cloud>, key: string): (col: seq<Rows>)
    requires AllHave(clouds, key)
    ensures |col| == |clouds| && forall i :: 0 <= i < |clouds| ==> col[i] == clouds[i][key]
  {
    seq(|clouds|, i requires 0 <= i < |clouds| => clouds[i][key])
  }

  /** The rows of several arrays, one array after another. */
  function Flatten(arrays: seq<Rows>): Rows {
    if arrays == [] then [] else Flatten(arrays[..|arrays| - 1]) + arrays[|arrays| - 1]
  }

  /** The total number of rows in several arrays. */
  function TotalRows(arrays: seq<Rows>): nat {
    if arrays == [] then 0 else TotalRows(arrays[..|arrays| - 1]) + |arrays[|arrays| - 1]|
  }

  /**
   * Every row of every array has one length: the arrays agree on every
   * axis but the first, as np.concatenate(..., axis=0) demands.
   */
  predicate SameWidth(arrays: seq<Rows>) {
    forall i, j, a, b :: 0 <= i < |arrays| && 0 <= j < |arrays| && 0 <= a < |arrays[i]| && 0 <= b < |arrays[j]| ==>
      |arrays[i][a]| == |arrays[j][b]|
  }

  /**
   * np.concatenate(arrays, axis=0): an empty list, or arrays whose column
   * counts differ, raise ValueError.
   */
  function Concatenate(arrays: seq<Rows>): (r: Result<Rows, PyError>)
    ensures r.Failure? <==> arrays == [] || !SameWidth(arrays)
    ensures r.Failure? ==> r.error == ValueError
    ensures r.Success? ==> |r.value| == TotalRows(arrays)
  {
    FlattenLength(arrays);
    if arrays == [] || !SameWidth(arrays) then Failure(ValueError) else Success(Flatten(arrays))
  }

  lemma {:induction false} FlattenLength(arrays: seq<Rows>)
    ensures |Flatten(arrays)| == TotalRows(arrays)
    decreases |arrays|
  {
    if arrays != [] {
      FlattenLength(arrays[..|arrays| - 1]);
    }
  }

  /** Concatenation is in order: joining two lists of arrays is joining their concatenations. */
  lemma {:induction false} FlattenAppend(a: seq<Rows>, b: seq<Rows>)
    ensures Flatten(a + b) == Flatten(a) + Flatten(b)
    decreases |b|
  {
    if b == [] {
      assert a + b == a;
    } else {
      assert (a + b)[..|a + b| - 1] == a + b[..|b| - 1];
      FlattenAppend(a, b[..|b| - 1]);
    }
  }

  /** Row j of cloud i's array lands right after the rows of the clouds before it. */
  lemma FlattenPlacesRows(arrays: seq<Rows>, i: nat, j: nat)
    requires i < |arrays| && j < |arrays[i]|
    ensures TotalRows(arrays[..i]) + j < |Flatten(arrays)|
    ensures Flatten(arrays)[TotalRows(arrays[..i]) + j] == arrays[i][j]
  {
    assert arrays == arrays[..i] + [arrays[i]] + arrays[i + 1..];
    FlattenAppend(arrays[..i] + [arrays[i]], arrays[i + 1..]);
    FlattenAppend(arrays[..i], [arrays[i]]);
    assert Flatten([arrays[i]]) == arrays[i] by {
      assert [arrays[i]][..0] == [];
    }
    FlattenLength(arrays[..i]);
  }

  /** The merged dict: world points, and colors when every cloud has them. */
  function MergedCloud(clouds: seq<Cloud>): Cloud
    requires AllHave(clouds, WorldPoints)
  {
    map k | k in Mergeable(clouds) :: Flatten(Column(clouds, k))
  }

  /** Each merged key's arrays have one column count, so np.concatenate accepts them. */
  predicate MergeWidthsOk(clouds: seq<Cloud>)
    requires AllHave(clouds, WorldPoints)
  {
    forall k :: k in Mergeable(clouds) ==> SameWidth(Column(clouds, k))
  }

  /** The final comprehension {key: np.concatenate(val) for key, val in merged.items()}. */
  function ConcatenateAll(merged: map<string, seq<Rows>>): (r: Result<Cloud, PyError>)
    ensures r.Success? ==> r.value.Keys == merged.Keys
    ensures r.Success? <==> forall k :: k in merged ==> merged[k] != [] && SameWidth(merged[k])
    ensures r.Failure? ==> r.error == ValueError
  {
    if forall k :: k in merged ==> merged[k] != [] && SameWidth(merged[k]) then
      Success(map k | k in merged :: Flatten(merged[k]))
    else
      Failure(ValueError)
  }

  /**
   * The inner loop of the merge: cloud `cl` adds its array to the list of
   * every mergeable key; a missing key raises KeyError.
   */
  method AppendCloud(merged: map<string, seq<Rows>>, keys: seq<string>, cl: Cloud)
    returns (r: Result<map<string, seq<Rows>>, PyError>)
    requires forall k :: k in keys ==> k in merged
    ensures r.Failure? <==> exists k :: k in keys && k !in cl
    ensures r.Failure? && |keys| > 0 && keys[0] !in cl ==> r.error == KeyError(keys[0])
    ensures r.Success? ==> r.value.Keys == merged.Keys
    ensures r.Success? ==> forall k :: k in merged ==>
      r.value[k] == if k in keys then merged[k] + [cl[k]] else merged[k]
  {
    var m := merged;
    for j := 0 to |keys|
      invariant m.Keys == merged.Keys
      invariant forall t :: 0 <= t < j ==> keys[t] in cl
      invariant forall k :: k in merged ==> m[k] == if k in keys[..j] then merged[k] + [cl[k]] else merged[k]
    {
      var key := keys[j];
      if key !in cl {
        return Failure(KeyError(key));
      }
      assert keys[..j + 1] == keys[..j] + [key];
      if key !in keys[..j] {
        m := m[key := m[key] + [cl[key]]];
      }
    }
    assert keys[..|keys|] == keys;
    r := Success(m);
  }

  lemma ColumnAppend(clouds: seq<Cloud>, i: nat, key: string)
    requires i < |clouds| && AllHave(clouds[..i], key) && key in clouds[i]
    ensures AllHave(clouds[..i + 1], key)
    ensures Column(clouds[..i + 1], key) == Column(clouds[..i], key) + [clouds[i][key]]
  {
    assert clouds[..i + 1] == clouds[..i] + [clouds[i]];
  }

  /** The lists gathered per key are concatenable exactly when the cloud widths agree. */
  lemma ColumnsConcatenable(clouds: seq<Cloud>, merged: map<string, seq<Rows>>)
    requires |clouds| > 0 && AllHave(clouds, WorldPoints)
    requires merged.Keys == set k | k in Mergeable(clouds)
    requires forall k :: k in merged ==> AllHave(clouds, k) && merged[k] == Column(clouds, k)
    ensures (forall k :: k in merged ==> merged[k] != [] && SameWidth(merged[k])) <==> MergeWidthsOk(clouds)
  {
    forall k | k in merged
      ensures merged[k] != []
    {
      assert |merged[k]| == |clouds|;
    }
  }

  /** Once every cloud's arrays are listed, concatenating the lists gives the merged cloud. */
  lemma ConcatenateColumns(clouds: seq<Cloud>, merged: map<string, seq<Rows>>)
    requires |clouds| > 0
    requires merged.Keys == set k | k in Mergeable(clouds)
    requires forall k :: k in merged ==> AllHave(clouds, k) && merged[k] == Column(clouds, k)
    ensures AllHave(clouds, WorldPoints)
    ensures MergeWidthsOk(clouds) ==> ConcatenateAll(merged) == Success(MergedCloud(clouds))
    ensures !MergeWidthsOk(clouds) ==> ConcatenateAll(merged) == Failure(ValueError)
  {
    assert WorldPoints in merged;
    ColumnsConcatenable(clouds, merged);
    if MergeWidthsOk(clouds) {
      var r := ConcatenateAll(merged).value;
      var m := MergedCloud(clouds);
      assert r.Keys == m.Keys;
      forall k | k in r
        ensures r[k] == m[k]
      {
      }
      assert r == m;
    }
  }

  /**
   * The list case of merge_clouds_world_points: the per-key lists are
   * filled cloud by cloud, then each is concatenated. A cloud without
   * world points raises KeyError; an empty list, or arrays of one key whose
   * column counts differ, raise ValueError.
   */
  method MergeList(clouds: seq<Cloud>) returns (r: Result<Cloud, PyError>)
    ensures |clouds| == 0 ==> r == Failure(ValueError)
    ensures |clouds| > 0 && !AllHave(clouds, WorldPoints) ==> r == Failure(KeyError(WorldPoints))
    ensures |clouds| > 0 && AllHave(clouds, WorldPoints) && !MergeWidthsOk(clouds) ==> r == Failure(ValueError)
    ensures |clouds| > 0 && AllHave(clouds, WorldPoints) && MergeWidthsOk(clouds) ==> r == Success(MergedCloud(clouds))
  {
    var keys := Mergeable(clouds);
    var merged: map<string, seq<Rows>> := map k | k in keys :: [];
    for i := 0 to |clouds|
      invariant merged.Keys == set k | k in keys
      invariant AllHave(clouds[..i], WorldPoints)
      invariant forall k :: k in merged ==> AllHave(clouds[..i], k) && merged[k] == Column(clouds[..i], k)
    {
      var next := AppendCloud(merged, keys, clouds[i]);
      if next.Failure? {
        ghost var k :| k in keys && k !in clouds[i];
        assert k == WorldPoints;
        return Failure(KeyError(WorldPoints));
      }
      forall k | k in merged
        ensures AllHave(clouds[..i + 1], k) && next.value[k] == Column(clouds[..i + 1], k)
      {
        ColumnAppend(clouds, i, k);
      }
      ColumnAppend(clouds, i, WorldPoints);
      merged := next.value;
    }
    assert clouds[..|clouds|] == clouds;
    r := ConcatenateAll(merged);
    if |clouds| > 0 {
      ConcatenateColumns(clouds, merged);
    }
  }

  /** Merging is concatenation in order: the world points of a + b are those of a, then those of b. */
  lemma MergedWorldPointsAppend(a: seq<Cloud>, b: seq<Cloud>)
    requires |a| > 0 && |b| > 0 && AllHave(a, WorldPoints) && AllHave(b, WorldPoints)
    ensures AllHave(a + b, WorldPoints)
    ensures MergedCloud(a + b)[WorldPoints] == MergedCloud(a)[WorldPoints] + MergedCloud(b)[WorldPoints]
    ensures |MergedCloud(a + b)[WorldPoints]| == TotalRows(Column(a, WorldPoints)) + TotalRows(Column(b, WorldPoints))
  {
    assert Column(a + b, WorldPoints) == Column(a, WorldPoints) + Column(b, WorldPoints);
    FlattenAppend(Column(a, WorldPoints), Column(b, WorldPoints));
    FlattenLength(Column(a, WorldPoints));
    FlattenLength(Column(b, WorldPoints));
  }

  /** Colors are merged exactly when every cloud has them, and a merged single cloud keeps its points. */
  lemma MergedKeys(clouds: seq<Cloud>)
    requires |clouds| > 0 && AllHave(clouds, WorldPoints)
    ensures WorldPoints in MergedCloud(clouds)
    ensures Colors in MergedCloud(clouds) <==> AllHave(clouds, Colors)
    ensures MergedCloud(clouds).Keys <= {WorldPoints, Colors}
    ensures |MergedCloud(clouds)[WorldPoints]| == TotalRows(Column(clouds, WorldPoints))
    ensures |clouds| == 1 ==> MergedCloud(clouds)[WorldPoints] == clouds[0][WorldPoints]
  {
    FlattenLength(Column(clouds, WorldPoints));
    if |clouds| == 1 {
      assert Column(clouds, WorldPoints)[..0] == [];
    }
  }
}
