/**
 * Collapsing the recorder's raw depth cache into one archival group
 * (the grouping part of save_depth_group_to_h5).
 */
module DepthGroups {
  import opened RecorderTypes

  /** The frames' samples one frame after another, in cache order. */
  function FlattenData(frames: seq<DepthFrame>): seq<real>
  {
    if frames == [] then [] else FlattenData(frames[..|frames| - 1]) + frames[|frames| - 1].data
  }

  /** The group built from a non-empty cache: count, first frame's size, index and time ranges, id, data. */
  function MakeGroup(cache: seq<DepthFrame>, id: nat, outDir: string, fps: int): DepthGroup
    requires |cache| > 0
  {
    DepthGroup(
      FlattenData(cache),
      |cache|, cache[0].height, cache[0].width,
      id,
      cache[0].frameIdx, cache[|cache| - 1].frameIdx,
      cache[0].timestampUs, cache[|cache| - 1].timestampUs,
      outDir, fps)
  }

  /** The loop of save_depth_group_to_h5 that appends every cached frame's data to all_data. */
  method BuildGroup(cache: seq<DepthFrame>, id: nat, outDir: string, fps: int) returns (g: DepthGroup)
    requires |cache| > 0
    ensures g == MakeGroup(cache, id, outDir, fps)
  {
    var allData: seq<real> := [];
    var i := 0;
    while i < |cache|
      invariant 0 <= i <= |cache|
      invariant allData == FlattenData(cache[..i])
    {
      assert cache[..i + 1][..i] == cache[..i];
      allData := allData + cache[i].data;
      i := i + 1;
    }
    assert cache[..|cache|] == cache;
    g := DepthGroup(
      allData,
      |cache|, cache[0].height, cache[0].width,
      id,
      cache[0].frameIdx, cache[|cache| - 1].frameIdx,
      cache[0].timestampUs, cache[|cache| - 1].timestampUs,
      outDir, fps);
  }

  /** Every frame holds n samples. */
  predicate Uniform(frames: seq<DepthFrame>, n: nat) {
    forall k :: 0 <= k < |frames| ==> |frames[k].data| == n
  }

  lemma MulStep(k: nat, n: nat)
    ensures (k + 1) * n == k * n + n
  {
  }

  lemma MulMono(a: nat, b: nat, n: nat)
    requires a <= b
    ensures a * n <= b * n
  {
  }

  /** With frames of n samples each, the flattened data has |frames| * n samples. */
  lemma {:induction false} FlattenLength(frames: seq<DepthFrame>, n: nat)
    requires Uniform(frames, n)
    ensures |FlattenData(frames)| == |frames| * n
  {
    if frames != [] {
      var init := frames[..|frames| - 1];
      FlattenLength(init, n);
      MulStep(|init|, n);
    }
  }

  /** A slice that lies inside the first part of a concatenation is a slice of that part. */
  lemma SliceOfPrefix(a: seq<real>, b: seq<real>, lo: nat, hi: nat)
    requires lo <= hi <= |a|
    ensures (a + b)[lo..hi] == a[lo..hi]
  {
  }

  /** The second part of a concatenation is the slice that follows the first. */
  lemma SliceOfSuffix(a: seq<real>, b: seq<real>)
    ensures (a + b)[|a|..|a| + |b|] == b
  {
  }

  /**
   * Reading the flattened data back as a [T, n] array recovers each frame:
   * row k is exactly frame k's samples.
   */
  lemma {:induction false} FlattenSlice(frames: seq<DepthFrame>, n: nat, k: nat)
    requires Uniform(frames, n) && k < |frames|
    ensures |FlattenData(frames)| == |frames| * n
    ensures (k + 1) * n <= |frames| * n
    ensures FlattenData(frames)[k * n..(k + 1) * n] == frames[k].data
  {
    FlattenLength(frames, n);
    MulMono(k + 1, |frames|, n);
    var last := |frames| - 1;
    var init := frames[..last];
    assert Uniform(init, n);
    assert FlattenData(frames) == FlattenData(init) + frames[last].data;
    if k < last {
      FlattenSlice(init, n, k);
      SliceOfPrefix(FlattenData(init), frames[last].data, k * n, (k + 1) * n);
    } else {
      FlattenLength(init, n);
      MulStep(k, n);
      SliceOfSuffix(FlattenData(init), frames[last].data);
    }
  }

  /**
   * A group built from frames of one size H x W is a consistent [T, H, W]
   * array: T frames, H * W samples per frame, frame k at offset k * H * W.
   */
  lemma GroupLayout(cache: seq<DepthFrame>, id: nat, outDir: string, fps: int, k: nat)
    requires |cache| > 0 && k < |cache|
    requires cache[0].height >= 0 && cache[0].width >= 0
    requires Uniform(cache, cache[0].height * cache[0].width)
    ensures var g := MakeGroup(cache, id, outDir, fps);
      && g.t == |cache|
      && |g.allData| == g.t * (g.h * g.w)
      && (k + 1) * (g.h * g.w) <= |g.allData|
      && g.allData[k * (g.h * g.w)..(k + 1) * (g.h * g.w)] == cache[k].data
  {
    FlattenSlice(cache, cache[0].height * cache[0].width, k);
  }
}
