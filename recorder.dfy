/**
 * The Recorder object: two frame rings feeding two encoder writers, the
 * last color and gray frames kept for duplication, the actions.csv and
 * cam.jsonl logs, per-frame camera files, and the raw depth cache batched
 * into groups for the archival writer.
 *
 * External effects are state here: the lines written to actions.csv and
 * cam.jsonl, the per-frame camera files (path to document), the frames
 * handed to each encoder pipe, the directories requested. Whether a pipe
 * starts, a file opens or a pipe write succeeds is a parameter.
 */
module Recording {
  import opened Wrappers
  import opened RecorderTypes
  import opened RecorderText
  import opened DepthGroups
  import opened FrameRings
  import opened WriterThreads
  import opened JsonValues

  /** n copies of one frame. */
  function Repeat(f: RawFrame, n: nat): (r: seq<RawFrame>)
    ensures |r| == n && forall i :: 0 <= i < n ==> r[i] == f
  {
    seq(n, _ => f)
  }

  lemma RepeatAppend(f: RawFrame, a: nat, b: nat)
    ensures Repeat(f, a) + Repeat(f, b) == Repeat(f, a + b)
  {
  }

  lemma PositiveArea(w: int, h: int)
    requires w > 0 && h > 0
    ensures w * h > 0
  {
  }

  /**
   * How many copies duplicate(n) gets into a ring holding `count` frames:
   * none when n <= 0 or the stream is inactive, else as many as fit.
   */
  function DuplicateCount(n: int, active: bool, count: nat): (k: nat)
    requires count <= RingCapacity
    ensures count + k <= RingCapacity
    ensures k <= if n < 0 then 0 else n
    ensures active && n > 0 && count + n <= RingCapacity ==> k == n
    ensures active && n > 0 && count + n > RingCapacity ==> count + k == RingCapacity
    ensures !active ==> k == 0
  {
    if n <= 0 || !active then 0
    else if n <= RingCapacity - count then n
    else RingCapacity - count
  }

  /** One more round of duplicate() adds what fits after the earlier rounds. */
  lemma DuplicateCountStep(i: nat, active: bool, count: nat)
    requires count <= RingCapacity
    ensures DuplicateCount(i + 1, active, count)
      == DuplicateCount(i, active, count) + DuplicateCount(1, active, count + DuplicateCount(i, active, count))
  {
  }

  /** A ring after i rounds of duplicate() and one more round holds the copies of i + 1 rounds. */
  lemma DuplicateRoundStep(c0: seq<RawFrame>, f: RawFrame, active: bool, i: nat, before: seq<RawFrame>, after: seq<RawFrame>)
    requires |c0| <= RingCapacity
    requires before == c0 + Repeat(f, DuplicateCount(i, active, |c0|))
    requires |before| <= RingCapacity
    requires after == before + Repeat(f, DuplicateCount(1, active, |before|))
    ensures after == c0 + Repeat(f, DuplicateCount(i + 1, active, |c0|))
  {
    DuplicateCountStep(i, active, |c0|);
    RepeatAppend(f, DuplicateCount(i, active, |c0|), DuplicateCount(1, active, |before|));
  }

  /**
   * The record log_camera_json writes: cam_json with frame_idx, time_us,
   * img_w and img_h set, in that order; None when cam_json is neither an
   * object nor null, where the first assignment throws.
   */
  function StampCameraJson(cam: Json, idx: U64, tUs: I64, imgW: int, imgH: int): Option<Json>
  {
    match SetKey(cam, "frame_idx", Int(idx))
    case None => None
    case Some(j1) =>
      match SetKey(j1, "time_us", Int(tUs))
      case None => None
      case Some(j2) =>
        match SetKey(j2, "img_w", Int(imgW))
        case None => None
        case Some(j3) => SetKey(j3, "img_h", Int(imgH))
  }

  /** The keys log_camera_json adds to every camera record. */
  const StampKeys: set<string> := {"frame_idx", "time_us", "img_w", "img_h"}

  /**
   * A stamped record exists exactly for objects and null; it carries the
   * four stamp fields, keeps every other field of cam_json and adds nothing else.
   */
  lemma StampCameraJsonFields(cam: Json, idx: U64, tUs: I64, imgW: int, imgH: int)
    ensures StampCameraJson(cam, idx, tUs, imgW, imgH).Some? <==> cam.Null? || cam.Obj?
    ensures var r := StampCameraJson(cam, idx, tUs, imgW, imgH);
      r.Some? ==>
        && r.value.Obj?
        && StampKeys <= r.value.fields.Keys
        && r.value.fields["frame_idx"] == Int(idx)
        && r.value.fields["time_us"] == Int(tUs)
        && r.value.fields["img_w"] == Int(imgW)
        && r.value.fields["img_h"] == Int(imgH)
        && (forall k :: k in r.value.fields && k !in StampKeys ==> cam.Obj? && k in cam.fields && r.value.fields[k] == cam.fields[k])
    ensures var r := StampCameraJson(cam, idx, tUs, imgW, imgH);
      cam.Obj? ==> forall k :: k in cam.fields && k !in StampKeys ==> k in r.value.fields && r.value.fields[k] == cam.fields[k]
  {
    var r := StampCameraJson(cam, idx, tUs, imgW, imgH);
    if cam.Null? || cam.Obj? {
      var j1 := SetKey(cam, "frame_idx", Int(idx)).value;
      var j2 := SetKey(j1, "time_us", Int(tUs)).value;
      var j3 := SetKey(j2, "img_w", Int(imgW)).value;
      assert r == SetKey(j3, "img_h", Int(imgH));
    }
  }

  /** A kept frame: w x h pixels of bpp bytes each. */
  predicate FrameBufferOk(buf: seq<byte>, w: int, h: int, bpp: nat) {
    w >= 0 && h >= 0 && |buf| == w * bpp * h
  }

  /** The depth cache never holds a full group, and is empty while the recorder is stopped. */
  predicate DepthCacheOk(cache: seq<DepthFrame>, running: bool) {
    |cache| < DepthGroupSize && (!running ==> cache == [])
  }

  /** Both streams are consistent, and pipes are only alive while running with video on. */
  predicate StreamsOk(c: StreamState, d: StreamState, running: bool, writeVideo: bool) {
    StreamOk(c) && StreamOk(d) && (c.pipeAlive || d.pipeAlive ==> running && writeVideo)
  }

  /** The log files are only open while running, actions.csv only when enabled. */
  predicate FilesOk(csvOpen: bool, camOpen: bool, running: bool, writeCsv: bool) {
    (csvOpen ==> running && writeCsv) && (camOpen ==> running)
  }

  /** A log file the recorder writes: whether its handle is open, and the lines written through it. */
  datatype LogFile<T> = LogFile(open: bool, lines: seq<T>)

  class Recorder {
    const cfg: RecorderConfig
    var running: bool

    /** The color ring (ring_c_, prod_c_, cons_c_) and the gray ring (ring_d_, prod_d_, cons_d_). */
    const ringC: FrameRing
    const ringD: FrameRing

    /** Pipe and writer of the color and of the gray stream. */
    var streamC: StreamState
    var streamD: StreamState
    /** Frame buffers each writer has handed to its pipe, in order. */
    var encodedC: seq<seq<byte>>
    var encodedD: seq<seq<byte>>

    /** The last pushed frames, kept for duplicate(). */
    var lastBgra: seq<byte>
    var lastGray: seq<byte>
    var lw: int
    var lh: int
    var dw: int
    var dh: int

    /** actions.csv (CsvText gives the text of its lines) and cam.jsonl. */
    var csv: LogFile<CsvLine>
    var camJsonl: LogFile<Json>
    /** The per-frame camera files written, by path. */
    var cameraFiles: map<string, Json>
    /** The directory paths handed to the directory creation call. */
    var dirsRequested: seq<string>

    var enqueued: nat
    var written: nat

    /** Raw depth frames not yet grouped, the next group id, and the archival writer's queue. */
    var depthCache: seq<DepthFrame>
    var groupCounter: nat
    var h5Queue: seq<DepthGroup>
    var h5WriterRun: bool

    /** The two rings are separate and consistent. */
    ghost predicate RingsValid()
      reads ringC, ringD
    {
      && ringC != ringD && ringC.ring != ringD.ring
      && ringC.Valid() && ringD.Valid()
    }

    /**
     * The recorder's own fields: the duplication sources hold one frame of
     * the recorded size, the depth cache is flushed before it reaches a full
     * group and is empty while stopped, the streams are consistent, and
     * pipes and log files are only open while running.
     */
    ghost predicate FieldsValid()
      reads this
    {
      && FrameBufferOk(lastBgra, lw, lh, 4) && FrameBufferOk(lastGray, dw, dh, 1)
      && DepthCacheOk(depthCache, running)
      && StreamsOk(streamC, streamD, running, cfg.writeVideo)
      && FilesOk(csv.open, camJsonl.open, running, cfg.writeCsv)
    }

    ghost predicate Valid()
      reads this, ringC, ringD
    {
      RingsValid() && FieldsValid()
    }

    /** The constructor: empty rings, idle streams, no files open, and the archival writer started. */
    constructor (config: RecorderConfig)
      ensures Valid()
      ensures fresh(ringC) && fresh(ringD) && fresh(ringC.ring) && fresh(ringD.ring)
      ensures cfg == config && !running
      ensures ringC.prod == 0 && ringC.cons == 0 && ringD.prod == 0 && ringD.cons == 0
      ensures ringC.Contents() == [] && ringD.Contents() == []
      ensures streamC == Idle && streamD == Idle && encodedC == [] && encodedD == []
      ensures lastBgra == [] && lastGray == [] && lw == 0 && lh == 0 && dw == 0 && dh == 0
      ensures csv == LogFile(false, []) && camJsonl == LogFile(false, []) && cameraFiles == map[]
      ensures dirsRequested == [] && enqueued == 0 && written == 0
      ensures depthCache == [] && groupCounter == 0 && h5Queue == [] && h5WriterRun
    {
      cfg := config;
      running := false;
      ringC := new FrameRing();
      ringD := new FrameRing();
      streamC, streamD := Idle, Idle;
      encodedC, encodedD := [], [];
      lastBgra, lastGray := [], [];
      lw, lh, dw, dh := 0, 0, 0, 0;
      csv, camJsonl := LogFile(false, []), LogFile(false, []);
      cameraFiles := map[];
      dirsRequested := [];
      enqueued, written := 0, 0;
      depthCache, groupCounter, h5Queue := [], 0, [];
      h5WriterRun := true;
    }

    /**
     * start(): a no-op when already running; else running, the output
     * directory requested, actions.csv (when enabled) truncated to its
     * header, and cam.jsonl truncated. Always reports success.
     */
    method Start(csvOk: bool, camOk: bool) returns (ok: bool)
      requires Valid()
      modifies this`running, this`dirsRequested, this`csv, this`camJsonl
      ensures Valid() && ok && running
      ensures old(running) ==> unchanged(this)
      ensures !old(running) ==>
        && dirsRequested == old(dirsRequested) + [WindowsDirPath(JoinPathSlash(cfg.outDir))]
        && csv == (if cfg.writeCsv && csvOk then LogFile(true, [HeaderLine]) else old(csv))
        && camJsonl == (if camOk then LogFile(true, []) else old(camJsonl))
    {
      if running {
        return true;
      }
      var outDirNorm := JoinPathSlash(cfg.outDir);
      var dir := EnsureDirPath(outDirNorm);
      running := true;
      dirsRequested := dirsRequested + [dir];
      if cfg.writeCsv && csvOk {
        csv := LogFile(true, [HeaderLine]);
      }
      if camOk {
        camJsonl := LogFile(true, []);
      }
      return true;
    }

    /** The partial group stop() flushes, the group push_raw_depth flushes at 30 frames. */
    method SaveDepthGroup()
      modifies this`depthCache, this`groupCounter, this`h5Queue
      ensures old(depthCache) == [] ==> unchanged(this)
      ensures old(depthCache) != [] ==>
        && depthCache == []
        && h5Queue == old(h5Queue) + [MakeGroup(old(depthCache), old(groupCounter), cfg.outDir, cfg.fps)]
        && groupCounter == old(groupCounter) + 1
    {
      if depthCache == [] {
        return;
      }
      var group := BuildGroup(depthCache, groupCounter, cfg.outDir, cfg.fps);
      groupCounter := groupCounter + 1;
      depthCache := [];
      h5Queue := h5Queue + [group];
    }

    /** The first half of stop(): both writers joined, both pipes stopped. */
    method StopWriters()
      requires Valid()
      modifies this`streamC, this`streamD
      ensures Valid()
      ensures streamC == StopStream(old(streamC)) && streamD == StopStream(old(streamD))
    {
      streamC := StopStream(streamC);
      streamD := StopStream(streamD);
    }

    /** The flush of stop(): a non-empty depth cache becomes one last, possibly partial, group. */
    method FlushDepthCache()
      requires Valid()
      modifies this`depthCache, this`groupCounter, this`h5Queue
      ensures Valid()
      ensures old(depthCache) == [] ==> unchanged(this)
      ensures old(depthCache) != [] ==>
        && depthCache == []
        && h5Queue == old(h5Queue) + [MakeGroup(old(depthCache), old(groupCounter), cfg.outDir, cfg.fps)]
        && groupCounter == old(groupCounter) + 1
    {
      SaveDepthGroup();
    }

    /** The end of stop(): both log files closed, their contents kept. */
    method CloseLogs()
      requires Valid()
      modifies this`csv, this`camJsonl
      ensures Valid()
      ensures csv == old(csv).(open := false) && camJsonl == old(camJsonl).(open := false)
    {
      csv := csv.(open := false);
      camJsonl := camJsonl.(open := false);
    }

    /** stop() clearing the running flag once writers, depth cache and logs are finished. */
    method MarkStopped()
      requires Valid()
      requires streamC == Idle && streamD == Idle && depthCache == [] && !csv.open && !camJsonl.open
      modifies this`running
      ensures Valid() && !running
    {
      running := false;
    }

    /**
     * stop(): a no-op when not running; else both writers are joined and
     * both pipes stopped, a non-empty depth cache is flushed as a last
     * group, and both log files are closed. The rings keep their frames.
     */
    method Stop()
      requires Valid()
      modifies this`running, this`streamC, this`streamD, this`depthCache, this`groupCounter, this`h5Queue
      modifies this`csv, this`camJsonl
      ensures Valid()
      ensures !old(running) ==> unchanged(this)
      ensures old(running) ==>
        && !running && streamC == Idle && streamD == Idle
        && SafeToDestroy(streamC) && SafeToDestroy(streamD)
        && csv == old(csv).(open := false) && camJsonl == old(camJsonl).(open := false)
        && depthCache == []
        && (old(depthCache) == [] ==> h5Queue == old(h5Queue) && groupCounter == old(groupCounter))
        && (old(depthCache) != [] ==>
              && h5Queue == old(h5Queue) + [MakeGroup(old(depthCache), old(groupCounter), cfg.outDir, cfg.fps)]
              && groupCounter == old(groupCounter) + 1)
    {
      if !running {
        return;
      }
      StopWriters();
      FlushDepthCache();
      CloseLogs();
      MarkStopped();
    }

    /**
     * The destructor: the archival writer's flag is cleared first, then
     * stop() runs; the group stop() may flush is queued after the writer was
     * told to finish.
     */
    method Destroy()
      requires Valid()
      modifies this`h5WriterRun, this`running, this`streamC, this`streamD, this`depthCache
      modifies this`groupCounter, this`h5Queue, this`csv, this`camJsonl
      ensures Valid()
      ensures !h5WriterRun && !running && SafeToDestroy(streamC) && SafeToDestroy(streamD)
      ensures !csv.open && !camJsonl.open && depthCache == []
      ensures old(running) && old(depthCache) != [] ==>
        h5Queue == old(h5Queue) + [MakeGroup(old(depthCache), old(groupCounter), cfg.outDir, cfg.fps)]
      ensures !(old(running) && old(depthCache) != []) ==> h5Queue == old(h5Queue)
    {
      h5WriterRun := false;
      Stop();
    }

    /** q_push on one of the two rings; counts the frame as enqueued when it is stored. */
    method QPush(q: FrameRing, f: RawFrame) returns (ok: bool)
      requires Valid() && (q == ringC || q == ringD)
      modifies q, q.ring, this`enqueued
      ensures Valid()
      ensures ok <==> old(q.Count()) < RingCapacity
      ensures q.Contents() == if ok then old(q.Contents()) + [f] else old(q.Contents())
      ensures enqueued == old(enqueued) + (if ok then 1 else 0)
    {
      ok := q.Push(f);
      if ok {
        enqueued := enqueued + 1;
      }
    }

    /**
     * ensure_color_started: starts the color pipe when video is on and it is
     * not alive, launching the writer; the launch never finds an unjoined writer.
     */
    method EnsureColorStarted(startOk: bool)
      requires Valid() && running
      modifies this`streamC
      ensures Valid()
      ensures EnsureStarted(cfg.writeVideo, old(streamC), startOk) == Success(streamC)
    {
      EnsureStartedKeepsStreamOk(cfg.writeVideo, streamC, startOk);
      streamC := EnsureStarted(cfg.writeVideo, streamC, startOk).value;
    }

    /** ensure_depth_started, the same for the gray stream. */
    method EnsureDepthStarted(startOk: bool)
      requires Valid() && running
      modifies this`streamD
      ensures Valid()
      ensures EnsureStarted(cfg.writeVideo, old(streamD), startOk) == Success(streamD)
    {
      EnsureStartedKeepsStreamOk(cfg.writeVideo, streamD, startOk);
      streamD := EnsureStarted(cfg.writeVideo, streamD, startOk).value;
    }

    /** The duplication source push_color keeps: the bytes of the last color frame and its size. */
    method KeepColor(bytes: seq<byte>, w: int, h: int)
      requires Valid() && w > 0 && h > 0 && |bytes| == w * 4 * h
      modifies this`lastBgra, this`lw, this`lh
      ensures Valid() && lastBgra == bytes && lw == w && lh == h
    {
      lastBgra := bytes;
      lw, lh := w, h;
    }

    /** The duplication source push_depth keeps. */
    method KeepGray(bytes: seq<byte>, w: int, h: int)
      requires Valid() && w > 0 && h > 0 && |bytes| == w * h
      modifies this`lastGray, this`dw, this`dh
      ensures Valid() && lastGray == bytes && dw == w && dh == h
    {
      lastGray := bytes;
      dw, dh := w, h;
    }

    /**
     * push_color: ignored unless running with a non-null buffer and positive
     * size; else the stream is started, a w x h BGRA copy is pushed (dropped
     * when the ring is full), and the copy becomes the duplication source.
     */
    method PushColor(bgra: Option<seq<byte>>, w: int, h: int, startOk: bool)
      requires Valid()
      requires running && bgra.Some? && w > 0 && h > 0 ==> |bgra.value| >= w * 4 * h
      modifies this`streamC, this`enqueued, this`lastBgra, this`lw, this`lh, ringC, ringC.ring
      ensures Valid()
      ensures !(running && bgra.Some? && w > 0 && h > 0) ==> unchanged(this) && unchanged(ringC) && unchanged(ringC.ring)
      ensures running && bgra.Some? && w > 0 && h > 0 ==>
        var f := ColorFrame(bgra.value[..w * 4 * h], w, h);
        var stored := old(ringC.Count()) < RingCapacity;
        && EnsureStarted(cfg.writeVideo, old(streamC), startOk) == Success(streamC)
        && ringC.Contents() == (if stored then old(ringC.Contents()) + [f] else old(ringC.Contents()))
        && enqueued == old(enqueued) + (if stored then 1 else 0)
        && lastBgra == bgra.value[..w * 4 * h] && lw == w && lh == h
    {
      if !running || bgra.None? || w <= 0 || h <= 0 {
        return;
      }
      EnsureColorStarted(startOk);
      var bytes := bgra.value[..w * 4 * h];
      var f := ColorFrame(bytes, w, h);
      assert f.size == f.stride * f.h;
      var _ := QPush(ringC, f);
      KeepColor(bytes, w, h);
    }

    /** push_depth: the same for 8-bit gray frames of w x h bytes. */
    method PushDepth(gray: Option<seq<byte>>, w: int, h: int, startOk: bool)
      requires Valid()
      requires running && gray.Some? && w > 0 && h > 0 ==> |gray.value| >= w * h
      modifies this`streamD, this`enqueued, this`lastGray, this`dw, this`dh, ringD, ringD.ring
      ensures Valid()
      ensures !(running && gray.Some? && w > 0 && h > 0) ==> unchanged(this) && unchanged(ringD) && unchanged(ringD.ring)
      ensures running && gray.Some? && w > 0 && h > 0 ==>
        var f := GrayFrame(gray.value[..w * h], w, h);
        var stored := old(ringD.Count()) < RingCapacity;
        && EnsureStarted(cfg.writeVideo, old(streamD), startOk) == Success(streamD)
        && ringD.Contents() == (if stored then old(ringD.Contents()) + [f] else old(ringD.Contents()))
        && enqueued == old(enqueued) + (if stored then 1 else 0)
        && lastGray == gray.value[..w * h] && dw == w && dh == h
    {
      if !running || gray.None? || w <= 0 || h <= 0 {
        return;
      }
      EnsureDepthStarted(startOk);
      var bytes := gray.value[..w * h];
      var f := GrayFrame(bytes, w, h);
      var _ := QPush(ringD, f);
      KeepGray(bytes, w, h);
    }

    /** duplicate() copies into the color ring only while the color pipe is alive and a color frame was seen. */
    predicate ColorActive()
      reads this
    {
      streamC.pipeAlive && lw > 0 && lh > 0
    }

    predicate GrayActive()
      reads this
    {
      streamD.pipeAlive && dw > 0 && dh > 0
    }

    /** One round of duplicate() on the color ring. */
    method DuplicateColorOnce()
      requires Valid()
      modifies this`enqueued, ringC, ringC.ring
      ensures Valid()
      ensures var k := DuplicateCount(1, ColorActive(), old(ringC.Count()));
        && ringC.Contents() == old(ringC.Contents()) + Repeat(ColorFrame(lastBgra, lw, lh), k)
        && enqueued == old(enqueued) + k
    {
      if streamC.pipeAlive && lw > 0 && lh > 0 {
        var f := ColorFrame(lastBgra, lw, lh);
        PositiveArea(lw * 4, lh);
        var _ := QPush(ringC, f);
      }
    }

    /** One round of duplicate() on the gray ring. */
    method DuplicateGrayOnce()
      requires Valid()
      modifies this`enqueued, ringD, ringD.ring
      ensures Valid()
      ensures var k := DuplicateCount(1, GrayActive(), old(ringD.Count()));
        && ringD.Contents() == old(ringD.Contents()) + Repeat(GrayFrame(lastGray, dw, dh), k)
        && enqueued == old(enqueued) + k
    {
      if streamD.pipeAlive && dw > 0 && dh > 0 {
        var f := GrayFrame(lastGray, dw, dh);
        PositiveArea(dw, dh);
        var _ := QPush(ringD, f);
      }
    }

    /**
     * What i rounds of duplicate() have done to rings that held c0 and d0
     * and to an enqueue counter that stood at e0.
     */
    ghost predicate DuplicatedRounds(c0: seq<RawFrame>, d0: seq<RawFrame>, e0: nat, i: nat)
      reads this, ringC, ringC.ring, ringD, ringD.ring
    {
      && |c0| <= RingCapacity && |d0| <= RingCapacity
      && ringC.Valid() && ringD.Valid()
      && lw >= 0 && lh >= 0 && dw >= 0 && dh >= 0
      && var kC := DuplicateCount(i, ColorActive(), |c0|);
      var kD := DuplicateCount(i, GrayActive(), |d0|);
      && ringC.Contents() == c0 + Repeat(ColorFrame(lastBgra, lw, lh), kC)
      && ringD.Contents() == d0 + Repeat(GrayFrame(lastGray, dw, dh), kD)
      && enqueued == e0 + kC + kD
    }

    /** One round of duplicate(): a copy into each active ring that has room. */
    method DuplicateRound(ghost c0: seq<RawFrame>, ghost d0: seq<RawFrame>, ghost e0: nat, ghost i: nat)
      requires Valid() && DuplicatedRounds(c0, d0, e0, i)
      modifies this`enqueued, ringC, ringC.ring, ringD, ringD.ring
      ensures Valid() && DuplicatedRounds(c0, d0, e0, i + 1)
    {
      ghost var beforeC := ringC.Contents();
      ghost var beforeD := ringD.Contents();
      DuplicateColorOnce();
      DuplicateGrayOnce();
      DuplicateRoundStep(c0, ColorFrame(lastBgra, lw, lh), ColorActive(), i, beforeC, ringC.Contents());
      DuplicateRoundStep(d0, GrayFrame(lastGray, dw, dh), GrayActive(), i, beforeD, ringD.Contents());
      DuplicateCountStep(i, ColorActive(), |c0|);
      DuplicateCountStep(i, GrayActive(), |d0|);
    }

    /**
     * duplicate(n): n rounds, each pushing a copy of the last color frame
     * when the color pipe is alive and a frame was seen, and likewise for
     * gray; a full ring drops the copy.
     */
    method Duplicate(n: int)
      requires Valid()
      modifies this`enqueued, ringC, ringC.ring, ringD, ringD.ring
      ensures Valid()
      ensures
        var kC := DuplicateCount(n, ColorActive(), old(ringC.Count()));
        var kD := DuplicateCount(n, GrayActive(), old(ringD.Count()));
        && ringC.Contents() == old(ringC.Contents()) + Repeat(ColorFrame(lastBgra, lw, lh), kC)
        && ringD.Contents() == old(ringD.Contents()) + Repeat(GrayFrame(lastGray, dw, dh), kD)
        && enqueued == old(enqueued) + kC + kD
    {
      ghost var c0 := ringC.Contents();
      ghost var d0 := ringD.Contents();
      RepeatAppend(ColorFrame(lastBgra, lw, lh), 0, 0);
      RepeatAppend(GrayFrame(lastGray, dw, dh), 0, 0);
      if n <= 0 {
        return;
      }
      var i := 0;
      while i < n
        invariant 0 <= i <= n
        invariant Valid() && DuplicatedRounds(c0, d0, old(enqueued), i)
      {
        DuplicateRound(c0, d0, old(enqueued), i);
        i := i + 1;
      }
    }

    /**
     * The cache half of push_raw_depth: the frame is appended, and a cache
     * that reaches the group size is flushed as one group.
     */
    method CacheDepthFrame(frame: DepthFrame)
      requires Valid() && running
      modifies this`depthCache, this`groupCounter, this`h5Queue
      ensures Valid()
      ensures var cache := old(depthCache) + [frame];
        if |cache| >= DepthGroupSize then
          && depthCache == []
          && h5Queue == old(h5Queue) + [MakeGroup(cache, old(groupCounter), cfg.outDir, cfg.fps)]
          && groupCounter == old(groupCounter) + 1
        else
          depthCache == cache && h5Queue == old(h5Queue) && groupCounter == old(groupCounter)
    {
      depthCache := depthCache + [frame];
      if |depthCache| >= DepthGroupSize {
        SaveDepthGroup();
      }
    }

    /**
     * push_raw_depth: ignored unless running with non-null data and positive
     * size; else width x height samples become one cached depth frame, and
     * the thirtieth frame flushes the cache as a group.
     */
    method PushRawDepth(data: Option<seq<real>>, width: int, height: int, frameIdx: U64, timestampUs: I64)
      requires Valid()
      requires running && data.Some? && width > 0 && height > 0 ==> |data.value| >= width * height
      modifies this`depthCache, this`groupCounter, this`h5Queue
      ensures Valid()
      ensures !(running && data.Some? && width > 0 && height > 0) ==> unchanged(this)
      ensures running && data.Some? && width > 0 && height > 0 ==>
        var cache := old(depthCache) + [DepthFrame(data.value[..width * height], width, height, frameIdx, timestampUs)];
        if |cache| == DepthGroupSize then
          && depthCache == []
          && h5Queue == old(h5Queue) + [MakeGroup(cache, old(groupCounter), cfg.outDir, cfg.fps)]
          && groupCounter == old(groupCounter) + 1
        else
          depthCache == cache && h5Queue == old(h5Queue) && groupCounter == old(groupCounter)
    {
      if !running || data.None? || width <= 0 || height <= 0 {
        return;
      }
      var copy := data.value[..width * height];
      CacheDepthFrame(DepthFrame(copy, width, height, frameIdx, timestampUs));
    }

    /** log_action: one CSV row for the frame, written only while actions.csv is open. */
    method LogAction(idx: U64, tUs: I64, keymask: bv32)
      requires Valid()
      modifies this`csv
      ensures Valid()
      ensures csv.open == old(csv.open)
      ensures csv.lines == if old(csv.open) then old(csv.lines) + [ActionLine(idx, tUs, keymask)] else old(csv.lines)
    {
      if !csv.open {
        return;
      }
      csv := csv.(lines := csv.lines + [ActionLine(idx, tUs, keymask)]);
    }

    /** A line appended to cam.jsonl, when it is open. */
    method AppendCameraLine(j: Json)
      requires Valid()
      modifies this`camJsonl
      ensures Valid()
      ensures camJsonl == if old(camJsonl.open) then old(camJsonl).(lines := old(camJsonl.lines) + [j]) else old(camJsonl)
    {
      if camJsonl.open {
        camJsonl := camJsonl.(lines := camJsonl.lines + [j]);
      }
    }

    /** The per-frame camera file, written when it opens. */
    method WriteCameraFile(path: string, j: Json, fileOk: bool)
      requires Valid()
      modifies this`cameraFiles
      ensures Valid()
      ensures cameraFiles == if fileOk then old(cameraFiles)[path := j] else old(cameraFiles)
    {
      if fileOk {
        cameraFiles := cameraFiles[path := j];
      }
    }

    /**
     * log_camera_json: while running, the camera record stamped with the
     * frame index, time and image size goes to cam.jsonl (when open) and to
     * the per-frame camera file (when it opens). A record that is neither
     * null nor an object cannot be stamped: the exception is caught and
     * nothing is written.
     */
    method LogCameraJson(idx: U64, tUs: I64, cam: Json, imgW: int, imgH: int, fileOk: bool)
      requires Valid()
      modifies this`camJsonl, this`cameraFiles
      ensures Valid()
      ensures var stamped := StampCameraJson(cam, idx, tUs, imgW, imgH);
        if old(running) && stamped.Some? then
          && camJsonl == (if old(camJsonl.open) then old(camJsonl).(lines := old(camJsonl.lines) + [stamped.value]) else old(camJsonl))
          && cameraFiles == (if fileOk then old(cameraFiles)[JoinPathSlash(cfg.outDir) + FrameCameraFileName(idx) := stamped.value] else old(cameraFiles))
        else
          camJsonl == old(camJsonl) && cameraFiles == old(cameraFiles)
    {
      if !running {
        return;
      }
      var stamped := StampCameraJson(cam, idx, tUs, imgW, imgH);
      if stamped.None? {
        return;
      }
      AppendCameraLine(stamped.value);
      WriteCameraFile(JoinPathSlash(cfg.outDir) + FrameCameraFileName(idx), stamped.value, fileOk);
    }

    /** q_pop on one of the two rings. */
    method QPop(q: FrameRing) returns (ok: bool, f: RawFrame)
      requires Valid() && (q == ringC || q == ringD)
      modifies q, q.ring
      ensures Valid()
      ensures ok <==> old(q.Count()) > 0
      ensures ok ==> f == old(q.Contents())[0] && q.Contents() == old(q.Contents())[1..]
      ensures !ok ==> f == EmptyRawFrame() && q.Contents() == old(q.Contents())
    {
      ok, f := q.Pop(EmptyRawFrame());
    }

    /**
     * The color writer's handling of a popped frame: a non-null, non-empty
     * frame goes to a live pipe; a failed write clears the run flag (the
     * loop ends), a good one counts as written.
     */
    method WriteColorFrame(f: RawFrame, writeOk: bool)
      requires Valid()
      modifies this`encodedC, this`written, this`streamC
      ensures Valid()
      ensures if f.data.Some? && f.size > 0 && old(streamC.pipeAlive) then
          if writeOk then
            encodedC == old(encodedC) + [f.data.value] && written == old(written) + 1 && streamC == old(streamC)
          else
            encodedC == old(encodedC) && written == old(written) && streamC == ExitAfterWriteFailure(old(streamC))
        else
          encodedC == old(encodedC) && written == old(written) && streamC == old(streamC)
    {
      if f.data.Some? && f.size > 0 && streamC.pipeAlive {
        if writeOk {
          encodedC := encodedC + [f.data.value];
          written := written + 1;
        } else {
          WriteFailureKeepsStreamOk(streamC);
          streamC := ExitAfterWriteFailure(streamC);
        }
      }
    }

    /** The depth writer's handling of a popped frame; it keeps no written count. */
    method WriteGrayFrame(f: RawFrame, writeOk: bool)
      requires Valid()
      modifies this`encodedD, this`streamD
      ensures Valid()
      ensures if f.data.Some? && f.size > 0 && old(streamD.pipeAlive) then
          if writeOk then
            encodedD == old(encodedD) + [f.data.value] && streamD == old(streamD)
          else
            encodedD == old(encodedD) && streamD == ExitAfterWriteFailure(old(streamD))
        else
          encodedD == old(encodedD) && streamD == old(streamD)
    {
      if f.data.Some? && f.size > 0 && streamD.pipeAlive {
        if writeOk {
          encodedD := encodedD + [f.data.value];
        } else {
          WriteFailureKeepsStreamOk(streamD);
          streamD := ExitAfterWriteFailure(streamD);
        }
      }
    }

    /**
     * One pass of color_loop while its run flag is set: an empty ring means
     * a short sleep; otherwise the oldest frame is popped and handed to the
     * pipe as WriteColorFrame says.
     */
    method ColorLoopStep(writeOk: bool) returns (popped: bool)
      requires Valid() && streamC.thread.run
      modifies ringC, ringC.ring, this`encodedC, this`written, this`streamC
      ensures Valid()
      ensures popped <==> old(ringC.Count()) > 0
      ensures !popped ==>
        ringC.Contents() == old(ringC.Contents()) && encodedC == old(encodedC) && written == old(written) && streamC == old(streamC)
      ensures popped ==>
        var f := old(ringC.Contents())[0];
        && ringC.Contents() == old(ringC.Contents())[1..]
        && if f.data.Some? && f.size > 0 && old(streamC.pipeAlive) then
          if writeOk then
            encodedC == old(encodedC) + [f.data.value] && written == old(written) + 1 && streamC == old(streamC)
          else
            encodedC == old(encodedC) && written == old(written) && streamC == ExitAfterWriteFailure(old(streamC))
        else
          encodedC == old(encodedC) && written == old(written) && streamC == old(streamC)
    {
      var f;
      popped, f := QPop(ringC);
      if popped {
        WriteColorFrame(f, writeOk);
      }
    }

    /** One pass of depth_loop while its run flag is set. */
    method DepthLoopStep(writeOk: bool) returns (popped: bool)
      requires Valid() && streamD.thread.run
      modifies ringD, ringD.ring, this`encodedD, this`streamD
      ensures Valid()
      ensures popped <==> old(ringD.Count()) > 0
      ensures !popped ==> ringD.Contents() == old(ringD.Contents()) && encodedD == old(encodedD) && streamD == old(streamD)
      ensures popped ==>
        var f := old(ringD.Contents())[0];
        && ringD.Contents() == old(ringD.Contents())[1..]
        && if f.data.Some? && f.size > 0 && old(streamD.pipeAlive) then
          if writeOk then
            encodedD == old(encodedD) + [f.data.value] && streamD == old(streamD)
          else
            encodedD == old(encodedD) && streamD == ExitAfterWriteFailure(old(streamD))
        else
          encodedD == old(encodedD) && streamD == old(streamD)
    {
      var f;
      popped, f := QPop(ringD);
      if popped {
        WriteGrayFrame(f, writeOk);
      }
    }

    /**
     * One pass of the archival writer: with its flag down it ends; with an
     * empty queue it waits; otherwise it takes the oldest group and names
     * its file.
     */
    method H5WriterStep() returns (r: Option<(string, DepthGroup)>)
      requires Valid()
      modifies this`h5Queue
      ensures Valid()
      ensures !h5WriterRun || old(h5Queue) == [] ==> r == None && h5Queue == old(h5Queue)
      ensures h5WriterRun && old(h5Queue) != [] ==>
        var g := old(h5Queue)[0];
        r == Some((DepthGroupFileName(g.outDir, g.groupId), g)) && h5Queue == old(h5Queue)[1..]
    {
      if !h5WriterRun || h5Queue == [] {
        return None;
      }
      var g := h5Queue[0];
      h5Queue := h5Queue[1..];
      r := Some((DepthGroupFileName(g.outDir, g.groupId), g));
    }
  }
}
