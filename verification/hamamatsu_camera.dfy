/**
 * Frame bookkeeping of the Hamamatsu DCAM camera wrapper: which ring-buffer
 * slots hold frames that are new since the last check, the resets around
 * an acquisition, the acquisition mode, and the buffer allocation of the
 * memory-recycling variant (`HamamatsuCameraMR`).
 *
 * The numbers the vendor library reports (`nNewestFrameIndex`,
 * `nFrameCount`, frame size and bytes, `int(10 * internal_frame_rate)`) are
 * method parameters. Dafny has no class inheritance here, so the
 * memory-recycling camera holds the base camera as a component and overrides
 * the three methods it redefines.
 */
module HamamatsuCamera {
  import opened Common

  const RUN_TILL_ABORT: string := "run_till_abort"
  const FIXED_LENGTH: string := "fixed_length"

  /** The exceptions the modelled operations raise. */
  datatype CamError = DCAMException | UnboundLocalError | ZeroDivisionError | ValueError | IndexError

  /** Python's `range(a, b)`. */
  function Range(a: int, b: int): (r: seq<int>)
    ensures |r| == if a < b then b - a else 0
    ensures forall k | 0 <= k < |r| :: r[k] == a + k
  {
    seq(if a < b then b - a else 0, k => a + k)
  }

  /**
   * The list `newFrames` builds from the stored slot `bufferIndex`, the newest
   * slot `cur` and the ring size `n`: the slots after `bufferIndex` up to the
   * end of the ring followed by the slots up to `cur` when the index wrapped,
   * the slots after `bufferIndex` up to `cur` otherwise.
   */
  function NewFrameList(bufferIndex: int, cur: int, n: int): seq<int> {
    if cur < bufferIndex then Range(bufferIndex + 1, n) + Range(0, cur + 1)
    else Range(bufferIndex + 1, cur + 1)
  }

  function Max(a: int, b: int): int {
    if a >= b then a else b
  }

  function Min(a: int, b: int): int {
    if a <= b then a else b
  }

  class HamamatsuCamera {
    var bufferIndex: int
    var lastFrameNumber: int
    var maxBacklog: int
    var numberImageBuffers: int
    var frameX: int
    var frameY: int
    var frameBytes: int
    var acquisitionMode: string
    var numberFrames: int

    /** The bookkeeping `__init__` sets up before it opens the device. */
    constructor()
      ensures bufferIndex == 0 && lastFrameNumber == 0 && maxBacklog == 0 && numberImageBuffers == 0
      ensures frameX == 0 && frameY == 0 && frameBytes == 0
      ensures acquisitionMode == RUN_TILL_ABORT && numberFrames == 0
    {
      bufferIndex := 0;
      lastFrameNumber := 0;
      maxBacklog := 0;
      numberImageBuffers := 0;
      frameX := 0;
      frameY := 0;
      frameBytes := 0;
      acquisitionMode := RUN_TILL_ABORT;
      numberFrames := 0;
    }

    /** `captureSetup`: the frame counters restart and the frame geometry is read from the device. */
    method CaptureSetup(x: int, y: int, bytes: int)
      modifies this`bufferIndex, this`lastFrameNumber, this`frameX, this`frameY, this`frameBytes
      ensures bufferIndex == -1 && lastFrameNumber == 0
      ensures frameX == x && frameY == y && frameBytes == bytes
    {
      bufferIndex := -1;
      lastFrameNumber := 0;
      frameX := x;
      frameY := y;
      frameBytes := bytes;
    }

    /**
     * `newFrames` once the device has reported its newest slot `cur` and its
     * frame count: the new slots, and whether the backlog overran the ring.
     */
    method NewFrames(cur: int, frameCount: int) returns (frames: seq<int>, overrun: bool)
      modifies this`bufferIndex, this`lastFrameNumber, this`maxBacklog
      ensures frames == NewFrameList(old(bufferIndex), cur, numberImageBuffers)
      ensures overrun <==> frameCount - old(lastFrameNumber) > numberImageBuffers
      ensures maxBacklog == Max(old(maxBacklog), frameCount - old(lastFrameNumber))
      ensures bufferIndex == cur && lastFrameNumber == frameCount
    {
      var backlog := frameCount - lastFrameNumber;
      overrun := backlog > numberImageBuffers;
      if backlog > maxBacklog {
        maxBacklog := backlog;
      }
      lastFrameNumber := frameCount;

      if cur < bufferIndex {
        frames := AppendRange([], bufferIndex + 1, numberImageBuffers, 0);
        frames := AppendRange(frames, 0, cur + 1, 0);
      } else {
        frames := AppendRange([], bufferIndex, cur, 1);
      }
      bufferIndex := cur;
    }

    /**
     * `setACQMode` as written: it tests the mode currently set, not the new
     * one, so any new mode is accepted from a known mode and every call fails
     * once an unknown mode is set.
     */
    method SetACQMode(mode: string, frames: int) returns (r: Result<(), CamError>)
      modifies this`acquisitionMode, this`numberFrames
      ensures r.Ok? <==> old(acquisitionMode) == FIXED_LENGTH || old(acquisitionMode) == RUN_TILL_ABORT
      ensures r.Err? ==> r.error == DCAMException
      ensures r.Ok? ==> acquisitionMode == mode && numberFrames == frames
      ensures r.Err? ==> acquisitionMode == old(acquisitionMode) && numberFrames == old(numberFrames)
    {
      if acquisitionMode == FIXED_LENGTH || acquisitionMode == RUN_TILL_ABORT {
        acquisitionMode := mode;
        numberFrames := frames;
        r := Ok(());
      } else {
        r := Err(DCAMException);
      }
    }

    /** One `for i in range(a, b): new_frames.append(i + shift)` loop of `newFrames`. */
    static method AppendRange(frames: seq<int>, a: int, b: int, shift: int) returns (r: seq<int>)
      ensures r == frames + Range(a + shift, b + shift)
    {
      r := frames;
      var i := a;
      while i < b
        invariant a <= i <= Max(a, b)
        invariant r == frames + Range(a + shift, i + shift)
      {
        r := r + [i + shift];
        i := i + 1;
      }
    }

    /**
     * `allocateBuffers`: ten seconds of frames (`framesFromRate`) when running
     * until abort, the requested number for a fixed-length acquisition; with
     * any other mode `n_buffers` is never bound.
     */
    method AllocateBuffers(framesFromRate: int) returns (r: Result<(), CamError>)
      modifies this`numberImageBuffers
      ensures acquisitionMode == RUN_TILL_ABORT ==> r.Ok? && numberImageBuffers == framesFromRate
      ensures acquisitionMode == FIXED_LENGTH ==> r.Ok? && numberImageBuffers == numberFrames
      ensures acquisitionMode != RUN_TILL_ABORT && acquisitionMode != FIXED_LENGTH ==>
        r == Err(UnboundLocalError) && numberImageBuffers == old(numberImageBuffers)
    {
      if acquisitionMode == RUN_TILL_ABORT {
        numberImageBuffers := framesFromRate;
      } else if acquisitionMode == FIXED_LENGTH {
        numberImageBuffers := numberFrames;
      } else {
        return Err(UnboundLocalError);
      }
      r := Ok(());
    }

    /** `startAcquisition`: capture setup, then buffer allocation. */
    method StartAcquisition(x: int, y: int, bytes: int, framesFromRate: int) returns (r: Result<(), CamError>)
      modifies this`bufferIndex, this`lastFrameNumber, this`frameX, this`frameY, this`frameBytes, this`numberImageBuffers
      ensures bufferIndex == -1 && lastFrameNumber == 0
      ensures frameX == x && frameY == y && frameBytes == bytes
      ensures r.Ok? <==> acquisitionMode == RUN_TILL_ABORT || acquisitionMode == FIXED_LENGTH
      ensures r.Ok? ==> numberImageBuffers == if acquisitionMode == RUN_TILL_ABORT then framesFromRate else numberFrames
      ensures r.Err? ==> r.error == UnboundLocalError && numberImageBuffers == old(numberImageBuffers)
    {
      CaptureSetup(x, y, bytes);
      r := AllocateBuffers(framesFromRate);
    }

    /** `stopAcquisition`: the backlog record and the buffer count drop to zero. */
    method StopAcquisition()
      modifies this`maxBacklog, this`numberImageBuffers
      ensures maxBacklog == 0 && numberImageBuffers == 0
    {
      maxBacklog := 0;
      numberImageBuffers := 0;
    }
  }

  /** `HCamData(size)`: a frame buffer of `size` bytes holding `int(size/2)` 16-bit samples. */
  datatype HCamData = HCamData(size: nat, samples: nat)

  function NewHCamData(size: nat): (d: HCamData)
    ensures d.size == size && 2 * d.samples <= size < 2 * d.samples + 2
  {
    HCamData(size, size / 2)
  }

  /** Python's `s[n]`: a negative index counts from the end; None where Python raises IndexError. */
  function PyIndex<T>(s: seq<T>, n: int): (r: Option<T>)
    ensures 0 <= n < |s| ==> r == Some(s[n])
    ensures -|s| <= n < 0 ==> r == Some(s[|s| + n])
    ensures (n >= |s| || n < -|s|) ==> r.None?
  {
    if 0 <= n < |s| then Some(s[n])
    else if -|s| <= n < 0 then Some(s[|s| + n])
    else None
  }

  /** `[data[n] for n in indices]`, None at the first index Python would reject. */
  function Gather<T>(data: seq<T>, indices: seq<int>): (r: Option<seq<T>>)
    ensures r.Some? ==> |r.value| == |indices|
  {
    if indices == [] then Some([])
    else match PyIndex(data, indices[|indices| - 1])
      case None => None
      case Some(x) =>
        match Gather(data, indices[..|indices| - 1])
        case None => None
        case Some(xs) => Some(xs + [x])
  }

  class HamamatsuCameraMR {
    /** The inherited state of the base camera. */
    const cam: HamamatsuCamera
    var hcamData: seq<HCamData>
    /** `hcam_ptr`: False, or a pointer array of the given length. */
    var hcamPtr: Option<nat>
    var oldFrameBytes: int

    /** The buffers match the bookkeeping: one per slot, each of the size last allocated. */
    ghost predicate Valid()
      reads this, cam
    {
      |hcamData| == cam.numberImageBuffers
      && (hcamPtr.Some? ==> hcamPtr.value == |hcamData|)
      && forall d | d in hcamData :: d.size == oldFrameBytes && d == NewHCamData(d.size)
    }

    /** `__init__` of the memory-recycling camera, after the base camera's. */
    constructor()
      ensures Valid() && fresh(cam)
      ensures cam.bufferIndex == 0 && cam.lastFrameNumber == 0 && cam.maxBacklog == 0
      ensures cam.numberImageBuffers == 0 && cam.frameX == 0 && cam.frameY == 0 && cam.frameBytes == 0
      ensures cam.acquisitionMode == RUN_TILL_ABORT && cam.numberFrames == 0
      ensures hcamData == [] && hcamPtr == None && oldFrameBytes == -1
    {
      cam := new HamamatsuCamera();
      hcamData := [];
      hcamPtr := None;
      oldFrameBytes := -1;
    }

    /** `n` fresh frame buffers of `bytes` bytes each. */
    static method AllocateFrames(n: nat, bytes: nat) returns (data: seq<HCamData>)
      ensures |data| == n
      ensures forall d | d in data :: d == NewHCamData(bytes)
    {
      data := [];
      var i := 0;
      while i < n
        invariant 0 <= i <= n && |data| == i
        invariant forall d | d in data :: d == NewHCamData(bytes)
      {
        data := data + [NewHCamData(bytes)];
        i := i + 1;
      }
    }

    /**
     * `startAcquisition` of the memory-recycling camera: buffers are
     * reallocated only when the frame size changed or the acquisition has a
     * fixed length, as many as fit in 2 GiB but at most 2000, or the requested
     * number of frames for a fixed-length acquisition.
     */
    method StartAcquisition(x: int, y: int, bytes: nat) returns (r: Result<(), CamError>)
      modifies this, cam
      ensures cam.bufferIndex == -1 && cam.lastFrameNumber == 0
      ensures cam.frameX == x && cam.frameY == y && cam.frameBytes == bytes
      ensures cam.acquisitionMode == old(cam.acquisitionMode) && cam.numberFrames == old(cam.numberFrames)
      ensures cam.maxBacklog == old(cam.maxBacklog)
      ensures var realloc := old(oldFrameBytes) != bytes || cam.acquisitionMode == FIXED_LENGTH;
        var count := if cam.acquisitionMode == FIXED_LENGTH then cam.numberFrames
          else Min(0x8000_0000 / (if bytes == 0 then 1 else bytes), 2000);
        if !realloc then
          r.Ok? && hcamData == old(hcamData) && hcamPtr == old(hcamPtr) && oldFrameBytes == old(oldFrameBytes)
          && cam.numberImageBuffers == old(cam.numberImageBuffers)
        else if bytes == 0 then
          r == Err(ZeroDivisionError) && hcamData == old(hcamData) && hcamPtr == old(hcamPtr)
          && oldFrameBytes == old(oldFrameBytes) && cam.numberImageBuffers == old(cam.numberImageBuffers)
        else if count < 0 then
          r == Err(ValueError) && cam.numberImageBuffers == count && hcamData == old(hcamData)
          && hcamPtr == old(hcamPtr) && oldFrameBytes == old(oldFrameBytes)
        else
          r.Ok? && cam.numberImageBuffers == count && |hcamData| == count && hcamPtr == Some(count)
          && (forall d | d in hcamData :: d == NewHCamData(bytes)) && oldFrameBytes == bytes
      ensures r.Ok? && (old(Valid()) || old(oldFrameBytes) != bytes || cam.acquisitionMode == FIXED_LENGTH) ==> Valid()
      ensures r == Err(ZeroDivisionError) && old(Valid()) ==> Valid()
    {
      cam.CaptureSetup(x, y, bytes);
      if oldFrameBytes != cam.frameBytes || cam.acquisitionMode == FIXED_LENGTH {
        if bytes == 0 {
          return Err(ZeroDivisionError);
        }
        var nBuffers := Min(0x8000_0000 / bytes, 2000);
        if cam.acquisitionMode == FIXED_LENGTH {
          cam.numberImageBuffers := cam.numberFrames;
        } else {
          cam.numberImageBuffers := nBuffers;
        }
        if cam.numberImageBuffers < 0 {
          return Err(ValueError);
        }
        hcamPtr := Some(cam.numberImageBuffers);
        hcamData := AllocateFrames(cam.numberImageBuffers, bytes);
        oldFrameBytes := bytes;
      }
      r := Ok(());
    }

    /**
     * `getFrames` of the memory-recycling camera: the buffers of the new
     * slots and the frame geometry; IndexError when a slot has no buffer.
     */
    method GetFrames(cur: int, frameCount: int) returns (r: Result<(seq<HCamData>, (int, int)), CamError>)
      modifies cam`bufferIndex, cam`lastFrameNumber, cam`maxBacklog
      ensures cam.bufferIndex == cur && cam.lastFrameNumber == frameCount
      ensures cam.maxBacklog == Max(old(cam.maxBacklog), frameCount - old(cam.lastFrameNumber))
      ensures var g := Gather(hcamData, NewFrameList(old(cam.bufferIndex), cur, cam.numberImageBuffers));
        r == if g.Some? then Ok((g.value, (cam.frameX, cam.frameY))) else Err(IndexError)
      ensures old(Valid()) && -1 <= old(cam.bufferIndex) < |hcamData| && -1 <= cur < |hcamData| ==> r.Ok?
    {
      if Valid() && -1 <= cam.bufferIndex < |hcamData| && -1 <= cur < |hcamData| {
        GatherInRing(hcamData, cam.bufferIndex, cur);
      }
      var slots, _ := cam.NewFrames(cur, frameCount);
      var frames := CopyFrames(hcamData, slots);
      r := if frames.Some? then Ok((frames.value, (cam.frameX, cam.frameY))) else Err(IndexError);
    }

    /** The copy loop of `getFrames`: buffer by buffer, failing at the first index outside the ring. */
    static method CopyFrames(data: seq<HCamData>, slots: seq<int>) returns (r: Option<seq<HCamData>>)
      ensures r == Gather(data, slots)
    {
      var frames: seq<HCamData> := [];
      var i := 0;
      while i < |slots|
        invariant 0 <= i <= |slots|
        invariant Gather(data, slots[..i]) == Some(frames)
      {
        var f := PyIndex(data, slots[i]);
        assert slots[..i + 1][..i] == slots[..i];
        if f.None? {
          assert Gather(data, slots[..i + 1]).None?;
          GatherPrefixNone(data, slots, i + 1);
          return None;
        }
        frames := frames + [f.value];
        i := i + 1;
      }
      assert slots[..|slots|] == slots;
      r := Some(frames);
    }

    /** `stopAcquisition` of the memory-recycling camera: only the backlog record is reset; the buffers are kept for reuse. */
    method StopAcquisition()
      modifies cam`maxBacklog
      ensures cam.maxBacklog == 0
    {
      cam.maxBacklog := 0;
    }
  }

  /** Once a prefix of the indices is rejected, so is every longer prefix. */
  lemma {:induction false} GatherPrefixNone<T>(data: seq<T>, indices: seq<int>, k: nat)
    requires k <= |indices| && Gather(data, indices[..k]).None?
    ensures Gather(data, indices).None?
    decreases |indices| - k
  {
    if k < |indices| {
      assert indices[..k + 1][..k] == indices[..k];
      GatherPrefixNone(data, indices, k + 1);
    } else {
      assert indices[..k] == indices;
    }
  }

  // ---------------------------------------------------------------------
  // Properties of the frame list

  /** Without a wrap the new slots are exactly bufferIndex+1 .. cur in increasing order, none when the index did not move. */
  lemma NoWrapFrames(bufferIndex: int, cur: int, n: int)
    requires bufferIndex <= cur
    ensures |NewFrameList(bufferIndex, cur, n)| == cur - bufferIndex
    ensures forall k | 0 <= k < cur - bufferIndex :: NewFrameList(bufferIndex, cur, n)[k] == bufferIndex + 1 + k
    ensures bufferIndex == cur ==> NewFrameList(bufferIndex, cur, n) == []
  {
  }

  /**
   * With both indices inside the ring (-1 meaning "none yet") every listed
   * slot lies in [0, n), no slot is listed twice, and the list walks the ring
   * from the slot after bufferIndex, ending at cur (when cur is a slot).
   */
  lemma FramesInRing(bufferIndex: int, cur: int, n: int)
    requires -1 <= bufferIndex < n && -1 <= cur < n
    ensures var f := NewFrameList(bufferIndex, cur, n);
      (forall k | 0 <= k < |f| :: 0 <= f[k] < n && f[k] == (bufferIndex + 1 + k) % n)
      && (forall j, k | 0 <= j < k < |f| :: f[j] != f[k])
      && (|f| > 0 && cur >= 0 ==> f[|f| - 1] == cur)
  {
    var f := NewFrameList(bufferIndex, cur, n);
    forall k | 0 <= k < |f|
      ensures 0 <= f[k] < n && f[k] == (bufferIndex + 1 + k) % n
    {
      RingSlot(bufferIndex, cur, n, k);
    }
    forall j, k | 0 <= j < k < |f|
      ensures f[j] != f[k]
    {
      DistinctSlots(bufferIndex, cur, n, j, k);
    }
    if |f| > 0 && cur >= 0 && cur < bufferIndex {
      assert f[|f| - 1] == Range(0, cur + 1)[cur];
    }
  }

  /** Slot k of the list is k steps after bufferIndex around the ring. */
  lemma RingSlot(bufferIndex: int, cur: int, n: int, k: nat)
    requires -1 <= bufferIndex < n && -1 <= cur < n
    requires k < |NewFrameList(bufferIndex, cur, n)|
    ensures 0 <= NewFrameList(bufferIndex, cur, n)[k] < n
    ensures NewFrameList(bufferIndex, cur, n)[k] == (bufferIndex + 1 + k) % n
  {
    var m := n - bufferIndex - 1;
    if cur < bufferIndex && k >= m {
      assert NewFrameList(bufferIndex, cur, n)[k] == Range(0, cur + 1)[k - m];
      ModWrap(bufferIndex + 1 + k, n);
    } else {
      ModSmall(bufferIndex + 1 + k, n);
    }
  }

  /** Two positions of the list hold different slots. */
  lemma DistinctSlots(bufferIndex: int, cur: int, n: int, j: nat, k: nat)
    requires -1 <= bufferIndex < n && -1 <= cur < n
    requires j < k < |NewFrameList(bufferIndex, cur, n)|
    ensures NewFrameList(bufferIndex, cur, n)[j] != NewFrameList(bufferIndex, cur, n)[k]
  {
    var f := NewFrameList(bufferIndex, cur, n);
    var m := n - bufferIndex - 1;
    if cur < bufferIndex && j < m && k >= m {
      assert f[j] == Range(bufferIndex + 1, n)[j];
      assert f[k] == Range(0, cur + 1)[k - m];
    }
  }

  lemma ModSmall(x: int, n: int)
    requires 0 <= x < n
    ensures x % n == x
  {
  }

  lemma ModWrap(x: int, n: int)
    requires n <= x < 2 * n
    ensures x % n == x - n
  {
    DivOne(x, n);
  }

  lemma DivOne(x: int, n: int)
    requires n <= x < 2 * n
    ensures x / n == 1
  {
  }

  /** The first check after `captureSetup` (bufferIndex = -1) lists slots 0 .. cur. */
  lemma FirstCheckAfterSetup(cur: int, n: int)
    requires -1 <= cur
    ensures NewFrameList(-1, cur, n) == Range(0, cur + 1)
  {
  }

  /** Two checks in a row without a wrap list together what one check over both would list. */
  lemma {:induction false} ConsecutiveChecks(a: int, b: int, c: int, n: int)
    requires a <= b <= c
    ensures NewFrameList(a, b, n) + NewFrameList(b, c, n) == NewFrameList(a, c, n)
  {
    var l := NewFrameList(a, b, n) + NewFrameList(b, c, n);
    assert |l| == c - a;
    forall k | 0 <= k < c - a
      ensures l[k] == NewFrameList(a, c, n)[k]
    {
      if k < b - a {
        assert l[k] == NewFrameList(a, b, n)[k];
      } else {
        assert l[k] == NewFrameList(b, c, n)[k - (b - a)];
      }
    }
  }

  /** In a valid memory-recycling camera every slot of the ring has a buffer, so fetching in-ring slots never fails. */
  lemma GatherInRing(data: seq<HCamData>, bufferIndex: int, cur: int)
    requires -1 <= bufferIndex < |data| && -1 <= cur < |data|
    ensures Gather(data, NewFrameList(bufferIndex, cur, |data|)).Some?
    ensures forall k | 0 <= k < |NewFrameList(bufferIndex, cur, |data|)| ::
      Gather(data, NewFrameList(bufferIndex, cur, |data|)).value[k] == data[NewFrameList(bufferIndex, cur, |data|)[k]]
  {
    FramesInRing(bufferIndex, cur, |data|);
    GatherInRange(data, NewFrameList(bufferIndex, cur, |data|));
  }

  lemma {:induction false} GatherInRange<T>(data: seq<T>, indices: seq<int>)
    requires forall k | 0 <= k < |indices| :: 0 <= indices[k] < |data|
    ensures Gather(data, indices).Some?
    ensures forall k | 0 <= k < |indices| :: Gather(data, indices).value[k] == data[indices[k]]
  {
    if indices != [] {
      GatherInRange(data, indices[..|indices| - 1]);
    }
  }
}
