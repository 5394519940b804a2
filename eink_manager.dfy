/**
 * The e-ink display manager (disp_eink_manager.c): the wave-data ring the
 * decoder fills and the display engine drains, the two index buffers the
 * index calculation alternates between, the frame counters of one panel
 * update, and single steps of the detect-fresh thread, the decode work and
 * the display interrupt.
 *
 * Hardware and pipeline-manager calls are recorded in `calls`; their
 * results, and what the interrupt handler does concurrently, are
 * parameters.  The driver's file-level globals (is_empty,
 * index_finish_flag, diplay_finish_flag and the `first` flag of
 * eink_enable) are fields of the manager.  The counters of eink_private
 * (declared in a header that is not part of this model) are taken to be
 * unsigned 32-bit.  Buffer addresses are taken to be non-zero, so a
 * request that finds a buffer is never mistaken for NULL.
 */
module EinkManager {
  import opened Common
  import opened Ring
  import opened EinkBuffer

  /** What the manager asks of the hardware layer and the pipeline manager, in order. */
  datatype EinkCall =
    | StartCalculateIndex(oldIndexPaddr: nat, newIndexPaddr: nat)
    | GetUpdateArea
    | StartDecode(wavedataPaddr: nat, indexPaddr: nat)
    | EdmaCfgAddr(paddr: nat)
    | EdmaConfig(paddr: nat)
    | EdmaWrite
    | DbufReady
    | LcdEnable
    | ClosePanel
    | SyncTasklet
    | DecodeWork
    | UpdatePipelineList(temperature: nat)
    | CheckOverlap(area: Area)
    | ConfigAndEnablePipeline(area: Area, mode: bv32, temperature: nat)
    | ConfigPipeline(area: Area, mode: bv32)
    | CreateThread
    | WakeThread
    | ClkEnable
    | RegisterIrq
    | EnableIrq
    | EinkConfig
    | EdmaInit
    | EinkIrqEnable
    | InitWaveform
    | FreeWaveform
    | EinkIrqDisable
    | EinkDisable
    | ClkDisable
    | DisableIrq
    | UnregisterIrq

  /**
   * wavedata_queue: WAVE_DATA_BUF_NUM buffers with a produce cursor `head`
   * (the buffer the decoder writes next) and a consume cursor `tail` (the
   * buffer shown next).  Empty when head == tail, full when head + 1 ==
   * tail, so it holds at most n - 1 decoded frames.
   */
  class WaveQueue {
    const n: nat
    const paddr: seq<nat>
    var head: nat
    var tail: nat

    ghost predicate Valid()
      reads this
    {
      n >= 2 && |paddr| == n && head < n && tail < n
    }

    /** disp_init_eink: both cursors at 0, the empty ring. */
    constructor(paddr0: seq<nat>)
      requires |paddr0| >= 2
      ensures Valid() && n == |paddr0| && paddr == paddr0
      ensures head == 0 && tail == 0 && Count() == 0
    {
      n := |paddr0|;
      paddr := paddr0;
      head := 0;
      tail := 0;
    }

    /** The number of decoded frames waiting to be shown. */
    function Count(): (c: nat)
      reads this
      requires Valid()
      ensures c <= n - 1
    {
      Dist(tail, head, n)
    }

    /** The full test of request_buffer_for_decode and queue_wavedata_buffer. */
    function IsFull(): (full: bool)
      reads this
      requires Valid()
      ensures full <==> Count() == n - 1
    {
      DistFull(tail, head, n);
      Next(head, n) == tail
    }

    /** The empty test of request_buffer_for_display and dequeue_wavedata_buffer. */
    function IsEmpty(): (empty: bool)
      reads this
      requires Valid()
      ensures empty <==> Count() == 0
    {
      head == tail
    }

    /** request_buffer_for_display: the buffer at tail, or NULL on an empty ring; the cursors stay. */
    function RequestForDisplay(): (r: Option<nat>)
      reads this
      requires Valid()
      ensures r.None? <==> Count() == 0
      ensures r.Some? ==> r.value == paddr[tail]
    {
      if IsEmpty() then None else Some(paddr[tail])
    }

    /** request_buffer_for_decode: the buffer at head, or NULL on a full ring; the cursors stay. */
    function RequestForDecode(): (r: Option<nat>)
      reads this
      requires Valid()
      ensures r.None? <==> Count() == n - 1
      ensures r.Some? ==> r.value == paddr[head]
    {
      if IsFull() then None else Some(paddr[head])
    }

    /** queue_wavedata_buffer: -EBUSY on a full ring, else one more frame waits. */
    method Queue() returns (ret: int)
      requires Valid()
      modifies this
      ensures Valid() && tail == old(tail)
      ensures old(IsFull()) ==> ret == -EBUSY && head == old(head)
      ensures !old(IsFull()) ==> ret == 0 && head == Next(old(head), n) && Count() == old(Count()) + 1
    {
      if Next(head, n) == tail {
        return -EBUSY;
      }
      DistNextFar(tail, head, n);
      head := Next(head, n);
      ret := 0;
    }

    /** dequeue_wavedata_buffer: -EBUSY on an empty ring, else one frame fewer waits. */
    method Dequeue() returns (ret: int)
      requires Valid()
      modifies this
      ensures Valid() && head == old(head)
      ensures old(IsEmpty()) ==> ret == -EBUSY && tail == old(tail)
      ensures !old(IsEmpty()) ==> ret == 0 && tail == Next(old(tail), n) && Count() == old(Count()) - 1
    {
      if head == tail {
        return -EBUSY;
      }
      DistNextNear(tail, head, n);
      tail := Next(tail, n);
      ret := 0;
    }

    /** clear_wavedata_buffer: both cursors back to 0, which empties the ring. */
    method Clear()
      requires Valid()
      modifies this
      ensures Valid() && head == 0 && tail == 0 && Count() == 0
    {
      head := 0;
      tail := 0;
    }
  }

  /**
   * The scalar state of a manager: the counters and flags of eink_private
   * (frame counters, index flags, index_fresh, enable_flag), the panel
   * temperature and the flush_continue_flag of disp_eink_manager, and the
   * driver's file-level flags is_empty, index_finish_flag,
   * diplay_finish_flag and the `first` flag of eink_enable.
   */
  datatype Private = Private(
    freshFrame: nat, total: nat, decode: nat, oldIndex: nat, newIndex: nat,
    indexFresh: bool, enableFlag: bool, temperature: nat, flushContinue: bool,
    isEmpty: bool, indexFinish: bool, displayFinish: bool, first: bool)

  /** The display-frame counter after one more frame of an update of `total` frames. */
  function NextFresh(shown: nat, total: nat): (f: nat)
    ensures f < TWO32
  {
    var g := U32(shown + 1);
    if g == total then 0 else g
  }

  /** The display-frame counter after k frames, starting from 0. */
  function FreshAfter(total: nat, k: nat): (f: nat)
    ensures f < TWO32
  {
    if k == 0 then 0 else NextFresh(FreshAfter(total, k - 1), total)
  }

  /**
   * An update of `total` frames: after k < total displayed frames the
   * counter is k, and the total-th frame brings it back to 0, which is the
   * only frame that ends the update.
   */
  lemma {:induction false} DisplayCycle(total: nat, k: nat)
    requires 0 < total < TWO32 && k <= total
    ensures FreshAfter(total, k) == if k == total then 0 else k
  {
    if k > 0 {
      DisplayCycle(total, k - 1);
      assert FreshAfter(total, k - 1) == k - 1;
    }
  }

  /** Whether the index-finish flag is seen at one of the 201 checks of the poll (already set, or raised by the interrupt by then). */
  predicate FinishSeen(flag: bool, irqBy: seq<bool>)
    requires |irqBy| > 200
  {
    flag || exists k :: 0 <= k <= 200 && irqBy[k]
  }

  /**
   * The calls that start the panel with `count` frames on the ring: the
   * first frame `p1` is configured and written if there is one, the LCD is
   * enabled, and the second frame `p2` is handed over if there is one.
   */
  function FirstFramesCalls(count: nat, p1: nat, p2: nat): (r: seq<EinkCall>)
    ensures LcdEnable in r
  {
    (if count >= 1 then [EdmaConfig(p1), EdmaWrite, DbufReady] else [])
    + [LcdEnable]
    + (if count >= 2 then [EdmaCfgAddr(p2), DbufReady] else [])
  }

  /**
   * The current image once its index is calculated: an image whose area
   * is to be computed takes the area the hardware reports; any other
   * keeps its own.
   */
  function AreaReported(s: Slot, hwArea: Area): (r: Slot)
    ensures r.area == (if s.windowCalcEnable then hwArea else s.area)
    ensures r == s.(area := r.area)
  {
    if s.windowCalcEnable then s.(area := hwArea) else s
  }

  /** A buffer address as the C code passes it on: 0 for NULL. */
  function OrNull(p: Option<nat>): (a: nat)
    ensures p.Some? ==> a == p.value
  {
    if p.Some? then p.value else 0
  }

  /**
   * The calls a detect-fresh step makes for the current image `cur` once
   * its index is calculated: the overlap check; then, with no decode under
   * way (`decode` 0), the pipeline configured and enabled at `temperature`
   * and, when the ring has the free buffer `free`, the first frame decoded
   * into it from the index buffer at `index`; with a decode under way the
   * pipeline is only configured.
   */
  function UpdateCalls(cur: Slot, decode: nat, temperature: nat, free: Option<nat>, index: nat): seq<EinkCall>
  {
    [CheckOverlap(cur.area)]
    + if decode == 0 then
        [ConfigAndEnablePipeline(cur.area, cur.updateMode, temperature)]
        + (if free.Some? then [StartDecode(free.value, index)] else [])
      else [ConfigPipeline(cur.area, cur.updateMode)]
  }

  /**
   * The scalar state eink_calculate_index_data leaves from `p`: unchanged
   * when the index is not `ready`; otherwise new_index flips to
   * 1 - old_index and, when the finish flag is `seen`, the flag is
   * consumed and the index becomes fresh.
   */
  function IndexedPriv(p: Private, ready: bool, seen: bool): Private
    requires ready ==> p.oldIndex <= 1
  {
    if !ready then p
    else if seen then p.(newIndex := 1 - p.oldIndex, indexFresh := true, indexFinish := false)
    else p.(newIndex := 1 - p.oldIndex)
  }

  /** The calculation changes only new_index, index_fresh and the finish flag. */
  lemma IndexedPrivFrame(p: Private, ready: bool, seen: bool)
    requires ready ==> p.oldIndex <= 1
    ensures IndexedPriv(p, ready, seen).(newIndex := 0, indexFresh := false, indexFinish := false)
            == p.(newIndex := 0, indexFresh := false, indexFinish := false)
  {
  }

  /**
   * A calculation that finishes while a decode is under way leaves the
   * index fresh through the update start, so the following detect-fresh
   * passes are skipped until the decode work consumes the index.
   */
  lemma FreshIndexParks(p: Private, tframes: nat, full: bool)
    requires p.decode != 0 && p.oldIndex <= 1
    ensures UpdatePriv(IndexedPriv(p, true, true), tframes, full) == IndexedPriv(p, true, true)
    ensures UpdatePriv(IndexedPriv(p, true, true), tframes, full).indexFresh
  {
  }

  /**
   * The scalar state a detect-fresh step leaves after its index
   * calculation left `p`: with no decode under way the display is marked
   * busy, the update gets `tframes` frames, old_index catches up with
   * new_index and, unless the wave-data ring is `full`, the index is
   * consumed; with a decode under way nothing changes.
   */
  function UpdatePriv(p: Private, tframes: nat, full: bool): Private
  {
    if p.decode == 0 then
      p.(displayFinish := false, total := tframes, oldIndex := p.newIndex,
         indexFresh := if full then p.indexFresh else false)
    else p
  }

  /** What a detect-fresh step ends in. */
  datatype DetectOutcome =
    | Skipped   // nothing to do this time round the loop
    | Blocked   // the ring has no free buffer: the source spins here until the display frees one
    | Done      // one queued image handed to the pipeline and dequeued


  /** disp_eink_manager together with its eink_private data. */
  class Manager {
    const wave: WaveQueue
    const buffer: BufferManager
    /** The index buffers; the calculation alternates between the first two. */
    const indexPaddr: seq<nat>
    var priv: Private
    var calls: seq<EinkCall>

    ghost predicate Valid()
      reads this, wave, buffer
    {
      wave.Valid() && buffer.Valid() && |indexPaddr| >= 2
    }

    /**
     * disp_init_eink and the driver's static initialisers: counters and
     * indices 0, nothing calculated, disabled, 28 degrees, continuous
     * flushing on, display finished, waveform not yet loaded.
     */
    constructor(wave0: WaveQueue, buffer0: BufferManager, indexPaddr0: seq<nat>)
      requires wave0.Valid() && buffer0.Valid() && |indexPaddr0| >= 2
      ensures Valid() && wave == wave0 && buffer == buffer0 && indexPaddr == indexPaddr0
      ensures priv == Private(0, 0, 0, 0, 0, false, false, 28, true, false, false, true, true)
      ensures calls == []
    {
      wave := wave0;
      buffer := buffer0;
      indexPaddr := indexPaddr0;
      priv := Private(0, 0, 0, 0, 0, false, false, 28, true, false, false, true, true);
      calls := [];
    }

    /**
     * write_edma: -EBUSY with nothing dequeued on an empty ring; otherwise
     * the buffer at tail is handed to the EDMA and exactly that one is
     * dequeued.
     */
    method WriteEdma() returns (ret: int)
      requires Valid()
      modifies this, wave
      ensures Valid() && priv == old(priv) && wave.head == old(wave.head)
      ensures old(wave.IsEmpty()) ==> ret == -EBUSY && wave.tail == old(wave.tail) && calls == old(calls)
      ensures !old(wave.IsEmpty()) ==>
        (ret == 0 && wave.tail == Next(old(wave.tail), wave.n) && wave.Count() == old(wave.Count()) - 1
         && calls == old(calls) + [EdmaCfgAddr(wave.paddr[old(wave.tail)]), DbufReady])
    {
      var w := wave.RequestForDisplay();
      if w.None? {
        return -EBUSY;
      }
      calls := calls + [EdmaCfgAddr(w.value), DbufReady];
      ret := wave.Dequeue();
    }

    /** write_edma_once: as write_edma, with the EDMA configured and started for the first frame. */
    method WriteEdmaOnce() returns (ret: int)
      requires Valid()
      modifies this, wave
      ensures Valid() && priv == old(priv) && wave.head == old(wave.head)
      ensures old(wave.IsEmpty()) ==> ret == -EBUSY && wave.tail == old(wave.tail) && calls == old(calls)
      ensures !old(wave.IsEmpty()) ==>
        (ret == 0 && wave.tail == Next(old(wave.tail), wave.n) && wave.Count() == old(wave.Count()) - 1
         && calls == old(calls) + [EdmaConfig(wave.paddr[old(wave.tail)]), EdmaWrite, DbufReady])
    {
      var w := wave.RequestForDisplay();
      if w.None? {
        return -EBUSY;
      }
      calls := calls + [EdmaConfig(w.value), EdmaWrite, DbufReady];
      ret := wave.Dequeue();
    }

    /**
     * The poll of eink_calculate_index_data: up to 200 waits of 1 ms for
     * the index-finish flag.  `irqBy[k]` says whether the interrupt has
     * raised the flag by the k-th check.  The result is whether the flag
     * was seen, i.e. the call does not time out.
     */
    method PollIndexFinish(irqBy: seq<bool>) returns (seen: bool)
      requires |irqBy| > 200
      ensures seen == FinishSeen(priv.indexFinish, irqBy)
    {
      var flag := priv.indexFinish;
      var count := 0;
      while !(flag || irqBy[count]) && count < 200
        invariant 0 <= count <= 200
        invariant forall j :: 0 <= j < count ==> !(flag || irqBy[j])
      {
        count := count + 1;
      }
      seen := !(count >= 200 && !(flag || irqBy[count]));
    }

    /** The index flags and the current image eink_calculate_index_data needs: 0 and 0, or 1 and 1. */
    ghost predicate IndexReady()
      reads this, buffer
    {
      buffer.outIndex < buffer.n && priv.oldIndex <= 1 && priv.newIndex == priv.oldIndex
    }

    /** The calculation from the old into the new index buffer, once new_index has flipped. */
    ghost function IndexStart(): EinkCall
      reads this
      requires |indexPaddr| >= 2 && priv.oldIndex <= 1
    {
      StartCalculateIndex(indexPaddr[priv.oldIndex], indexPaddr[1 - priv.oldIndex])
    }

    /** The calls eink_calculate_index_data makes for the given interrupt timing. */
    ghost function IndexCalls(irqBy: seq<bool>): seq<EinkCall>
      reads this, wave, buffer
      requires Valid() && |irqBy| > 200
    {
      if !IndexReady() then []
      else
        [IndexStart()]
        + if FinishSeen(priv.indexFinish, irqBy) && buffer.slots[Next(buffer.outIndex, buffer.n)].windowCalcEnable
          then [GetUpdateArea] else []
    }

    /**
     * The scalar state eink_calculate_index_data leaves for the given
     * interrupt timing: unchanged when the index is not ready; otherwise
     * new_index flips to 1 - old_index and, when the finish flag is seen,
     * the flag is consumed and the index becomes fresh.
     */
    ghost function PrivAfterIndex(irqBy: seq<bool>): Private
      reads this, buffer
      requires |irqBy| > 200
    {
      IndexedPriv(priv, IndexReady(), FinishSeen(priv.indexFinish, irqBy))
    }

    /** The current image as eink_calculate_index_data leaves it for the given interrupt timing. */
    ghost function CurrentAfterIndex(irqBy: seq<bool>, hwArea: Area): Slot
      reads this, wave, buffer
      requires Valid() && |irqBy| > 200 && buffer.outIndex < buffer.n
    {
      var cur := buffer.slots[Next(buffer.outIndex, buffer.n)];
      if IndexReady() && FinishSeen(priv.indexFinish, irqBy) then AreaReported(cur, hwArea) else cur
    }

    /**
     * eink_calculate_index_data.  -EINVAL with nothing changed when there
     * is no current image, or when the index flags are not both 0 or both
     * 1.  Otherwise new_index flips to 1 - old_index, so the flags differ,
     * and the calculation is started from the old into the new index
     * buffer.  When the finish flag is seen the flag is consumed, the
     * index becomes fresh and, for an image whose area is to be computed,
     * the area the hardware reports is stored in the current image; on a
     * timeout the call returns -EBUSY and index_fresh is left as it was.
     */
    method CalculateIndexData(irqBy: seq<bool>, hwArea: Area) returns (ret: int)
      requires Valid() && |irqBy| > 200
      modifies this, buffer
      ensures Valid() && buffer.inIndex == old(buffer.inIndex) && buffer.outIndex == old(buffer.outIndex)
      ensures !old(IndexReady()) ==>
        ret == -EINVAL && priv == old(priv) && calls == old(calls) && buffer.slots == old(buffer.slots)
      ensures old(IndexReady()) && FinishSeen(old(priv.indexFinish), irqBy) ==>
        ret == 0
        && priv == old(priv).(newIndex := 1 - old(priv.oldIndex), indexFresh := true, indexFinish := false)
        && buffer.slots == old(buffer.slots)[Next(old(buffer.outIndex), buffer.n) := AreaReported(old(buffer.slots[Next(buffer.outIndex, buffer.n)]), hwArea)]
        && calls == old(calls) + [IndexStart()] + (if old(buffer.slots[Next(buffer.outIndex, buffer.n)]).windowCalcEnable then [GetUpdateArea] else [])
      ensures old(IndexReady()) && !FinishSeen(old(priv.indexFinish), irqBy) ==>
        ret == -EBUSY && priv == old(priv).(newIndex := 1 - old(priv.oldIndex))
        && buffer.slots == old(buffer.slots) && calls == old(calls) + [IndexStart()]
      ensures priv == old(PrivAfterIndex(irqBy)) && calls == old(calls) + old(IndexCalls(irqBy))
      ensures buffer.outIndex < buffer.n ==> buffer.slots == old(buffer.slots)[Next(buffer.outIndex, buffer.n) := old(CurrentAfterIndex(irqBy, hwArea))]
    {
      if buffer.outIndex >= buffer.n {
        return -EINVAL;
      }
      var c := Next(buffer.outIndex, buffer.n);
      if priv.newIndex > 1 || priv.oldIndex > 1 || priv.newIndex != priv.oldIndex {
        return -EINVAL;
      }
      var o := priv.oldIndex;
      var start := StartCalculateIndex(indexPaddr[o], indexPaddr[1 - o]);
      var seen := PollIndexFinish(irqBy);
      if !seen {
        priv := priv.(newIndex := 1 - o);
        calls := calls + [start];
        return -EBUSY;
      }
      var cur := buffer.slots[c];
      calls := calls + [start] + if cur.windowCalcEnable then [GetUpdateArea] else [];
      buffer.slots := buffer.slots[c := AreaReported(cur, hwArea)];
      priv := priv.(newIndex := 1 - o, indexFresh := true, indexFinish := false);
      ret := 0;
    }

    /**
     * The index calculation as the detect-fresh thread runs it, its result
     * dropped: the scalar state, the calls and the current image are
     * those the calculation leaves, whatever it returns; new_index stays
     * a valid index and no other image changes.
     */
    method CalculateIndexDropped(irqBy: seq<bool>, hwArea: Area)
      requires Valid() && |irqBy| > 200 && buffer.outIndex < buffer.n && priv.newIndex < |indexPaddr|
      modifies this, buffer
      ensures Valid() && buffer.inIndex == old(buffer.inIndex) && buffer.outIndex == old(buffer.outIndex)
      ensures priv.(newIndex := 0, indexFresh := false, indexFinish := false)
              == old(priv).(newIndex := 0, indexFresh := false, indexFinish := false)
      ensures priv.newIndex < |indexPaddr|
      ensures priv == old(PrivAfterIndex(irqBy))
      ensures calls == old(calls) + old(IndexCalls(irqBy))
      ensures buffer.slots == old(buffer.slots)[Next(buffer.outIndex, buffer.n) := old(CurrentAfterIndex(irqBy, hwArea))]
    {
      var _ := CalculateIndexData(irqBy, hwArea);
    }

    /**
     * eink_display_one_frame: one more frame shown.  The frame that
     * completes the update resets the counter, empties the wave-data ring,
     * marks the display finished and closes the panel; the one before it
     * does nothing more; every other frame schedules the next EDMA write.
     */
    method DisplayOneFrame()
      requires Valid()
      modifies this, wave
      ensures Valid()
      ensures priv.freshFrame == NextFresh(old(priv.freshFrame), old(priv.total))
      ensures
        var f := U32(old(priv.freshFrame) + 1);
        if f == old(priv.total) then
          priv == old(priv).(freshFrame := 0, displayFinish := true)
          && wave.head == 0 && wave.tail == 0 && wave.Count() == 0 && calls == old(calls) + [ClosePanel]
        else
          priv == old(priv).(freshFrame := f)
          && wave.head == old(wave.head) && wave.tail == old(wave.tail)
          && calls == old(calls) + if f == U32(old(priv.total) - 1) then [] else [SyncTasklet]
    {
      var f := U32(priv.freshFrame + 1);
      if f == priv.total {
        wave.Clear();
        priv := priv.(freshFrame := 0, displayFinish := true);
        calls := calls + [ClosePanel];
      } else if f == U32(priv.total - 1) {
        priv := priv.(freshFrame := f);
      } else {
        priv := priv.(freshFrame := f);
        calls := calls + [SyncTasklet];
      }
    }

    /** eink_decode_finish: 1 when every frame of the update is decoded, which restarts the decode counter; else 0. */
    method DecodeFinish() returns (ret: int)
      modifies this
      ensures (ret == 1 <==> old(priv.total) == old(priv.decode)) && (ret == 0 || ret == 1)
      ensures priv == if ret == 1 then old(priv).(decode := 0) else old(priv)
      ensures calls == old(calls)
    {
      ret := 0;
      if priv.total == priv.decode {
        priv := priv.(decode := 0);
        ret := 1;
      }
    }

    /**
     * The bookkeeping at the start of eink_decode_task: the decoded frame
     * is queued, the pipeline list is updated, an inserted pipeline adds
     * its frames to the total, and the decode counter is read and then
     * incremented.
     */
    method DecodeCount(insert: int, tframes: nat) returns (frame: nat)
      requires Valid()
      modifies this, wave
      ensures Valid() && frame == old(priv.decode)
      ensures priv == old(priv).(
        total := if insert == 1 then U32(old(priv.total) + tframes) else old(priv.total),
        decode := U32(old(priv.decode) + 1))
      ensures calls == old(calls) + [UpdatePipelineList(old(priv.temperature))]
      ensures wave.tail == old(wave.tail)
      ensures wave.head == if old(wave.IsFull()) then old(wave.head) else Next(old(wave.head), wave.n)
      ensures wave.Count() == if old(wave.IsFull()) then old(wave.Count()) else old(wave.Count()) + 1
    {
      var temp := priv.temperature;
      var _ := wave.Queue();
      calls := calls + [UpdatePipelineList(temp)];
      var total := if insert == 1 then U32(priv.total + tframes) else priv.total;
      frame := priv.decode;
      priv := priv.(total := total, decode := U32(frame + 1));
    }

    /**
     * The free-buffer wait of eink_decode_task: up to 100 retries while the
     * ring is full.  Nothing frees a buffer between retries in this
     * sequential model, so a full ring ends with 100 retries and no
     * buffer, and the guard `count > 100` that would give up never holds.
     */
    method WaitForDecodeBuffer() returns (w: Option<nat>, count: nat)
      requires Valid()
      ensures count <= 100 && w == wave.RequestForDecode()
      ensures count == if w.None? then 100 else 0
    {
      w := wave.RequestForDecode();
      count := 0;
      while w.None? && count < 100
        invariant count <= 100 && w == wave.RequestForDecode()
        invariant w.Some? ==> count == 0
      {
        w := wave.RequestForDecode();
        count := count + 1;
      }
    }

    /**
     * The end of eink_decode_task once the counters are updated.  When the
     * counter reaches the total it restarts at 0 and the index is no
     * longer fresh.  Otherwise the next frame is decoded from the index
     * buffer `new_index` (whether or not a pipeline was inserted), an
     * inserted pipeline commits old_index = new_index and clears
     * index_fresh, and a full ring starts the decode with a NULL buffer.
     */
    method DecodeNext(insert: int)
      requires Valid() && priv.newIndex < |indexPaddr|
      modifies this
      ensures
        if old(priv.total) == old(priv.decode) then
          priv == old(priv).(decode := 0, indexFresh := false)
        else
          priv == old(priv).(oldIndex := if insert == 1 then old(priv.newIndex) else old(priv.oldIndex),
                             indexFresh := if insert == 1 then false else old(priv.indexFresh))
      ensures calls == old(calls)
        + if old(priv.total) == old(priv.decode) then [] else [StartDecode(OrNull(wave.RequestForDecode()), indexPaddr[old(priv.newIndex)])]
    {
      var fin := DecodeFinish();
      if fin == 1 {
        priv := priv.(indexFresh := false);
      } else {
        var ni := priv.newIndex;
        var ip := indexPaddr[ni];
        var w, count := WaitForDecodeBuffer();
        if count <= 100 {
          calls := calls + [StartDecode(OrNull(w), ip)];
          if insert == 1 {
            priv := priv.(oldIndex := ni, indexFresh := false);
          }
        }
      }
    }

    /**
     * The start of the panel in eink_decode_task when the third frame is
     * decoded (frame index 2): the first frame through write_edma_once,
     * the LCD enabled, the second frame through write_edma_second (the
     * scan-line wait before its write_edma is not modelled).  Each write
     * takes one frame off the ring if there is one.  Any other frame
     * index changes nothing.
     */
    method ShowFirstFrames(frame: nat)
      requires Valid()
      modifies this, wave
      ensures Valid() && priv == old(priv) && wave.head == old(wave.head)
      ensures frame != 2 ==> wave.tail == old(wave.tail)
      ensures frame == 2 ==> wave.Count() == (if old(wave.Count()) >= 2 then old(wave.Count()) - 2 else 0)
      ensures calls == old(calls)
        + if frame == 2 then FirstFramesCalls(old(wave.Count()), wave.paddr[old(wave.tail)], wave.paddr[Next(old(wave.tail), wave.n)]) else []
    {
      if frame == 2 {
        var _ := WriteEdmaOnce();
        calls := calls + [LcdEnable];
        var _ := WriteEdma();
      }
    }

    /**
     * eink_decode_task, the work run when a frame is decoded: the counter
     * bookkeeping, the first two frames sent to the panel on the third
     * decoded frame, and either the end of the update or the next decode,
     * into the next free buffer (NULL when there is none) from the index
     * buffer new_index.
     */
    method DecodeTask(insert: int, tframes: nat) returns (frame: nat)
      requires Valid() && priv.newIndex < |indexPaddr|
      modifies this, wave
      ensures Valid() && frame == old(priv.decode)
      ensures wave.head == if old(wave.IsFull()) then old(wave.head) else Next(old(wave.head), wave.n)
      ensures frame != 2 ==> wave.tail == old(wave.tail)
      ensures
        var queued := if old(wave.IsFull()) then old(wave.Count()) else old(wave.Count()) + 1;
        frame == 2 ==> wave.Count() == if queued >= 2 then queued - 2 else 0
      ensures
        var queued := if old(wave.IsFull()) then old(wave.Count()) else old(wave.Count()) + 1;
        var total := if insert == 1 then U32(old(priv.total) + tframes) else old(priv.total);
        calls == old(calls) + [UpdatePipelineList(old(priv.temperature))]
          + (if frame == 2 then FirstFramesCalls(queued, wave.paddr[old(wave.tail)], wave.paddr[Next(old(wave.tail), wave.n)]) else [])
          + (if total == U32(old(priv.decode) + 1) then [] else [StartDecode(OrNull(wave.RequestForDecode()), indexPaddr[old(priv.newIndex)])])
      ensures
        var total := if insert == 1 then U32(old(priv.total) + tframes) else old(priv.total);
        var decode := U32(old(priv.decode) + 1);
        if total == decode then
          priv == old(priv).(total := total, decode := 0, indexFresh := false)
        else
          priv == old(priv).(total := total, decode := decode,
                             oldIndex := if insert == 1 then old(priv.newIndex) else old(priv.oldIndex),
                             indexFresh := if insert == 1 then false else old(priv.indexFresh))
    {
      frame := DecodeCount(insert, tframes);
      DecodeRest(frame, insert);
    }

    /**
     * eink_decode_task after its counter bookkeeping, for decoded frame
     * index `frame`: the panel is started on the third frame, then the
     * update ends or the next decode is started.
     */
    method DecodeRest(frame: nat, insert: int)
      requires Valid() && priv.newIndex < |indexPaddr|
      modifies this, wave
      ensures Valid() && wave.head == old(wave.head)
      ensures frame != 2 ==> wave.tail == old(wave.tail)
      ensures frame == 2 ==> wave.Count() == (if old(wave.Count()) >= 2 then old(wave.Count()) - 2 else 0)
      ensures
        if old(priv.total) == old(priv.decode) then
          priv == old(priv).(decode := 0, indexFresh := false)
        else
          priv == old(priv).(oldIndex := if insert == 1 then old(priv.newIndex) else old(priv.oldIndex),
                             indexFresh := if insert == 1 then false else old(priv.indexFresh))
      ensures calls == old(calls)
        + (if frame == 2 then FirstFramesCalls(old(wave.Count()), wave.paddr[old(wave.tail)], wave.paddr[Next(old(wave.tail), wave.n)]) else [])
        + (if old(priv.total) == old(priv.decode) then [] else [StartDecode(OrNull(wave.RequestForDecode()), indexPaddr[old(priv.newIndex)])])
    {
      ShowFirstFrames(frame);
      DecodeNext(insert);
    }

    /**
     * The part of a detect-fresh step after the index calculation: the
     * current image is checked for overlap and configured into a
     * pipeline, which is enabled and decoded at once when no decode is
     * under way (which starts a new update of `tframes` frames from the
     * fresh index buffer), and then dequeued.
     */
    method StartUpdate(tframes: nat) returns (outcome: DetectOutcome)
      requires Valid() && buffer.outIndex < buffer.n && priv.newIndex < |indexPaddr|
      modifies this, buffer
      ensures Valid() && outcome != Skipped && buffer.inIndex == old(buffer.inIndex)
      ensures old(priv.decode) == 0 ==> (outcome == Blocked <==> wave.IsFull())
      ensures old(priv.decode) != 0 ==> outcome == Done
      ensures priv == UpdatePriv(old(priv), tframes, old(wave.IsFull()))
      ensures priv.newIndex == old(priv.newIndex)
      ensures calls == old(calls) + UpdateCalls(old(buffer.slots[Next(buffer.outIndex, buffer.n)]), old(priv.decode),
                                                old(priv.temperature), wave.RequestForDecode(), indexPaddr[old(priv.newIndex)])
      ensures outcome == Done ==>
        buffer.outIndex == if old(buffer.IsEmpty()) then old(buffer.outIndex) else Next(old(buffer.outIndex), buffer.n)
      ensures outcome == Blocked ==> buffer.outIndex == old(buffer.outIndex) && buffer.slots == old(buffer.slots)
      ensures old(Consistent(buffer.n, buffer.inIndex, buffer.outIndex)) ==> Consistent(buffer.n, buffer.inIndex, buffer.outIndex)
      ensures outcome == Done && old(Consistent(buffer.n, buffer.inIndex, buffer.outIndex)) && !old(buffer.IsEmpty()) ==>
        buffer.Pending() == old(buffer.Pending())[1..]
    {
      var temp := priv.temperature;
      var cur := buffer.slots[Next(buffer.outIndex, buffer.n)];
      var d := priv.decode;
      var ip := indexPaddr[priv.newIndex];
      if d == 0 {
        var w := wave.RequestForDecode();
        if w.None? {
          calls := calls + [CheckOverlap(cur.area), ConfigAndEnablePipeline(cur.area, cur.updateMode, temp)];
          priv := priv.(displayFinish := false, total := tframes, oldIndex := priv.newIndex);
          return Blocked;
        }
        calls := calls + [CheckOverlap(cur.area), ConfigAndEnablePipeline(cur.area, cur.updateMode, temp), StartDecode(w.value, ip)];
        priv := priv.(displayFinish := false, total := tframes, oldIndex := priv.newIndex, indexFresh := false);
      } else {
        calls := calls + [CheckOverlap(cur.area), ConfigPipeline(cur.area, cur.updateMode)];
      }
      var _ := buffer.DequeueImage();
      outcome := Done;
    }

    /**
     * One pass of the loop of eink_detect_fresh_thread.  It does nothing
     * while the image queue is empty, the pipeline list is busy, the last
     * index is still fresh or continuous flushing is off.  Otherwise it
     * runs the index calculation (its result is not looked at) and then
     * starts or extends the update with the current image, which leaves
     * the queue.  The scalar state is that of the calculation followed by
     * that of the update start: with no decode under way the display is
     * marked busy, the update has `tframes` frames, old_index catches up
     * with new_index and the index is consumed; with a decode under way a
     * finished calculation leaves the index fresh, which skips the
     * following passes until the decode work consumes it.
     */
    method DetectFreshStep(usedListBusy: bool, irqBy: seq<bool>, hwArea: Area, tframes: nat) returns (outcome: DetectOutcome)
      requires Valid() && |irqBy| > 200 && buffer.outIndex < buffer.n && priv.newIndex < |indexPaddr|
      modifies this, buffer
      ensures Valid() && buffer.inIndex == old(buffer.inIndex)
      ensures outcome == Skipped <==> old(buffer.IsEmpty()) || usedListBusy || old(priv.indexFresh) || !old(priv.flushContinue)
      ensures outcome == Skipped ==>
        priv == old(priv) && calls == old(calls) && buffer.outIndex == old(buffer.outIndex) && buffer.slots == old(buffer.slots)
      ensures outcome != Skipped && old(priv.decode) == 0 ==> (outcome == Blocked <==> wave.IsFull())
      ensures outcome != Skipped && old(priv.decode) != 0 ==> outcome == Done
      ensures priv.newIndex < |indexPaddr|
      ensures outcome != Skipped ==> priv == UpdatePriv(old(PrivAfterIndex(irqBy)), tframes, old(wave.IsFull()))
      ensures outcome != Skipped && old(priv.decode) != 0 && old(IndexReady()) && FinishSeen(old(priv.indexFinish), irqBy) ==>
        priv.indexFresh
      ensures outcome != Skipped ==>
        calls == old(calls) + old(IndexCalls(irqBy))
          + UpdateCalls(old(CurrentAfterIndex(irqBy, hwArea)), old(priv.decode), old(priv.temperature),
                        old(wave.RequestForDecode()), indexPaddr[old(PrivAfterIndex(irqBy)).newIndex])
      ensures outcome == Done ==> buffer.outIndex == Next(old(buffer.outIndex), buffer.n)
      ensures old(Consistent(buffer.n, buffer.inIndex, buffer.outIndex)) ==> Consistent(buffer.n, buffer.inIndex, buffer.outIndex)
      ensures outcome == Done && old(Consistent(buffer.n, buffer.inIndex, buffer.outIndex)) ==>
        buffer.Pending() == old(buffer.Pending())[1..]
    {
      if buffer.IsEmpty() || usedListBusy || priv.indexFresh || !priv.flushContinue {
        return Skipped;
      }
      ghost var before := buffer.slots;
      ghost var cur := CurrentAfterIndex(irqBy, hwArea);
      ghost var mid := PrivAfterIndex(irqBy);
      CalculateIndexDropped(irqBy, hwArea);
      assert buffer.slots[Next(buffer.outIndex, buffer.n)] == cur;
      if Consistent(buffer.n, buffer.inIndex, buffer.outIndex) && buffer.slots != before {
        var c := Next(buffer.outIndex, buffer.n);
        CurrentRewriteKeepsRest(before, buffer.n, buffer.inIndex, buffer.outIndex, AreaReported(before[c], hwArea));
      }
      assert priv == mid;
      outcome := StartUpdate(tframes);
    }

    /**
     * eink_interrupt_proc: query result 1 is the end of an index
     * calculation, which raises the finish flag; 0 is a decoded frame,
     * which schedules the decode work.
     */
    method InterruptProc(query: int)
      modifies this
      ensures priv == if query == 1 then old(priv).(indexFinish := true) else old(priv)
      ensures calls == if query == 0 then old(calls) + [DecodeWork] else old(calls)
    {
      if query == 1 {
        priv := priv.(indexFinish := true);
      } else if query == 0 {
        calls := calls + [DecodeWork];
      }
    }

    /**
     * eink_enable.  An enabled manager returns 0 and nothing happens.
     * Otherwise the fresh thread is created (its failure returns its error
     * code, which is 0 for a NULL task, and leaves the manager disabled),
     * then clocks, interrupt and engines are brought up, the waveform is
     * loaded on the first enable only (and freed again when that fails),
     * and the manager is enabled.  The result is that of the last step
     * taken: the waveform load on the first enable, else the EDMA init.
     */
    method Enable(threadOk: bool, threadErr: int, edmaRet: int, waveRet: int) returns (ret: int)
      modifies this
      ensures old(priv.enableFlag) ==> ret == 0 && priv == old(priv) && calls == old(calls)
      ensures !old(priv.enableFlag) && !threadOk ==>
        ret == threadErr && priv == old(priv).(isEmpty := false) && calls == old(calls) + [CreateThread]
      ensures !old(priv.enableFlag) && threadOk ==>
        ret == (if old(priv.first) then waveRet else edmaRet)
        && priv == old(priv).(isEmpty := false, enableFlag := true, first := false)
        && calls == old(calls)
             + [CreateThread, WakeThread, ClkEnable, RegisterIrq, EnableIrq, EinkConfig, EdmaInit, EinkIrqEnable]
             + (if old(priv.first) then [InitWaveform] + (if waveRet != 0 then [FreeWaveform] else []) else [])
    {
      if priv.enableFlag {
        return 0;
      }
      if !threadOk {
        priv := priv.(isEmpty := false);
        calls := calls + [CreateThread];
        return threadErr;
      }
      var load := if priv.first then [InitWaveform] + (if waveRet != 0 then [FreeWaveform] else []) else [];
      ret := if priv.first then waveRet else edmaRet;
      calls := calls + [CreateThread, WakeThread, ClkEnable, RegisterIrq, EnableIrq, EinkConfig, EdmaInit, EinkIrqEnable] + load;
      priv := priv.(isEmpty := false, enableFlag := true, first := false);
    }

    /** eink_disable: the fresh thread is told to stop, the engine, clocks and interrupt are shut down; returns 0. */
    method Disable() returns (ret: int)
      modifies this
      ensures ret == 0
      ensures priv == old(priv).(isEmpty := true, enableFlag := false)
      ensures calls == old(calls) + [EinkIrqDisable, EinkDisable, ClkDisable, DisableIrq, UnregisterIrq]
    {
      priv := priv.(isEmpty := true, enableFlag := false);
      calls := calls + [EinkIrqDisable, EinkDisable, ClkDisable, DisableIrq, UnregisterIrq];
      ret := 0;
    }

    /** eink_update_image: enable (its result is dropped), then queue the image. */
    method UpdateImage(src: Option<nat>, mode: bv32, area: Area, threadOk: bool, threadErr: int, edmaRet: int, waveRet: int)
      returns (ret: int)
      requires Valid()
      modifies this, buffer
      ensures Valid()
      ensures old(priv.enableFlag) || threadOk ==> priv.enableFlag
      ensures old(buffer.inIndex) >= buffer.n ==> ret == -EINVAL && buffer.slots == old(buffer.slots)
      ensures old(buffer.inIndex) < buffer.n ==>
        ret == 0 && buffer.slots == old(buffer.slots)[old(buffer.inIndex) :=
          Written(old(buffer.slots)[old(buffer.inIndex)], src, mode, area, buffer.rectMode, buffer.initMode)]
      ensures old(Consistent(buffer.n, buffer.inIndex, buffer.outIndex)) && !old(buffer.IsFull()) ==>
        Consistent(buffer.n, buffer.inIndex, buffer.outIndex)
        && buffer.Pending() == old(buffer.Pending()) + [Written(old(buffer.slots)[old(buffer.inIndex)], src, mode, area, buffer.rectMode, buffer.initMode)]
    {
      var _ := Enable(threadOk, threadErr, edmaRet, waveRet);
      ret := buffer.QueueImage(src, mode, area);
    }
  }

  /** eink_get_temperature (and get_temperature): the panel temperature, 28 without a manager. */
  function GetTemperature(m: Manager?): (t: nat)
    reads m
    ensures m == null ==> t == 28
  {
    if m == null then 28 else m.priv.temperature
  }

  /** eink_set_temperature: -1 without a manager; otherwise 0, and the temperature read back is `temp`. */
  method SetTemperature(m: Manager?, temp: nat) returns (ret: int)
    requires temp < TWO32
    modifies m
    ensures m == null ==> ret == -1
    ensures m != null ==> ret == 0 && GetTemperature(m) == temp && m.priv == old(m.priv).(temperature := temp)
    ensures m != null ==> m.calls == old(m.calls)
  {
    ret := -1;
    if m != null {
      m.priv := m.priv.(temperature := temp);
      ret := 0;
    }
  }
}
