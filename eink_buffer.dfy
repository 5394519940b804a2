/**
 * The image queue of the e-ink display path (eink_buffer_manager.c): a ring
 * of IMAGE_BUF_NUM 8-bpp image slots with a write cursor `inIndex` and a
 * read cursor `outIndex`.  The slot at `outIndex` is the image on the panel
 * ("last image"); the queued images are the slots strictly between the two
 * cursors, so the ring is empty when in == out + 1 and full when
 * in + 1 == out, and it holds at most IMAGE_BUF_NUM - 2 images.
 *
 * IMAGE_BUF_NUM and the EINK_* update-mode values come from headers that
 * are not part of this model: they are the constants `n`, `rectMode` and
 * `initMode` of a manager.  An enumeration member that the source only
 * sets by zero-filling is taken to be its first one (Free, Local).  Image
 * memory is not modelled: a slot records which picture was last copied
 * into it.
 */
module EinkBuffer {
  import opened Common
  import opened Ring

  datatype SlotState = Free | Used

  /** eink_flash_mode: a partial (rectangle) update, a full update, or the panel-clearing init update. */
  datatype FlashMode = Local | Global | Init

  /** area_info: an update rectangle (unsigned corners). */
  datatype Area = Area(xTop: nat, yTop: nat, xBottom: nat, yBottom: nat)

  /** What an image slot holds: the 0xff fill of the initialisation, or the picture copied in. */
  datatype Content = White | Picture(id: nat)

  /** eink_8bpp_image without its memory addresses. */
  datatype Slot = Slot(
    state: SlotState, updateMode: bv32, flashMode: FlashMode, windowCalcEnable: bool,
    area: Area, width: nat, height: nat, align: nat, content: Content)

  /** The queue cursors are usable: both below n, and distinct. */
  predicate Consistent(n: nat, inIndex: nat, outIndex: nat)
  {
    n >= 2 && inIndex < n && outIndex < n && inIndex != outIndex
  }

  /** The number of queued images. */
  function Count(n: nat, inIndex: nat, outIndex: nat): (c: nat)
    requires Consistent(n, inIndex, outIndex)
    ensures c <= n - 2
  {
    Dist(outIndex, inIndex, n) - 1
  }

  /** The queued images, oldest first: the slots after outIndex and before inIndex. */
  function Queued(slots: seq<Slot>, n: nat, inIndex: nat, outIndex: nat): (q: seq<Slot>)
    requires |slots| == n && Consistent(n, inIndex, outIndex)
    ensures |q| == Count(n, inIndex, outIndex)
  {
    seq(Count(n, inIndex, outIndex), i requires 0 <= i < Count(n, inIndex, outIndex) => slots[Pos(outIndex, i + 1, n)])
  }

  /** is_ring_queue_empty's test means that nothing is queued. */
  lemma EmptyMeansNoneQueued(n: nat, inIndex: nat, outIndex: nat)
    requires Consistent(n, inIndex, outIndex)
    ensures inIndex == (outIndex + 1) % n <==> Count(n, inIndex, outIndex) == 0
  {
  }

  /** is_ring_queue_full's test means that n - 2 images are queued. */
  lemma FullMeansAllQueued(n: nat, inIndex: nat, outIndex: nat)
    requires Consistent(n, inIndex, outIndex)
    ensures (inIndex + 1) % n == outIndex <==> Count(n, inIndex, outIndex) == n - 2
  {
    DistFull(outIndex, inIndex, n);
  }

  /** The cursors ring_buffer_manager_init sets, in = 1 and out = 0, are an empty queue. */
  lemma InitialQueueEmpty(n: nat)
    requires n >= 2
    ensures Consistent(n, 1, 0) && Count(n, 1, 0) == 0 && 1 == (0 + 1) % n
  {
  }

  /**
   * Writing slot `inIndex` of a queue that is not full and advancing
   * `inIndex` appends that slot to the queued images.
   */
  lemma EnqueueAppends(slots: seq<Slot>, n: nat, inIndex: nat, outIndex: nat, s: Slot)
    requires |slots| == n && Consistent(n, inIndex, outIndex) && Next(inIndex, n) != outIndex
    ensures Consistent(n, Next(inIndex, n), outIndex)
    ensures Queued(slots[inIndex := s], n, Next(inIndex, n), outIndex) == Queued(slots, n, inIndex, outIndex) + [s]
  {
    var c := Count(n, inIndex, outIndex);
    DistNextFar(outIndex, inIndex, n);
    var q := Queued(slots, n, inIndex, outIndex);
    var q' := Queued(slots[inIndex := s], n, Next(inIndex, n), outIndex);
    assert |q'| == c + 1;
    forall i | 0 <= i < c
      ensures q'[i] == q[i]
    {
      if Pos(outIndex, i + 1, n) == inIndex {
        PosInjective(outIndex, i + 1, c + 1, n);
      }
    }
    assert q'[c] == s;
  }

  /**
   * On a full queue the slot at `inIndex` lies outside the queued images:
   * writing it, with the cursors kept, leaves the queued images as they
   * were, so the image queue_image writes there is not queued.
   */
  lemma FullWriteNotQueued(slots: seq<Slot>, n: nat, inIndex: nat, outIndex: nat, s: Slot)
    requires |slots| == n && Consistent(n, inIndex, outIndex) && Next(inIndex, n) == outIndex
    ensures Queued(slots[inIndex := s], n, inIndex, outIndex) == Queued(slots, n, inIndex, outIndex)
  {
    var c := Count(n, inIndex, outIndex);
    var q := Queued(slots, n, inIndex, outIndex);
    var q' := Queued(slots[inIndex := s], n, inIndex, outIndex);
    forall i | 0 <= i < c
      ensures q'[i] == q[i]
    {
      if Pos(outIndex, i + 1, n) == inIndex {
        PosInjective(outIndex, i + 1, c + 1, n);
      }
    }
  }

  /**
   * Advancing `outIndex` past a non-empty queue, whatever is written into
   * the slot it leaves, drops the oldest queued image.
   */
  lemma DequeueDrops(slots: seq<Slot>, n: nat, inIndex: nat, outIndex: nat, s: Slot)
    requires |slots| == n && Consistent(n, inIndex, outIndex) && inIndex != Next(outIndex, n)
    ensures Consistent(n, inIndex, Next(outIndex, n))
    ensures Queued(slots[outIndex := s], n, inIndex, Next(outIndex, n)) == Queued(slots, n, inIndex, outIndex)[1..]
  {
    var c := Count(n, inIndex, outIndex);
    DistNextNear(outIndex, inIndex, n);
    var q := Queued(slots, n, inIndex, outIndex);
    var q' := Queued(slots[outIndex := s], n, inIndex, Next(outIndex, n));
    assert |q'| == c - 1;
    forall i | 0 <= i < c - 1
      ensures q'[i] == q[i + 1]
    {
      PosNextStep(outIndex, i, n);
    }
  }

  lemma PosNextStep(a: nat, i: nat, n: nat)
    requires a < n && i + 2 < n
    ensures Pos(Next(a, n), i + 1, n) == Pos(a, i + 2, n)
  {
    PosNext(a, i + 1, n);
  }

  /** The slot after outIndex, which get_current_image returns, is the oldest queued image. */
  lemma CurrentIsOldest(slots: seq<Slot>, n: nat, inIndex: nat, outIndex: nat)
    requires |slots| == n && Consistent(n, inIndex, outIndex) && Count(n, inIndex, outIndex) > 0
    ensures slots[Next(outIndex, n)] == Queued(slots, n, inIndex, outIndex)[0]
  {
  }

  /**
   * Rewriting the current image (the update area the index calculation
   * reports back) changes only the oldest queued image.
   */
  lemma CurrentRewriteKeepsRest(slots: seq<Slot>, n: nat, inIndex: nat, outIndex: nat, s: Slot)
    requires |slots| == n && Consistent(n, inIndex, outIndex) && Count(n, inIndex, outIndex) > 0
    ensures Queued(slots[Next(outIndex, n) := s], n, inIndex, outIndex)[0] == s
    ensures Queued(slots[Next(outIndex, n) := s], n, inIndex, outIndex)[1..] == Queued(slots, n, inIndex, outIndex)[1..]
  {
    var c := Count(n, inIndex, outIndex);
    var q := Queued(slots, n, inIndex, outIndex);
    var q' := Queued(slots[Next(outIndex, n) := s], n, inIndex, outIndex);
    forall i | 1 <= i < c
      ensures q'[i] == q[i]
    {
      PosDist(outIndex, i + 1, n);
      PosDist(outIndex, 1, n);
    }
  }

  /**
   * The slot queue_image writes: marked used with the request's mode; a
   * rectangle request is a local update of its area, or of an area still
   * to be computed when the rectangle is all zero; any other request
   * updates the whole slot, with the init flash for EINK_INIT_MODE.
   */
  function Written(old_slot: Slot, src: Option<nat>, mode: bv32, area: Area, rectMode: bv32, initMode: bv32): (s: Slot)
    ensures s.state == Used && s.updateMode == mode
    ensures s.width == old_slot.width && s.height == old_slot.height && s.align == old_slot.align
    ensures s.content == if src.Some? then Picture(src.value) else old_slot.content
    ensures mode & rectMode != 0 ==>
      (s.flashMode == Local && (s.windowCalcEnable <==> area == Area(0, 0, 0, 0)) && s.area == area)
    ensures mode & rectMode == 0 ==>
      ((s.flashMode == Init <==> mode == initMode) && s.flashMode != Local && !s.windowCalcEnable
       && s.area == Area(0, 0, U32(old_slot.width - 1), U32(old_slot.height - 1)))
  {
    var content := if src.Some? then Picture(src.value) else old_slot.content;
    var base := old_slot.(state := Used, updateMode := mode, windowCalcEnable := false, content := content);
    if mode & rectMode != 0 then
      if area == Area(0, 0, 0, 0) then base.(flashMode := Local, windowCalcEnable := true, area := Area(0, 0, 0, 0))
      else base.(flashMode := Local, area := area)
    else
      base.(flashMode := if mode == initMode then Init else Global,
            area := Area(0, 0, U32(old_slot.width - 1), U32(old_slot.height - 1)))
  }

  /** The slot dequeue_image leaves behind: free, global flash, init mode, area to be computed. */
  function Released(s: Slot, initMode: bv32): (r: Slot)
    ensures r.state == Free && r.flashMode == Global && r.updateMode == initMode && r.windowCalcEnable
    ensures r.area == s.area && r.content == s.content && r.width == s.width && r.height == s.height
  {
    s.(state := Free, flashMode := Global, updateMode := initMode, windowCalcEnable := true)
  }

  /** eink_buffer_manager without its lock and image memory. */
  class BufferManager {
    const n: nat
    const rectMode: bv32
    const initMode: bv32
    const width: nat
    const height: nat
    var inIndex: nat
    var outIndex: nat
    var slots: seq<Slot>

    /** One slot per ring position. */
    ghost predicate Valid()
      reads this
    {
      n >= 2 && |slots| == n
    }

    /**
     * ring_buffer_manager_init: the geometry of the panel, an empty queue
     * (in = 1, out = 0), and every slot sized to the panel, in init mode
     * and filled white.
     */
    constructor(n0: nat, rectMode0: bv32, initMode0: bv32, width0: nat, height0: nat)
      requires n0 >= 2
      ensures Valid() && Consistent(n, inIndex, outIndex) && Count(n, inIndex, outIndex) == 0
      ensures n == n0 && rectMode == rectMode0 && initMode == initMode0 && width == width0 && height == height0
      ensures inIndex == 1 && outIndex == 0
      ensures forall i :: 0 <= i < n ==> slots[i] == Slot(Free, initMode0, Local, false, Area(0, 0, 0, 0), width0, height0, 4, White)
    {
      n := n0;
      rectMode := rectMode0;
      initMode := initMode0;
      width := width0;
      height := height0;
      inIndex := 1;
      outIndex := 0;
      var s: seq<Slot> := [];
      var i := 0;
      while i < n0
        invariant 0 <= i <= n0 && |s| == i
        invariant forall j :: 0 <= j < i ==> s[j] == Slot(Free, initMode0, Local, false, Area(0, 0, 0, 0), width0, height0, 4, White)
      {
        s := s + [Slot(Free, initMode0, Local, false, Area(0, 0, 0, 0), width0, height0, 4, White)];
        i := i + 1;
      }
      slots := s;
      InitialQueueEmpty(n0);
    }

    /** The images waiting to be shown, oldest first. */
    ghost function Pending(): seq<Slot>
      reads this
      requires Valid() && Consistent(n, inIndex, outIndex)
    {
      Queued(slots, n, inIndex, outIndex)
    }

    /** is_ring_queue_full: in + 1 == out (mod n), which is n - 2 images queued. */
    function IsFull(): (full: bool)
      reads this
      requires Valid()
      ensures Consistent(n, inIndex, outIndex) ==> (full <==> |Pending()| == n - 2)
    {
      var full := (inIndex + 1) % n == outIndex;
      if Consistent(n, inIndex, outIndex) then FullMeansAllQueued(n, inIndex, outIndex); full else full
    }

    /** is_ring_queue_empty: in == out + 1 (mod n), which is no image queued. */
    function IsEmpty(): (empty: bool)
      reads this
      requires Valid()
      ensures Consistent(n, inIndex, outIndex) ==> (empty <==> |Pending()| == 0)
    {
      var empty := inIndex == (outIndex + 1) % n;
      if Consistent(n, inIndex, outIndex) then EmptyMeansNoneQueued(n, inIndex, outIndex); empty else empty
    }

    /** get_current_image: the slot after out, which is the oldest pending image; None for a cursor out of range. */
    function GetCurrentImage(): (r: Option<Slot>)
      reads this
      requires Valid()
      ensures outIndex >= n <==> r.None?
      ensures Consistent(n, inIndex, outIndex) && |Pending()| > 0 ==> r == Some(Pending()[0])
    {
      if outIndex < n then
        var r := Some(slots[(outIndex + 1) % n]);
        if Consistent(n, inIndex, outIndex) && Count(n, inIndex, outIndex) > 0 then
          CurrentIsOldest(slots, n, inIndex, outIndex); r
        else r
      else None
    }

    /** get_last_image: the slot at out, the image on the panel; None for a cursor out of range. */
    function GetLastImage(): (r: Option<Slot>)
      reads this
      requires Valid()
      ensures outIndex >= n <==> r.None?
      ensures r.Some? ==> r.value == slots[outIndex]
    {
      if outIndex < n then Some(slots[outIndex]) else None
    }

    /**
     * queue_image: -EINVAL with nothing changed for a write cursor out of
     * range; otherwise slot `inIndex` becomes Written(...), and the cursor
     * advances unless the queue was full.  On a consistent queue that is
     * not full the new image is appended; on a full one the pending images
     * stay as they were and the new image is not queued.
     */
    method QueueImage(src: Option<nat>, mode: bv32, area: Area) returns (ret: int)
      requires Valid()
      modifies this
      ensures Valid() && outIndex == old(outIndex)
      ensures old(inIndex) >= n ==> ret == -EINVAL && inIndex == old(inIndex) && slots == old(slots)
      ensures old(inIndex) < n ==>
        (ret == 0
         && slots == old(slots)[old(inIndex) := Written(old(slots)[old(inIndex)], src, mode, area, rectMode, initMode)]
         && inIndex == if (old(inIndex) + 1) % n == old(outIndex) then old(inIndex) else (old(inIndex) + 1) % n)
      ensures old(Consistent(n, inIndex, outIndex)) ==> Consistent(n, inIndex, outIndex)
      ensures old(Consistent(n, inIndex, outIndex)) && !old(IsFull()) ==>
        Pending() == old(Pending()) + [Written(old(slots)[old(inIndex)], src, mode, area, rectMode, initMode)]
      ensures old(Consistent(n, inIndex, outIndex)) && old(IsFull()) ==> Pending() == old(Pending())
    {
      var i := inIndex;
      if i >= n {
        return -EINVAL;
      }
      var full := (i + 1) % n == outIndex;
      var s := Written(slots[i], src, mode, area, rectMode, initMode);
      ghost var before := slots;
      slots := slots[i := s];
      if !full {
        inIndex := (i + 1) % n;
      }
      ret := 0;
      if Consistent(n, i, outIndex) {
        if full {
          FullWriteNotQueued(before, n, i, outIndex, s);
        } else {
          EnqueueAppends(before, n, i, outIndex, s);
        }
      }
    }

    /**
     * dequeue_image: -EINVAL for a read cursor out of range, -EBUSY on an
     * empty queue (nothing changes in either case); otherwise the slot at
     * out is released and out advances, which drops the oldest pending
     * image.
     */
    method DequeueImage() returns (ret: int)
      requires Valid()
      modifies this
      ensures Valid() && inIndex == old(inIndex)
      ensures old(outIndex) >= n ==> ret == -EINVAL && outIndex == old(outIndex) && slots == old(slots)
      ensures old(outIndex) < n && old(IsEmpty()) ==> ret == -EBUSY && outIndex == old(outIndex) && slots == old(slots)
      ensures old(outIndex) < n && !old(IsEmpty()) ==>
        (ret == 0 && slots == old(slots)[old(outIndex) := Released(old(slots)[old(outIndex)], initMode)]
         && outIndex == (old(outIndex) + 1) % n)
      ensures old(Consistent(n, inIndex, outIndex)) ==> Consistent(n, inIndex, outIndex)
      ensures old(Consistent(n, inIndex, outIndex)) && !old(IsEmpty()) ==> Pending() == old(Pending())[1..]
    {
      var o := outIndex;
      if o >= n {
        return -EINVAL;
      }
      if inIndex == (o + 1) % n {
        return -EBUSY;
      }
      var s := Released(slots[o], initMode);
      ghost var before := slots;
      slots := slots[o := s];
      outIndex := (o + 1) % n;
      ret := 0;
      if Consistent(n, inIndex, o) {
        DequeueDrops(before, n, inIndex, o, s);
      }
    }
  }
}
