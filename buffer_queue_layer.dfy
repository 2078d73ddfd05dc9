/**
 * The compositor's shadow copy of a layer's buffer queue: the items the
 * producer queued, the counter and frame-number tracker kept beside them, the
 * decisions taken from the queue head, and the two flag machines of the layer
 * (the sideband-stream latch and the release-trace dedupe).
 *
 * The buffer consumer, fences, tracers and the compositor are outside the
 * model: what they answer is passed in as parameters, and a flag returned by a
 * method says where the source asks for another layer update.
 */
module Layers {

  /** s2ns(1): one second in nanoseconds. */
  const ONE_SECOND_NS: int := 1000000000

  /** The consumer's bound on how far in the past a desired present time may lie (one second). */
  const MAX_REASONABLE_NSEC: int := 1000000000

  /** The buffer-slot value that names no slot. */
  const INVALID_BUFFER_SLOT: int := -1

  /** A strong pointer to an object outside the model (buffer, fence, stream). */
  datatype Handle = NullHandle | Handle(id: nat)

  /** One queued buffer as the shadow queue records it. */
  datatype BufferItem = BufferItem(
    frameNumber: nat,
    timestamp: int,
    isAutoTimestamp: bool,
    isDroppable: bool)

  /** Status codes: NO_ERROR, BAD_VALUE, or any other error the consumer reports. */
  datatype Status = NoError | BadValue | OtherError

  /** What the consumer's updateTexImage answered: one of its two special codes
      (PRESENT_LATER, BUFFER_REJECTED) or an ordinary status. */
  datatype UpdateResult = PresentLater | BufferRejected | Completed(status: Status)

  function Min(a: int, b: int): int {
    if a <= b then a else b
  }

  // ---------------------------------------------------------------------------
  // Reference definitions over the queue
  // ---------------------------------------------------------------------------

  /** Some queued item carries `frameNumber`. */
  ghost predicate HasFrame(q: seq<BufferItem>, frameNumber: nat) {
    exists i | 0 <= i < |q| :: q[i].frameNumber == frameNumber
  }

  /** The position of the first item carrying `frameNumber`. */
  function IndexOfFrame(q: seq<BufferItem>, frameNumber: nat): (k: nat)
    requires HasFrame(q, frameNumber)
    ensures k < |q| && q[k].frameNumber == frameNumber
    ensures forall j | 0 <= j < k :: q[j].frameNumber != frameNumber
  {
    if q[0].frameNumber == frameNumber then 0
    else
      var i :| 0 <= i < |q| && q[i].frameNumber == frameNumber;
      assert q[1..][i - 1] == q[i];
      1 + IndexOfFrame(q[1..], frameNumber)
  }

  /** The length of the leading run of signalled fences. */
  function SignaledPrefix(signaled: seq<bool>): (n: nat)
    ensures n <= |signaled|
    ensures forall j | 0 <= j < n :: signaled[j]
    ensures n < |signaled| ==> !signaled[n]
  {
    if |signaled| == 0 || !signaled[0] then 0 else 1 + SignaledPrefix(signaled[1..])
  }

  /** The frame number of the last item whose fence and every earlier fence have
      signalled, or `tracker` when the head's fence is pending. */
  function LastSignaledFrameNumber(q: seq<BufferItem>, signaled: seq<bool>, tracker: nat): nat
    requires |signaled| == |q|
  {
    var n := SignaledPrefix(signaled);
    if n == 0 then tracker else q[n - 1].frameNumber
  }

  /** An item behind the head may replace it: its fence has signalled, it carries an
      explicit timestamp, and that timestamp lies within one MAX_REASONABLE_NSEC
      before `expectedPresentTime`. */
  predicate IsLatchable(item: BufferItem, fenceSignaled: bool, expectedPresentTime: int) {
    fenceSignaled && !item.isAutoTimestamp &&
    expectedPresentTime - MAX_REASONABLE_NSEC <= item.timestamp <= expectedPresentTime
  }

  /** The last index of the run of latchable items starting at `i`, or `i - 1` when
      item `i` is not latchable. */
  function ScanFrom(q: seq<BufferItem>, signaled: seq<bool>, expectedPresentTime: int, i: nat): (k: nat)
    requires |signaled| == |q| && 1 <= i <= |q|
    ensures i - 1 <= k < |q|
    ensures forall j | i <= j <= k :: IsLatchable(q[j], signaled[j], expectedPresentTime)
    ensures k + 1 < |q| ==> !IsLatchable(q[k + 1], signaled[k + 1], expectedPresentTime)
    decreases |q| - i
  {
    if i < |q| && IsLatchable(q[i], signaled[i], expectedPresentTime)
    then ScanFrom(q, signaled, expectedPresentTime, i + 1)
    else i - 1
  }

  /** The index of the item to latch: the head, or the last item of the latchable
      run that follows it. */
  function LatchIndex(q: seq<BufferItem>, signaled: seq<bool>, expectedPresentTime: int): (k: nat)
    requires |signaled| == |q| && |q| > 0
    ensures k < |q|
    ensures forall j | 1 <= j <= k :: IsLatchable(q[j], signaled[j], expectedPresentTime)
    ensures k + 1 < |q| ==> !IsLatchable(q[k + 1], signaled[k + 1], expectedPresentTime)
  {
    ScanFrom(q, signaled, expectedPresentTime, 1)
  }

  /** When the head's fence has signalled, the item chosen for latching lies within
      the signalled prefix that bounds what the consumer may acquire. */
  lemma LatchedItemIsSignaled(q: seq<BufferItem>, signaled: seq<bool>, expectedPresentTime: int)
    requires |signaled| == |q| && |q| > 0 && signaled[0]
    ensures LatchIndex(q, signaled, expectedPresentTime) < SignaledPrefix(signaled)
  {
  }

  // ---------------------------------------------------------------------------
  // Composition state latched per frame
  // ---------------------------------------------------------------------------

  /** The composition type chosen for a layer. */
  datatype Composition = Invalid | Client | Device | SolidColor | Cursor | Sideband

  /** The per-frame front-end state of the layer's composition. */
  datatype LayerFEState = LayerFEState(compositionType: Composition, buffer: Handle, bufferSlot: int, acquireFence: Handle)

  /** The layer's current buffer, its slot and its acquire fence. */
  datatype BufferInfo = BufferInfo(buffer: Handle, bufferSlot: int, fence: Handle)

  /**
   * latchPerFrameState, after the base layer's part: a sideband layer keeps its
   * state; any other takes the current buffer and fence, and its slot is never
   * the invalid-slot marker.
   */
  function LatchPerFrameState(state: LayerFEState, info: BufferInfo): (r: LayerFEState)
    ensures r.compositionType == state.compositionType
    ensures state.compositionType == Sideband ==> r == state
    ensures state.compositionType != Sideband ==>
              r.buffer == info.buffer && r.acquireFence == info.fence &&
              r.bufferSlot != INVALID_BUFFER_SLOT &&
              (info.bufferSlot != INVALID_BUFFER_SLOT ==> r.bufferSlot == info.bufferSlot) &&
              (info.bufferSlot == INVALID_BUFFER_SLOT ==> r.bufferSlot == 0)
  {
    if state.compositionType == Sideband then state
    else
      state.(buffer := info.buffer,
             bufferSlot := if info.bufferSlot == INVALID_BUFFER_SLOT then 0 else info.bufferSlot,
             acquireFence := info.fence)
  }

  // ---------------------------------------------------------------------------
  // BufferQueueLayer
  // ---------------------------------------------------------------------------

  class BufferQueueLayer {
    /** The shadow queue of queued buffers, oldest first. */
    var queueItems: seq<BufferItem>
    /** The number of queued frames, kept beside the queue. */
    var queuedFrames: int
    /** The frame number of the last buffer received from the producer. */
    var lastFrameNumberReceived: nat
    /** Set once the consumer failed; from then on every update fails. */
    var updateTexImageFailed: bool
    /** Whether the consumer is in auto-refresh mode. */
    var autoRefresh: bool
    /** Whether a new sideband stream is waiting to be latched. */
    var sidebandStreamChanged: bool
    /** The latched sideband stream. */
    var sidebandStream: Handle
    /** Frame numbers of the current and previous latched buffers. */
    var currentFrameNumber: nat
    var previousFrameNumber: nat
    /** The frame number whose release was last traced. */
    var previousReleasedFrameNumber: nat
    /** The default pixel format of the layer's buffers. */
    var format: int

    /** The counter always equals the queue length, and the tail of a non-empty
        queue carries the last frame number received. */
    ghost predicate Valid()
      reads this
    {
      queuedFrames == |queueItems| &&
      (|queueItems| > 0 ==> queueItems[|queueItems| - 1].frameNumber == lastFrameNumberReceived)
    }

    /** A layer with an empty queue and every flag cleared. */
    constructor ()
      ensures Valid()
      ensures queueItems == [] && lastFrameNumberReceived == 0
      ensures !updateTexImageFailed && !autoRefresh && !sidebandStreamChanged
      ensures currentFrameNumber == 0 && previousFrameNumber == 0 && previousReleasedFrameNumber == 0
    {
      queueItems := [];
      queuedFrames := 0;
      lastFrameNumberReceived := 0;
      updateTexImageFailed := false;
      autoRefresh := false;
      sidebandStreamChanged := false;
      currentFrameNumber := 0;
      previousFrameNumber := 0;
      previousReleasedFrameNumber := 0;
    }

    /** getQueuedFrameCount: the number of items in the shadow queue. */
    function GetQueuedFrameCount(): (n: int)
      reads this
      requires Valid()
      ensures n == |queueItems|
    {
      queuedFrames
    }

    /** hasFrameUpdate: whether the shadow queue holds an item. */
    function HasFrameUpdate(): (b: bool)
      reads this
      requires Valid()
      ensures b <==> |queueItems| > 0
    {
      queuedFrames > 0
    }

    /**
     * shouldPresentNow: a sideband change or auto-refresh presents at once; an
     * empty queue never does; otherwise the head is presented when it is due,
     * or when its timestamp is implausibly far (a second or more) in the future.
     */
    function ShouldPresentNow(expectedPresentTime: int): bool
      reads this
      requires Valid()
    {
      if sidebandStreamChanged || autoRefresh then true
      else if !HasFrameUpdate() then false
      else
        var addedTime := queueItems[0].timestamp;
        var isPlausible := addedTime < expectedPresentTime + ONE_SECOND_NS;
        var isDue := addedTime < expectedPresentTime;
        isDue || !isPlausible
    }

    /**
     * fenceHasSignaled: true when unsignalled buffers may be latched, when the
     * queue is empty, or when the head is droppable; otherwise whether the
     * head's fence has signalled.
     */
    function FenceHasSignaled(latchUnsignaledBuffers: bool, signaled: seq<bool>): bool
      reads this
      requires Valid() && |signaled| == |queueItems|
    {
      if latchUnsignaledBuffers then true
      else if !HasFrameUpdate() then true
      else if queueItems[0].isDroppable then true
      else signaled[0]
    }

    /** framePresentTimeIsCurrent: true for an empty queue or a removed layer,
        otherwise whether the head's timestamp is not after `expectedPresentTime`. */
    function FramePresentTimeIsCurrent(expectedPresentTime: int, removedFromCurrentState: bool): bool
      reads this
      requires Valid()
    {
      if !HasFrameUpdate() || removedFromCurrentState then true
      else queueItems[0].timestamp <= expectedPresentTime
    }

    /**
     * getFrameNumber: the frame number of the item to latch. The scan starts
     * behind the head and moves on while items are latchable; a removed layer
     * scans against a present time of 0.
     */
    method GetFrameNumber(expectedPresentTime: int, removedFromCurrentState: bool, signaled: seq<bool>)
      returns (frameNumber: nat)
      requires Valid() && |queueItems| > 0 && |signaled| == |queueItems|
      ensures frameNumber ==
              queueItems[LatchIndex(queueItems, signaled, if removedFromCurrentState then 0 else expectedPresentTime)].frameNumber
    {
      var presentTime := if removedFromCurrentState then 0 else expectedPresentTime;
      ghost var k := LatchIndex(queueItems, signaled, presentTime);
      frameNumber := queueItems[0].frameNumber;
      var i := 1;
      while i < |queueItems|
        invariant 1 <= i <= |queueItems|
        invariant frameNumber == queueItems[i - 1].frameNumber
        invariant ScanFrom(queueItems, signaled, presentTime, i) == k
      {
        if !signaled[i] {
          break;
        }
        if queueItems[i].isAutoTimestamp {
          break;
        }
        var desiredPresent := queueItems[i].timestamp;
        if desiredPresent < presentTime - MAX_REASONABLE_NSEC || desiredPresent > presentTime {
          break;
        }
        frameNumber := queueItems[i].frameNumber;
        i := i + 1;
      }
    }

    /**
     * The bound on the frame number updateTexImage lets the consumer acquire:
     * the smaller of the tracker and the frame number of the last item of the
     * signalled prefix (the tracker when that prefix is empty).
     */
    method MaxFrameNumberToAcquire(signaled: seq<bool>) returns (bound: nat)
      requires Valid() && |signaled| == |queueItems|
      ensures bound <= lastFrameNumberReceived
      ensures bound == Min(lastFrameNumberReceived, LastSignaledFrameNumber(queueItems, signaled, lastFrameNumberReceived))
    {
      var lastSignaledFrameNumber := lastFrameNumberReceived;
      var i := 0;
      while i < |queueItems|
        invariant 0 <= i <= |queueItems|
        invariant forall j | 0 <= j < i :: signaled[j]
        invariant lastSignaledFrameNumber == if i == 0 then lastFrameNumberReceived else queueItems[i - 1].frameNumber
      {
        if !signaled[i] {
          break;
        }
        lastSignaledFrameNumber := queueItems[i].frameNumber;
        i := i + 1;
      }
      bound := if lastFrameNumberReceived <= lastSignaledFrameNumber then lastFrameNumberReceived else lastSignaledFrameNumber;
    }

    /**
     * updateTexImage, as it affects the shadow queue. The consumer's answer
     * (`updateResult`, `queuedBuffer`, the frame number it latched and its
     * auto-refresh mode) is passed in; the bound handed to the consumer is
     * returned, as is whether another layer update is signalled.
     */
    method UpdateTexImage(signaled: seq<bool>, updateResult: UpdateResult, queuedBuffer: bool,
                          consumerFrameNumber: nat, consumerAutoRefresh: bool)
      returns (status: Status, maxFrameNumberToAcquire: nat, layerUpdateSignaled: bool)
      requires Valid() && |signaled| == |queueItems|
      requires queuedBuffer && updateResult == BufferRejected ==> |queueItems| > 0
      requires queuedBuffer && updateResult == Completed(NoError) && !updateTexImageFailed ==>
                 HasFrame(queueItems, consumerFrameNumber)
      modifies this
      ensures Valid()
      ensures maxFrameNumberToAcquire == Min(old(lastFrameNumberReceived),
                LastSignaledFrameNumber(old(queueItems), signaled, old(lastFrameNumberReceived)))
      ensures autoRefresh == consumerAutoRefresh
      ensures lastFrameNumberReceived == old(lastFrameNumberReceived)
      ensures unchanged(this`sidebandStreamChanged, this`sidebandStream, this`currentFrameNumber,
                        this`previousFrameNumber, this`previousReleasedFrameNumber, this`format)
      // the failure flag is sticky: once set, every later call fails
      ensures old(updateTexImageFailed) ==> status == BadValue && updateTexImageFailed
      ensures updateResult == PresentLater ==>
                status == BadValue && layerUpdateSignaled &&
                queueItems == old(queueItems) && updateTexImageFailed == old(updateTexImageFailed)
      ensures updateResult == BufferRejected ==>
                status == BadValue && !layerUpdateSignaled &&
                queueItems == (if queuedBuffer then old(queueItems)[1..] else old(queueItems)) &&
                updateTexImageFailed == old(updateTexImageFailed)
      ensures updateResult.Completed? && (updateResult.status != NoError || old(updateTexImageFailed)) ==>
                status == BadValue && !layerUpdateSignaled && updateTexImageFailed &&
                queueItems == (if queuedBuffer then [] else old(queueItems))
      ensures updateResult == Completed(NoError) && !old(updateTexImageFailed) ==>
                status == NoError && !updateTexImageFailed &&
                queueItems == (if queuedBuffer
                               then old(queueItems)[IndexOfFrame(old(queueItems), consumerFrameNumber) + 1..]
                               else old(queueItems)) &&
                layerUpdateSignaled == ((queuedBuffer && |queueItems| > 0) || autoRefresh)
    {
      maxFrameNumberToAcquire := MaxFrameNumberToAcquire(signaled);
      autoRefresh := consumerAutoRefresh;
      if updateResult == PresentLater {
        return BadValue, maxFrameNumberToAcquire, true;
      } else if updateResult == BufferRejected {
        if queuedBuffer {
          queueItems := queueItems[1..];
          queuedFrames := queuedFrames - 1;
        }
        return BadValue, maxFrameNumberToAcquire, false;
      } else if updateResult.status != NoError || updateTexImageFailed {
        if queuedBuffer {
          queueItems := [];
          queuedFrames := 0;
        }
        updateTexImageFailed := true;
        return BadValue, maxFrameNumberToAcquire, false;
      }

      if queuedBuffer {
        ghost var original := queueItems;
        ghost var target := IndexOfFrame(original, consumerFrameNumber);
        ghost var dropped := 0;
        // drop the stale buffers the consumer skipped over
        while queueItems[0].frameNumber != consumerFrameNumber
          invariant 0 <= dropped <= target
          invariant queueItems == original[dropped..]
          invariant queuedFrames == |queueItems|
          modifies this`queueItems, this`queuedFrames
          decreases |queueItems|
        {
          queueItems := queueItems[1..];
          queuedFrames := queuedFrames - 1;
          dropped := dropped + 1;
        }
        assert dropped == target;
        // the latched buffer itself leaves the queue
        queueItems := queueItems[1..];
      }

      var framesBefore := queuedFrames;
      if queuedBuffer {
        queuedFrames := queuedFrames - 1;
      }
      layerUpdateSignaled := (queuedBuffer && framesBefore > 1) || autoRefresh;
      status := NoError;
    }

    /**
     * onFrameAvailable: appends the new item and records its frame number. A
     * frame number of 1 first resets the tracker. Callbacks arrive in order, so
     * the item's frame number follows the tracker. Another layer update is
     * always signalled.
     */
    method OnFrameAvailable(item: BufferItem) returns (layerUpdateSignaled: bool)
      requires Valid()
      requires item.frameNumber == 1 || item.frameNumber == lastFrameNumberReceived + 1
      modifies this
      ensures Valid()
      ensures queueItems == old(queueItems) + [item]
      ensures queuedFrames == old(queuedFrames) + 1
      ensures lastFrameNumberReceived == item.frameNumber
      ensures layerUpdateSignaled
      ensures unchanged(this`updateTexImageFailed, this`autoRefresh, this`sidebandStreamChanged,
                        this`sidebandStream, this`currentFrameNumber, this`previousFrameNumber,
                        this`previousReleasedFrameNumber, this`format)
    {
      if item.frameNumber == 1 {
        lastFrameNumberReceived := 0;
      }
      assert item.frameNumber == lastFrameNumberReceived + 1;
      queueItems := queueItems + [item];
      queuedFrames := queuedFrames + 1;
      lastFrameNumberReceived := item.frameNumber;
      layerUpdateSignaled := true;
    }

    /**
     * onFrameReplaced: on an empty queue nothing changes; otherwise the item
     * overwrites the tail, every earlier item and the count stay, and the
     * tracker takes the new frame number.
     */
    method OnFrameReplaced(item: BufferItem)
      requires Valid()
      requires item.frameNumber == lastFrameNumberReceived + 1
      modifies this
      ensures Valid()
      ensures old(|queueItems|) == 0 ==> unchanged(this)
      ensures old(|queueItems|) > 0 ==>
                |queueItems| == old(|queueItems|) && queuedFrames == old(queuedFrames) &&
                queueItems[..|queueItems| - 1] == old(queueItems)[..|queueItems| - 1] &&
                queueItems[|queueItems| - 1] == item &&
                lastFrameNumberReceived == item.frameNumber
      ensures unchanged(this`updateTexImageFailed, this`autoRefresh, this`sidebandStreamChanged,
                        this`sidebandStream, this`currentFrameNumber, this`previousFrameNumber,
                        this`previousReleasedFrameNumber, this`format)
    {
      if !HasFrameUpdate() {
        return;
      }
      queueItems := queueItems[|queueItems| - 1 := item];
      lastFrameNumberReceived := item.frameNumber;
    }

    /** onSidebandStreamChanged: raises the flag; a layer update is signalled only
        when the flag was clear. */
    method OnSidebandStreamChanged() returns (layerUpdateSignaled: bool)
      modifies this
      ensures sidebandStreamChanged
      ensures layerUpdateSignaled <==> !old(sidebandStreamChanged)
      ensures queueItems == old(queueItems) && queuedFrames == old(queuedFrames)
      ensures unchanged(this`lastFrameNumberReceived, this`updateTexImageFailed, this`autoRefresh,
                        this`sidebandStream, this`currentFrameNumber, this`previousFrameNumber,
                        this`previousReleasedFrameNumber, this`format)
    {
      layerUpdateSignaled := !sidebandStreamChanged;
      sidebandStreamChanged := true;
    }

    /**
     * latchSidebandStream: when the flag is raised, clears it, takes the
     * consumer's stream, asks for visible regions to be recomputed and, for a
     * non-null stream, for a transaction. Otherwise changes nothing.
     */
    method LatchSidebandStream(recomputeVisibleRegions: bool, consumerSidebandStream: Handle)
      returns (latched: bool, recompute: bool, transactionNeeded: bool)
      modifies this
      ensures latched <==> old(sidebandStreamChanged)
      ensures !sidebandStreamChanged
      ensures latched ==>
                sidebandStream == consumerSidebandStream && recompute &&
                (transactionNeeded <==> consumerSidebandStream != NullHandle)
      ensures !latched ==>
                sidebandStream == old(sidebandStream) && recompute == recomputeVisibleRegions && !transactionNeeded
      ensures queueItems == old(queueItems) && queuedFrames == old(queuedFrames)
      ensures unchanged(this`lastFrameNumberReceived, this`updateTexImageFailed, this`autoRefresh,
                        this`currentFrameNumber, this`previousFrameNumber,
                        this`previousReleasedFrameNumber, this`format)
    {
      recompute := recomputeVisibleRegions;
      transactionNeeded := false;
      latched := sidebandStreamChanged;
      if latched {
        sidebandStreamChanged := false;
        sidebandStream := consumerSidebandStream;
        transactionNeeded := sidebandStream != NullHandle;
        recompute := true;
      }
    }

    /** onLayerDisplayed: traces the release of the previous frame once; a second
        call for the same frame traces nothing. */
    method OnLayerDisplayed() returns (releaseTraced: bool)
      modifies this
      ensures releaseTraced <==> old(previousFrameNumber) != old(previousReleasedFrameNumber)
      ensures previousReleasedFrameNumber == previousFrameNumber == old(previousFrameNumber)
      ensures queueItems == old(queueItems) && queuedFrames == old(queuedFrames)
      ensures unchanged(this`lastFrameNumberReceived, this`updateTexImageFailed, this`autoRefresh,
                        this`sidebandStreamChanged, this`sidebandStream, this`currentFrameNumber, this`format)
    {
      releaseTraced := previousFrameNumber != previousReleasedFrameNumber;
      if releaseTraced {
        previousReleasedFrameNumber := previousFrameNumber;
      }
    }

    /** updateFrameNumber: the current frame number becomes the previous one and
        the consumer's frame number becomes current. */
    method UpdateFrameNumber(consumerFrameNumber: nat)
      modifies this
      ensures previousFrameNumber == old(currentFrameNumber) && currentFrameNumber == consumerFrameNumber
      ensures queueItems == old(queueItems) && queuedFrames == old(queuedFrames)
      ensures unchanged(this`lastFrameNumberReceived, this`updateTexImageFailed, this`autoRefresh,
                        this`sidebandStreamChanged, this`sidebandStream,
                        this`previousReleasedFrameNumber, this`format)
    {
      previousFrameNumber := currentFrameNumber;
      currentFrameNumber := consumerFrameNumber;
    }

    /**
     * setDefaultBufferProperties: rejects a width or height above the smaller of
     * the maximum texture size and the maximum viewport dimension; otherwise
     * records the format.
     */
    method SetDefaultBufferProperties(w: nat, h: nat, pixelFormat: int, maxTextureSize: nat, maxViewportDims: nat)
      returns (status: Status)
      modifies this
      ensures status == NoError <==> w <= maxTextureSize && w <= maxViewportDims && h <= maxTextureSize && h <= maxViewportDims
      ensures format == if status == NoError then pixelFormat else old(format)
      ensures queueItems == old(queueItems) && queuedFrames == old(queuedFrames)
      ensures unchanged(this`lastFrameNumberReceived, this`updateTexImageFailed, this`autoRefresh,
                        this`sidebandStreamChanged, this`sidebandStream, this`currentFrameNumber,
                        this`previousFrameNumber, this`previousReleasedFrameNumber)
    {
      var maxSurfaceDims := Min(maxTextureSize, maxViewportDims);
      if w > maxSurfaceDims || h > maxSurfaceDims {
        return BadValue;
      }
      format := pixelFormat;
      status := NoError;
    }
  }

  // ---------------------------------------------------------------------------
  // Properties of the decisions taken from the queue head
  // ---------------------------------------------------------------------------

  /** Without a sideband change or auto-refresh, a queued head is held back exactly
      while its timestamp lies in the coming second [expectedPresentTime, +1s). */
  lemma ShouldPresentNowHoldsBackOnlyTheComingSecond(l: BufferQueueLayer, expectedPresentTime: int)
    requires l.Valid() && !l.sidebandStreamChanged && !l.autoRefresh && |l.queueItems| > 0
    ensures !l.ShouldPresentNow(expectedPresentTime) <==>
            expectedPresentTime <= l.queueItems[0].timestamp < expectedPresentTime + ONE_SECOND_NS
  {
  }

  /** An empty queue is never presented unless a sideband change or auto-refresh asks for it. */
  lemma ShouldPresentNowEmptyQueue(l: BufferQueueLayer, expectedPresentTime: int)
    requires l.Valid() && l.queuedFrames == 0
    ensures l.ShouldPresentNow(expectedPresentTime) <==> l.sidebandStreamChanged || l.autoRefresh
  {
  }

  /** A head that is due stays due for every later expected present time. */
  lemma DueHeadStaysDue(l: BufferQueueLayer, expectedPresentTime: int, later: int)
    requires l.Valid() && |l.queueItems| > 0 && l.queueItems[0].timestamp < expectedPresentTime
    requires expectedPresentTime <= later
    ensures l.ShouldPresentNow(expectedPresentTime) && l.ShouldPresentNow(later)
  {
  }

  /** When the head is presented for being due, its present time is current too. */
  lemma PresentedHeadIsCurrent(l: BufferQueueLayer, expectedPresentTime: int, removedFromCurrentState: bool)
    requires l.Valid() && !l.sidebandStreamChanged && !l.autoRefresh
    requires |l.queueItems| > 0 ==> l.queueItems[0].timestamp < expectedPresentTime + ONE_SECOND_NS
    requires l.ShouldPresentNow(expectedPresentTime)
    ensures l.FramePresentTimeIsCurrent(expectedPresentTime, removedFromCurrentState)
  {
  }

  /** The head blocks latching exactly when unsignalled latching is off, the queue is
      non-empty, the head is not droppable and its fence is pending; the acquire
      bound then falls back to the tracker. */
  lemma FenceHasSignaledBlocksOnlyPendingHead(l: BufferQueueLayer, latchUnsignaledBuffers: bool, signaled: seq<bool>)
    requires l.Valid() && |signaled| == |l.queueItems|
    ensures !l.FenceHasSignaled(latchUnsignaledBuffers, signaled) <==>
            !latchUnsignaledBuffers && |l.queueItems| > 0 && !l.queueItems[0].isDroppable && !signaled[0]
    ensures !l.FenceHasSignaled(latchUnsignaledBuffers, signaled) ==>
            Min(l.lastFrameNumberReceived,
                LastSignaledFrameNumber(l.queueItems, signaled, l.lastFrameNumberReceived)) == l.lastFrameNumberReceived
  {
  }

  /** When every queued fence has signalled, the acquire bound is the tracker: the
      tail of the queue carries the last frame number received. */
  lemma AllSignaledBoundIsTracker(l: BufferQueueLayer, signaled: seq<bool>)
    requires l.Valid() && |signaled| == |l.queueItems|
    requires forall j | 0 <= j < |signaled| :: signaled[j]
    ensures LastSignaledFrameNumber(l.queueItems, signaled, l.lastFrameNumberReceived) == l.lastFrameNumberReceived
  {
    var n := SignaledPrefix(signaled);
    assert n == |signaled|;
  }
}
