# SurfaceFlinger refresh-rate catalog and buffer-queue layer, in Dafny

This project models two sequential parts of Android's SurfaceFlinger and proves
properties of the model.

**Scheduler** (`refresh_rate_configs.dfy`) models the refresh-rate catalog of
the display scheduler (`RefreshRateConfigs`):

- `RefreshRate` records with their `inPolicy` test and their identity-only
  equality.
- `LayerRequirement` votes with their field-wise equality.
- The `RefreshRateConfigEvent` flag and its bitwise OR.
- The class state, as a Dafny class:
  - the catalog and the device min/max entries are `const` fields, so nothing
    can change them after construction;
  - the policy (default config and fps window), the available list and the
    current config are mutable fields.

The object invariant `Valid()` says four things:

- every catalog entry sits under its own config id, has a positive vsync period
  and the fps derived from that period;
- the device min/max entries hold the longest and shortest vsync periods;
- the policy is valid;
- the available list holds exactly the in-policy catalog entries, each once,
  ordered by vsync period with the lowest refresh rate first.

**Layers** (`buffer_queue_layer.dfy`) models `BufferQueueLayer`, the
compositor's shadow copy of a layer's buffer queue. It is a class whose fields
are:

- the queue of items;
- the queued-frame counter;
- the frame-number tracker;
- the sticky failure flag;
- the auto-refresh, sideband and release-trace state.

Its invariant says two things. The counter equals the queue length. The tail of
a non-empty queue carries the last frame number received. Every state-changing
method keeps this invariant and states the new queue in terms of the old one.
The scans of `getFrameNumber` and of the acquire bound in `updateTexImage` are
loops. Each is proved against a recursive reference definition
(`LatchIndex`, `SignaledPrefix`).

The consumer, fences, tracers and the compositor are outside the model. What
they answer is passed in as parameters:

- the consumer's result code;
- `queuedBuffer`;
- the consumer's current frame number and auto-refresh mode;
- the sideband stream;
- one fence-signalled boolean per queued item, read at the time of the call.

Where the source calls `signalLayerUpdate` or asks for a transaction, the
method returns a boolean instead.

Constants used:

- `FPS_EPSILON` = 0.001.
- The initial policy window is [0, `FLT_MAX`]. `FLT_MAX` is written out as an
  exact real.
- `s2ns(1)` = 10^9 ns.
- `MAX_REASONABLE_NSEC` = 10^9 ns. It is declared in `BufferQueueConsumer`,
  which is not part of this model.
- `INVALID_BUFFER_SLOT` = -1. It is declared in `BufferItem`, which is not part
  of this model.

Only the header `RefreshRateConfigs.h` is part of this model. The method bodies
of `RefreshRateConfigs` in its `.cpp` are not. The contracts of those methods
come from the header's doc comments and field comments. Their bodies in the
model are plain implementations of those contracts:

- The available list is built by filtering the catalog and inserting each entry
  by vsync period. Entries with equal periods come in no promised order.
- A policy is valid when three conditions hold: its default config is in the
  catalog, `min <= max`, and the default config's rate is `inPolicy(min, max)`.
- `policyChanged` is an exact comparison of the three policy fields. The header
  says only "different from the old policy". It gives no tolerance for this
  comparison.
- The header orders the available list by vsync period, not by fps with a
  config-id tie-break. The model follows the header.

## Model

| member | source | states |
|---|---|---|
| `Scheduler.EventOr` | services/surfaceflinger/Scheduler/RefreshRateConfigs.h:32-37 | the result's underlying value is the bitwise OR of the operands' values; the result is `Changed` iff either operand is |
| `Scheduler.EventOrLaws` | services/surfaceflinger/Scheduler/RefreshRateConfigs.h:32-37 | `|` is commutative, associative and idempotent; `None` is its identity and `Changed` absorbs |
| `Scheduler.RefreshRate.InPolicy` | services/surfaceflinger/Scheduler/RefreshRateConfigs.h:69-73 | a rate is in policy iff its fps lies in [min − 0.001, max + 0.001]; `InPolicyWidening` and `InPolicyTolerance` state its properties |
| `Scheduler.RefreshRate.NotEquals` | services/surfaceflinger/Scheduler/RefreshRateConfigs.h:75-78 | two rates differ iff config id, vsync period or config group differ; `RefreshRateEquality` states it |
| `Scheduler.RefreshRate.Equals` | services/surfaceflinger/Scheduler/RefreshRateConfigs.h:80 | the negation of `NotEquals`; `RefreshRateEquality`, `RefreshRateEqualityIgnoresNameAndFps` and `RefreshRateEqualityIsEquivalence` state its properties |
| `Scheduler.RefreshRateEquality` | services/surfaceflinger/Scheduler/RefreshRateConfigs.h:75-80 | two rates are equal iff config id, vsync period and config group agree; `==` is exactly the negation of `!=` |
| `Scheduler.RefreshRateEqualityIgnoresNameAndFps` | services/surfaceflinger/Scheduler/RefreshRateConfigs.h:75-80 | replacing a rate's name and fps never changes what it equals |
| `Scheduler.RefreshRateEqualityIsEquivalence` | services/surfaceflinger/Scheduler/RefreshRateConfigs.h:75-80 | rate equality is reflexive, symmetric and transitive |
| `Scheduler.InPolicyWidening` | services/surfaceflinger/Scheduler/RefreshRateConfigs.h:69-73 | widening the window never removes a rate from the policy |
| `Scheduler.InPolicyTolerance` | services/surfaceflinger/Scheduler/RefreshRateConfigs.h:69-73 | a rate inside [min, max] is in policy; so is one 0.0005 below min; one 0.002 below min or above max is not |
| `Scheduler.LayerRequirement.Equals` | services/surfaceflinger/Scheduler/RefreshRateConfigs.h:115-118 | field-wise equality of name, vote, desired rate and weight; `LayerRequirementEquality` states it is record equality |
| `Scheduler.LayerRequirement.NotEquals` | services/surfaceflinger/Scheduler/RefreshRateConfigs.h:120 | the negation of `Equals`; `LayerRequirementEquality` states it |
| `Scheduler.LayerRequirementEquality` | services/surfaceflinger/Scheduler/RefreshRateConfigs.h:115-120 | field-wise equality over name, vote, desired rate and weight is structural equality; `!=` is its negation |
| `Scheduler.FpsOfAntitone` | services/surfaceflinger/Scheduler/RefreshRateConfigs.h:182-184 | a longer vsync period never gives a higher fps, so ordering by vsync period puts the lowest refresh rate first |
| `Scheduler.GetSortedRefreshRateList` | services/surfaceflinger/Scheduler/RefreshRateConfigs.h:174-176 | the result holds exactly the catalog entries the filter accepts, each once, ordered by vsync period with the lowest refresh rate first |
| `Scheduler.InsertLowestRateFirst` | services/surfaceflinger/Scheduler/RefreshRateConfigs.h:182-184 | the sort step: inserting a catalog id not yet in a distinct list ordered lowest refresh rate first gives a distinct, still ordered list holding exactly the old ids and the new one |
| `Scheduler.RefreshRateConfigs.constructor` | services/surfaceflinger/Scheduler/RefreshRateConfigs.h:164-165 | the catalog holds one entry per input config, keyed by its id, with fps 1e9/vsyncPeriod; the current and default config are the given one; the window starts as [0, FLT_MAX]; the invariant holds |
| `Scheduler.RefreshRateConfigs.GetAllRefreshRates` | services/surfaceflinger/Scheduler/RefreshRateConfigs.h:131-132 | every returned entry sits under its own config id |
| `Scheduler.RefreshRateConfigs.GetMinRefreshRate` | services/surfaceflinger/Scheduler/RefreshRateConfigs.h:134-135 | the result is a catalog entry whose fps is at most that of every catalog entry |
| `Scheduler.RefreshRateConfigs.GetMaxRefreshRate` | services/surfaceflinger/Scheduler/RefreshRateConfigs.h:140-141 | the result is a catalog entry whose fps is at least that of every catalog entry |
| `Scheduler.RefreshRateConfigs.GetRefreshRateFromConfigId` | services/surfaceflinger/Scheduler/RefreshRateConfigs.h:149-153 | found iff the id is in the catalog, and then the entry carries that id; an absent id is the out-of-range failure of `at` |
| `Scheduler.RefreshRateConfigs.GetPolicy` | services/surfaceflinger/Scheduler/RefreshRateConfigs.h:90-92 | the returned policy is always valid |
| `Scheduler.RefreshRateConfigs.IsConfigAllowed` | services/surfaceflinger/Scheduler/RefreshRateConfigs.h:94-95 | a config is allowed iff it is in the available list |
| `Scheduler.RefreshRateConfigs.GetMinRefreshRateByPolicy` | services/surfaceflinger/Scheduler/RefreshRateConfigs.h:137-138 | the result is in policy and no in-policy catalog entry has a longer vsync period |
| `Scheduler.RefreshRateConfigs.GetMaxRefreshRateByPolicy` | services/surfaceflinger/Scheduler/RefreshRateConfigs.h:143-144 | the result is in policy and no in-policy catalog entry has a shorter vsync period |
| `Scheduler.RefreshRateConfigs.GetCurrentRefreshRate` | services/surfaceflinger/Scheduler/RefreshRateConfigs.h:146-147 | the result is the catalog entry of the current config |
| `Scheduler.RefreshRateConfigs.SetCurrentConfigId` | services/surfaceflinger/Scheduler/RefreshRateConfigs.h:155-156 | any catalog config becomes current, in policy or not; the policy and the available list stay |
| `Scheduler.RefreshRateConfigs.SetPolicy` | services/surfaceflinger/Scheduler/RefreshRateConfigs.h:85-89 | success iff the requested policy is valid; `policyChanged` iff any of the three fields differs; success installs the policy with its available list; failure or no change leaves the state untouched; the invariant holds |
| `Scheduler.AvailableHoldsDefault` | services/surfaceflinger/Scheduler/RefreshRateConfigs.h:182-184 | the available list always holds the default config, so it is never empty |
| `Scheduler.PolicyBoundsWithinDeviceBounds` | services/surfaceflinger/Scheduler/RefreshRateConfigs.h:134-144 | the device min/max enclose the lowest and highest rates allowed by policy |
| `Scheduler.AvailableLowestFpsFirst` | services/surfaceflinger/Scheduler/RefreshRateConfigs.h:182-184 | in the available list, an earlier entry never has a higher fps than a later one: the lowest refresh rate comes first |
| `Layers.IndexOfFrame` | services/surfaceflinger/BufferQueueLayer.cpp:335-340 | the first position of a present frame number: it carries that number and no earlier item does |
| `Layers.SignaledPrefix` | services/surfaceflinger/BufferQueueLayer.cpp:275-282 | the length of the leading run of signalled fences: all before it signalled, the one at it pending |
| `Layers.ScanFrom` | services/surfaceflinger/BufferQueueLayer.cpp:194-213 | the end of the run of latchable items from a start index: all in the run are latchable, the next one is not |
| `Layers.LatchIndex` | services/surfaceflinger/BufferQueueLayer.cpp:185-216 | the chosen index: every item from 1 up to it is signalled, explicitly timestamped and within [present − MAX_REASONABLE_NSEC, present]; the item after it is not |
| `Layers.LatchedItemIsSignaled` | services/surfaceflinger/BufferQueueLayer.cpp:268-285 | with a signalled head, the item chosen for latching lies inside the signalled prefix that bounds acquisition |
| `Layers.LatchPerFrameState` | services/surfaceflinger/BufferQueueLayer.cpp:388-400 | a sideband layer keeps its state; otherwise the buffer and fence are latched and the slot is never the invalid marker (invalid maps to 0, valid passes through) |
| `Layers.BufferQueueLayer.constructor` | services/surfaceflinger/BufferQueueLayer.cpp:39 | a new layer has an empty queue, a zero tracker and every flag cleared |
| `Layers.BufferQueueLayer.GetQueuedFrameCount` | services/surfaceflinger/BufferQueueLayer.cpp:96-98 | the counter read equals the queue length |
| `Layers.BufferQueueLayer.HasFrameUpdate` | services/surfaceflinger/BufferQueueLayer.cpp:244-246 | true iff the queue is non-empty |
| `Layers.BufferQueueLayer.ShouldPresentNow` | services/surfaceflinger/BufferQueueLayer.cpp:100-126 | the present-now decision from the sideband flag, auto-refresh and the head's timestamp; `ShouldPresentNowHoldsBackOnlyTheComingSecond`, `ShouldPresentNowEmptyQueue` and `DueHeadStaysDue` state its properties |
| `Layers.BufferQueueLayer.FenceHasSignaled` | services/surfaceflinger/BufferQueueLayer.cpp:149-174 | whether the head's fence lets the layer latch; `FenceHasSignaledBlocksOnlyPendingHead` states exactly when it fails |
| `Layers.BufferQueueLayer.FramePresentTimeIsCurrent` | services/surfaceflinger/BufferQueueLayer.cpp:176-183 | whether the head's present time is current; `PresentedHeadIsCurrent` states that a presented head passes it |
| `Layers.BufferQueueLayer.GetFrameNumber` | services/surfaceflinger/BufferQueueLayer.cpp:185-216 | leaves the layer unchanged and returns the frame number at `LatchIndex`, scanning against present time 0 for a removed layer |
| `Layers.BufferQueueLayer.MaxFrameNumberToAcquire` | services/surfaceflinger/BufferQueueLayer.cpp:272-285 | the bound is at most the tracker and equals min(tracker, frame number of the last item of the signalled prefix, or the tracker if that prefix is empty) |
| `Layers.BufferQueueLayer.UpdateTexImage` | services/surfaceflinger/BufferQueueLayer.cpp:252-360 | present-later keeps the queue; a rejected queued buffer removes exactly the head; any other failure, or the sticky flag already set, clears a queued queue, sets the flag and fails; success drops items up to and including the consumer's frame; the counter stays equal to the queue length; once failed, every call fails |
| `Layers.BufferQueueLayer.OnFrameAvailable` | services/surfaceflinger/BufferQueueLayer.cpp:426-465 | appends the item, increments the counter and sets the tracker to its frame number; frame 1 first resets the tracker; always signals another layer update |
| `Layers.BufferQueueLayer.OnFrameReplaced` | services/surfaceflinger/BufferQueueLayer.cpp:467-495 | on an empty queue nothing changes; otherwise only the tail is overwritten, length, count and earlier items stay, and the tracker follows |
| `Layers.BufferQueueLayer.OnSidebandStreamChanged` | services/surfaceflinger/BufferQueueLayer.cpp:497-503 | raises the flag; signals an update only when the flag was clear |
| `Layers.BufferQueueLayer.LatchSidebandStream` | services/surfaceflinger/BufferQueueLayer.cpp:226-242 | latches iff the flag was raised and always leaves it clear; a latch takes the consumer's stream, forces a visible-region recompute and asks for a transaction iff the stream is non-null |
| `Layers.BufferQueueLayer.OnLayerDisplayed` | services/surfaceflinger/BufferQueueLayer.cpp:50-60 | traces a release iff the previous frame was not yet traced, and records it so a repeat call traces nothing |
| `Layers.BufferQueueLayer.UpdateFrameNumber` | services/surfaceflinger/BufferQueueLayer.cpp:377-386 | the current frame number becomes the previous one and the consumer's becomes current |
| `Layers.BufferQueueLayer.SetDefaultBufferProperties` | services/surfaceflinger/BufferQueueLayer.cpp:534-552 | succeeds iff width and height are within min(max texture size, max viewport dims); only success records the format |
| `Layers.ShouldPresentNowHoldsBackOnlyTheComingSecond` | services/surfaceflinger/BufferQueueLayer.cpp:100-126 | with no sideband change or auto-refresh and a queued head, the head is held back iff its timestamp lies in [expectedPresent, expectedPresent + 1 s) |
| `Layers.ShouldPresentNowEmptyQueue` | services/surfaceflinger/BufferQueueLayer.cpp:100-107 | with an empty queue, present-now holds iff the sideband stream changed or auto-refresh is on |
| `Layers.DueHeadStaysDue` | services/surfaceflinger/BufferQueueLayer.cpp:111-125 | a head whose timestamp is before the expected present time is presented then and at every later expected present time |
| `Layers.PresentedHeadIsCurrent` | services/surfaceflinger/BufferQueueLayer.cpp:176-183 | a plausible head that shouldPresentNow presents also passes framePresentTimeIsCurrent |
| `Layers.FenceHasSignaledBlocksOnlyPendingHead` | services/surfaceflinger/BufferQueueLayer.cpp:149-174 | the fence check fails iff unsignalled latching is off, the head exists, is not droppable and its fence is pending; the acquire bound is then the tracker |
| `Layers.AllSignaledBoundIsTracker` | services/surfaceflinger/BufferQueueLayer.cpp:272-285 | when every queued fence has signalled, the last signalled frame number is the tracker |

## Left out

- `getRefreshRateForContent` and `getRefreshRateForContentV2`: their bodies are not part of this model, and no scoring or tie-break rule is assumed for them. Their doc comment says "Returns all available refresh rates", which does not match their single-rate return type.
- The bodies of `init`, `setPolicy`, `getPolicy`, `isConfigAllowed`, `setCurrentConfigId`, `getCurrentRefreshRate`, `getMin/MaxRefreshRateByPolicy` and `constructAvailableRefreshRates` are not part of this model. Each is modelled from its doc comment, as described above.
- `Scheduler.RefreshRateConfigs.IsConfigAllowed`, `Scheduler.RefreshRateConfigs.SetCurrentConfigId`: both require a catalog id. What the hidden bodies do with an unknown id is not modelled.
- `Scheduler.RefreshRateConfigs.constructor`: rate names are left empty. The label text built from the fps is not modelled, and equality ignores names.
- `Scheduler.RefreshRateConfigs.constructor`: it requires positive vsync periods and distinct config ids. Malformed configs are rejected up front rather than modelled.
- The `HWC2::Display::Config` constructor overload: it is a conversion from a foreign type.
- Floating point: fps, the window and `FPS_EPSILON` are exact reals. The model leaves out 0.001f not being exactly 0.001 and rounding in `1e9f / vsyncPeriod`. It also leaves out NaN, for which float `==` in `LayerRequirement` is not reflexive.
- Integer widths: frame numbers (uint64), timestamps (int64) and the queued-frame counter (int32) are unbounded. Wrap-around of `mLastFrameNumberReceived + 1` and overflow of `expectedPresentTime + s2ns(1)` are not modelled.
- Concurrency: mutexes, atomics and the condition-variable wait loops of `onFrameAvailable` and `onFrameReplaced` are not modelled. The wait loops become the precondition that the item's frame number follows the tracker. Compare-and-exchange on the sideband flag becomes a plain test and set.
- `Layers.BufferQueueLayer.GetFrameNumber`: it requires a non-empty queue, because the source reads the head without a check.
- `Layers.BufferQueueLayer.UpdateTexImage`: it requires a non-empty queue when a queued buffer is rejected. It also requires the consumer's frame number to be queued on success, because the source reads the head without a check.
- `Layers.BufferQueueLayer.UpdateTexImage`: `expectedPresentTime`, `latchTime` and the `LayerRejecter` only reach the consumer and the tracers, so the model takes none of them.
- Foreign calls are not modelled: the consumer and producer, `FrameTracer`, `TimeStats`, `SurfaceInterceptor`, `recordLayerHistory`, `mergeSurfaceDamage`, `setReleaseFence` and the frame-event history. Their effects on this layer come in as parameters or go out as returned flags.
- Fences: each queued item's fence is a signalled/pending boolean supplied per call. Signal times are not modelled.
- `BufferLayer::latchPerFrameState`, the base-class part: the model takes the state after it as input.
- `setFrameRate` and `getFrameRate`: float comparisons against the consumer and a sentinel value.
- Plumbing or forwarding with no logic of its own: `onFirstRef`, `createClone`, `gatherBufferInfo`, `getOccupancyHistory`, `getProducerStickyTransform`, `releasePendingBuffer`, `setTransformHint`, `setDefaultBufferSize`, `bindTextureImage`, `updateActiveBuffer`, `getProducer`, `onFrameDequeued`, `onFrameDetached`, `onFrameCancelled`, and the `ContentsChangedListener` forwarders.
