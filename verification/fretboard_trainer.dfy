/** The audio callback of the FullFretboard trainer (Source/MainComponent.cpp): every accepted
    block is copied into a fixed 2048-slot circular buffer and into the estimator's input
    vector, and the detected note is judged against the target MIDI number. */
module FretboardTrainer {
  import opened Estimator

  /** Capacity of the circular audio buffer. */
  const BUFFER_SIZE: nat := 2048

  /** Length of the estimator input vector the trainer allocates (the estimator's hop size). */
  const HOP_SIZE: nat := 512

  // ---------------------------------------------------------------------------
  // The circular buffer, as a function of the samples written into it

  /** The slot the i-th sample written from cursor `start` lands in. */
  function Slot(start: int, i: int): (j: nat)
    ensures j < BUFFER_SIZE
  {
    (start + i) % BUFFER_SIZE
  }

  /** Advancing the cursor by one from the i-th slot reaches the (i+1)-th. */
  lemma SlotNext(start: int, i: int)
    ensures Slot(Slot(start, i), 1) == Slot(start, i + 1)
  {
  }

  /** The buffer after writing `data` one sample at a time from slot `idx`, the cursor
      advancing modulo the capacity after each sample. */
  function Ring(buf: seq<real>, idx: nat, data: seq<real>): (r: seq<real>)
    requires |buf| == BUFFER_SIZE && idx < BUFFER_SIZE
    ensures |r| == BUFFER_SIZE
    decreases |data|
  {
    if data == [] then buf
    else Ring(buf[idx := data[0]], Slot(idx, 1), data[1..])
  }

  /** Writing the remaining samples from position i is writing sample i, then the rest. */
  lemma RingStep(buf: seq<real>, idx: nat, data: seq<real>, i: int)
    requires |buf| == BUFFER_SIZE && idx < BUFFER_SIZE && 0 <= i < |data|
    ensures Ring(buf, idx, data[i..]) == Ring(buf[idx := data[i]], Slot(idx, 1), data[i + 1..])
  {
    assert data[i..][0] == data[i] && data[i..][1..] == data[i + 1..];
  }

  /** Every one of the last BUFFER_SIZE samples sits in its own slot. */
  lemma RingLatestAll(buf: seq<real>, idx: nat, data: seq<real>)
    requires |buf| == BUFFER_SIZE && idx < BUFFER_SIZE
    ensures forall i :: 0 <= i < |data| && |data| - BUFFER_SIZE <= i ==> Ring(buf, idx, data)[Slot(idx, i)] == data[i]
  {
    forall i | 0 <= i < |data| && |data| - BUFFER_SIZE <= i
      ensures Ring(buf, idx, data)[Slot(idx, i)] == data[i]
    {
      RingLatest(buf, idx, data, i);
    }
  }

  /** A slot that none of the samples lands on keeps its old value. */
  lemma {:induction false} RingUnwritten(buf: seq<real>, idx: nat, data: seq<real>, j: int)
    requires |buf| == BUFFER_SIZE && idx < BUFFER_SIZE && 0 <= j < BUFFER_SIZE
    requires forall i :: 0 <= i < |data| ==> Slot(idx, i) != j
    ensures Ring(buf, idx, data)[j] == buf[j]
    decreases |data|
  {
    if data != [] {
      var next := Slot(idx, 1);
      forall i | 0 <= i < |data| - 1
        ensures Slot(next, i) != j
      {
        assert Slot(next, i) == Slot(idx, i + 1);
      }
      assert Slot(idx, 0) != j;
      RingUnwritten(buf[idx := data[0]], next, data[1..], j);
    }
  }

  /** Each of the last min(|data|, capacity) samples sits in the slot it was written to. */
  lemma {:induction false} RingLatest(buf: seq<real>, idx: nat, data: seq<real>, i: int)
    requires |buf| == BUFFER_SIZE && idx < BUFFER_SIZE
    requires 0 <= i < |data| && |data| - BUFFER_SIZE <= i
    ensures Ring(buf, idx, data)[Slot(idx, i)] == data[i]
    decreases |data|
  {
    var next := Slot(idx, 1);
    var buf' := buf[idx := data[0]];
    if i == 0 {
      forall k | 0 <= k < |data| - 1
        ensures Slot(next, k) != idx
      {
      }
      RingUnwritten(buf', next, data[1..], idx);
    } else {
      RingLatest(buf', next, data[1..], i - 1);
      assert Slot(next, i - 1) == Slot(idx, i);
    }
  }

  /** Writing fewer samples than the capacity touches exactly the slots idx, idx+1, ...
      (modulo the capacity); every other slot keeps its old value. */
  lemma RingKeepsUnwrittenSlots(buf: seq<real>, idx: nat, data: seq<real>)
    requires |buf| == BUFFER_SIZE && idx < BUFFER_SIZE && |data| < BUFFER_SIZE
    ensures forall j :: 0 <= j < BUFFER_SIZE && (j - idx) % BUFFER_SIZE >= |data| ==>
      Ring(buf, idx, data)[j] == buf[j]
  {
    forall j | 0 <= j < BUFFER_SIZE && (j - idx) % BUFFER_SIZE >= |data|
      ensures Ring(buf, idx, data)[j] == buf[j]
    {
      forall i | 0 <= i < |data|
        ensures Slot(idx, i) != j
      {
      }
      RingUnwritten(buf, idx, data, j);
    }
  }

  /** After at least a full buffer of samples, reading the buffer from the new cursor onwards
      gives the latest BUFFER_SIZE samples in the order they arrived. */
  lemma RingHoldsLatestInOrder(buf: seq<real>, idx: nat, data: seq<real>)
    requires |buf| == BUFFER_SIZE && idx < BUFFER_SIZE && |data| >= BUFFER_SIZE
    ensures forall k :: 0 <= k < BUFFER_SIZE ==>
      Ring(buf, idx, data)[Slot(Slot(idx, |data|), k)] == data[|data| - BUFFER_SIZE + k]
  {
    forall k | 0 <= k < BUFFER_SIZE
      ensures Ring(buf, idx, data)[Slot(Slot(idx, |data|), k)] == data[|data| - BUFFER_SIZE + k]
    {
      var i := |data| - BUFFER_SIZE + k;
      assert Slot(Slot(idx, |data|), k) == Slot(idx, i);
      RingLatest(buf, idx, data, i);
    }
  }

  // ---------------------------------------------------------------------------
  // The FullFretboard judgment, one block at a time and over a run of blocks

  /** The new stability count, and whether a new target is drawn. */
  datatype Judged = Judged(count: nat, redraw: bool)

  /** One block: a gate rejection resets the count; an unconfident block changes nothing;
      a confident block increments the count on a match (drawing a new target once the
      count reaches the quota, without resetting it) and resets it on a mismatch. */
  function JudgeBlock(count: nat, target: int, gateOpen: bool, obs: Observation, required: nat): Judged {
    if !gateOpen then Judged(0, false)
    else match obs
      case NoPitch => Judged(count, false)
      case Pitch(midi) =>
        if midi == target then Judged(count + 1, count + 1 >= required) else Judged(0, false)
  }

  /** What the judgment sees of one audio block. */
  datatype Block = Block(gateOpen: bool, obs: Observation)

  /** Judges blocks in arrival order against a fixed target, up to and including the first
      block that draws a new target (after it the target is a fresh random draw). */
  function Feed(count: nat, target: int, blocks: seq<Block>, required: nat): Judged
    decreases |blocks|
  {
    if blocks == [] then Judged(count, false)
    else
      var j := JudgeBlock(count, target, blocks[0].gateOpen, blocks[0].obs, required);
      if j.redraw then j else Feed(j.count, target, blocks[1..], required)
  }

  /** k consecutive confident blocks holding the note t. */
  function Held(t: int, k: nat): (blocks: seq<Block>)
    ensures |blocks| == k
  {
    seq(k, _ => Block(true, Pitch(t)))
  }

  lemma {:induction false} FeedAppend(count: nat, target: int, xs: seq<Block>, ys: seq<Block>, required: nat)
    requires !Feed(count, target, xs, required).redraw
    ensures Feed(count, target, xs + ys, required) == Feed(Feed(count, target, xs, required).count, target, ys, required)
    decreases |xs|
  {
    if xs != [] {
      var j := JudgeBlock(count, target, xs[0].gateOpen, xs[0].obs, required);
      assert (xs + ys)[0] == xs[0];
      assert (xs + ys)[1..] == xs[1..] + ys;
      FeedAppend(j.count, target, xs[1..], ys, required);
    } else {
      assert xs + ys == ys;
    }
  }

  /** Holding the target below the quota raises the count by one per block and draws nothing. */
  lemma {:induction false} HoldBuildsUp(count: nat, t: int, k: nat, required: nat)
    requires count + k < required
    ensures Feed(count, t, Held(t, k), required) == Judged(count + k, false)
    decreases k
  {
    if k > 0 {
      assert Held(t, k)[0] == Block(true, Pitch(t));
      assert Held(t, k)[1..] == Held(t, k - 1);
      HoldBuildsUp(count + 1, t, k - 1, required);
    }
  }

  /** From a reset counter, exactly `required` matching blocks fire one "correct" event (a new
      target is drawn), on the last of them and not before. */
  lemma HoldFiresOnce(t: int, required: nat)
    requires required > 0
    ensures forall k :: 0 <= k < required ==> Feed(0, t, Held(t, k), required) == Judged(k, false)
    ensures Feed(0, t, Held(t, required), required) == Judged(required, true)
  {
    forall k | 0 <= k < required
      ensures Feed(0, t, Held(t, k), required) == Judged(k, false)
    {
      HoldBuildsUp(0, t, k, required);
    }
    HoldBuildsUp(0, t, required - 1, required);
    assert Held(t, required) == Held(t, required - 1) + [Block(true, Pitch(t))];
    FeedAppend(0, t, Held(t, required - 1), [Block(true, Pitch(t))], required);
  }

  /** One short of the quota, a wrong note resets the counter and no event fires. */
  lemma NearMissResets(t: int, m: int, required: nat)
    requires required > 0 && m != t
    ensures Feed(0, t, Held(t, required - 1) + [Block(true, Pitch(m))], required) == Judged(0, false)
  {
    HoldBuildsUp(0, t, required - 1, required);
    FeedAppend(0, t, Held(t, required - 1), [Block(true, Pitch(m))], required);
  }

  /** A gate rejection after any run that has not fired resets the counter. */
  lemma GateRejectionResets(count: nat, t: int, xs: seq<Block>, obs: Observation, required: nat)
    requires !Feed(count, t, xs, required).redraw
    ensures Feed(count, t, xs + [Block(false, obs)], required) == Judged(0, false)
  {
    FeedAppend(count, t, xs, [Block(false, obs)], required);
  }

  /** Blocks without a confident pitch never move the counter, however many arrive. */
  lemma {:induction false} UnconfidentBlocksChangeNothing(count: nat, t: int, k: nat, required: nat)
    ensures Feed(count, t, seq(k, _ => Block(true, NoPitch)), required) == Judged(count, false)
    decreases k
  {
    if k > 0 {
      var blocks := seq(k, _ => Block(true, NoPitch));
      assert blocks[0] == Block(true, NoPitch);
      assert blocks[1..] == seq(k - 1, _ => Block(true, NoPitch));
      UnconfidentBlocksChangeNothing(count, t, k - 1, required);
    }
  }

  /** As written, reaching the quota does not reset the counter, so once one target has been
      held for the quota, the very next matching block of the new target fires again. */
  lemma NextTargetFiresAtOnce(t: int, next: int, required: nat)
    requires required > 0
    ensures var first := Feed(0, t, Held(t, required), required);
      first.redraw && JudgeBlock(first.count, next, true, Pitch(next), required).redraw
  {
    HoldFiresOnce(t, required);
  }

  /** The judgment with the counter reset on success, as the two-mode component does it. */
  function JudgeBlockResetting(count: nat, target: int, gateOpen: bool, obs: Observation, required: nat): (j: Judged)
    ensures j.redraw ==> j.count == 0
    ensures !j.redraw ==> j == JudgeBlock(count, target, gateOpen, obs, required)
  {
    var j := JudgeBlock(count, target, gateOpen, obs, required);
    if j.redraw then Judged(0, true) else j
  }

  /** With the reset, every new target again takes exactly `required` matching blocks: fewer
      fire nothing and the required-th one fires. */
  lemma NextTargetTakesTheQuota(count: nat, t: int, next: int, required: nat)
    requires required > 0 && count + 1 >= required
    ensures var after := JudgeBlockResetting(count, t, true, Pitch(t), required);
      && after.redraw && after.count == 0
      && (forall k :: 0 <= k < required ==> Feed(after.count, next, Held(next, k), required) == Judged(k, false))
      && Feed(after.count, next, Held(next, required), required) == Judged(required, true)
  {
    HoldFiresOnce(next, required);
  }

  // ---------------------------------------------------------------------------
  // The component

  class Trainer {
    /** Number of consecutive matching blocks that make a note count as played. */
    const requiredStableFrames: nat
    /** The circular buffer of recent accepted samples, and its write cursor. */
    const audioBuffer: array<real>
    var bufferIndex: nat
    /** The estimator's input vector, refilled from every accepted block. */
    const estimatorInput: array<real>
    var stableFrameCount: nat
    var targetMidiNote: int

    ghost predicate Valid()
      reads this
    {
      && audioBuffer.Length == BUFFER_SIZE
      && bufferIndex < BUFFER_SIZE
      && audioBuffer != estimatorInput
    }

    /** The buffer is sized and zeroed, the cursor starts at 0 and the estimator input is a
        zeroed vector of HOP_SIZE samples. */
    constructor (required: nat, initialTarget: int)
      requires required > 0
      ensures Valid() && fresh(audioBuffer) && fresh(estimatorInput)
      ensures requiredStableFrames == required && targetMidiNote == initialTarget
      ensures bufferIndex == 0 && stableFrameCount == 0
      ensures forall j :: 0 <= j < BUFFER_SIZE ==> audioBuffer[j] == 0.0
      ensures estimatorInput.Length == HOP_SIZE
      ensures forall k :: 0 <= k < HOP_SIZE ==> estimatorInput[k] == 0.0
    {
      requiredStableFrames := required;
      audioBuffer := new real[BUFFER_SIZE](_ => 0.0);
      estimatorInput := new real[HOP_SIZE](_ => 0.0);
      bufferIndex := 0;
      stableFrameCount := 0;
      targetMidiNote := initialTarget;
    }

    /** Copies the accepted samples into the circular buffer, advancing the cursor modulo the
        capacity: the last min(n, capacity) samples sit at old cursor + i, and when fewer samples
        than the capacity arrive every other slot keeps its value. */
    method WriteRing(channelData: seq<real>)
      requires Valid()
      modifies audioBuffer, this`bufferIndex
      ensures Valid()
      ensures bufferIndex == Slot(old(bufferIndex), |channelData|)
      ensures audioBuffer[..] == Ring(old(audioBuffer[..]), old(bufferIndex), channelData)
      ensures forall i :: 0 <= i < |channelData| && |channelData| - BUFFER_SIZE <= i ==>
        audioBuffer[Slot(old(bufferIndex), i)] == channelData[i]
      ensures |channelData| < BUFFER_SIZE ==>
        forall j :: 0 <= j < BUFFER_SIZE && (j - old(bufferIndex)) % BUFFER_SIZE >= |channelData| ==>
          audioBuffer[j] == old(audioBuffer[j])
    {
      ghost var start := bufferIndex;
      ghost var before := audioBuffer[..];
      for i := 0 to |channelData|
        invariant bufferIndex < BUFFER_SIZE
        invariant bufferIndex == Slot(start, i)
        invariant Ring(audioBuffer[..], bufferIndex, channelData[i..]) == Ring(before, start, channelData)
      {
        ghost var current := audioBuffer[..];
        RingStep(current, bufferIndex, channelData, i);
        audioBuffer[bufferIndex] := channelData[i];
        assert audioBuffer[..] == current[bufferIndex := channelData[i]];
        SlotNext(start, i);
        bufferIndex := (bufferIndex + 1) % BUFFER_SIZE;
      }
      assert channelData[|channelData|..] == [];
      RingLatestAll(before, start, channelData);
      if |channelData| < BUFFER_SIZE {
        RingKeepsUnwrittenSlots(before, start, channelData);
      }
    }

    /** Fills the estimator input: its first min(numSamples, length) entries are the incoming
        samples and the rest are zero; its length does not change. */
    method FillEstimatorInput(channelData: seq<real>)
      modifies estimatorInput
      ensures forall k :: 0 <= k < estimatorInput.Length && k < |channelData| ==>
        estimatorInput[k] == channelData[k]
      ensures forall k :: |channelData| <= k < estimatorInput.Length ==> estimatorInput[k] == 0.0
    {
      var length := estimatorInput.Length;
      var samplesToProcess := if |channelData| < length then |channelData| else length;
      for i := 0 to samplesToProcess
        invariant forall k :: 0 <= k < i ==> estimatorInput[k] == channelData[k]
      {
        estimatorInput[i] := channelData[i];
      }
      for i := samplesToProcess to length
        invariant forall k :: 0 <= k < samplesToProcess ==> estimatorInput[k] == channelData[k]
        invariant forall k :: samplesToProcess <= k < i ==> estimatorInput[k] == 0.0
      {
        estimatorInput[i] := 0.0;
      }
    }

    /** Draws a new target uniformly from [40, 88]; the draw is modelled as a free choice in that range. */
    method SetRandomTargetNote()
      modifies this`targetMidiNote
      ensures InTargetRange(targetMidiNote)
    {
      var t :| LOWEST_TARGET <= t <= HIGHEST_TARGET;
      targetMidiNote := t;
    }

    /** The audio callback for one block. `gateOpen` is the signal gate's verdict
        (the block's RMS is not below the threshold) and `obs` what the estimator reports
        for the refilled input. Reaching the quota draws a new target but leaves the counter
        at the quota, which NextTargetFiresAtOnce shows lets the next target through after a
        single block; JudgeBlockResetting is the judgment with the reset. */
    method GetNextAudioBlock(channelData: seq<real>, gateOpen: bool, obs: Observation)
      requires Valid()
      modifies this`stableFrameCount, this`targetMidiNote, this`bufferIndex, audioBuffer, estimatorInput
      ensures Valid()
      // the judgment, in terms of the one-block specification
      ensures var j := JudgeBlock(old(stableFrameCount), old(targetMidiNote), gateOpen, obs, requiredStableFrames);
        && stableFrameCount == j.count
        && (if j.redraw then InTargetRange(targetMidiNote) else targetMidiNote == old(targetMidiNote))
      // a rejected block resets the counter and touches nothing else
      ensures !gateOpen ==>
        && stableFrameCount == 0
        && targetMidiNote == old(targetMidiNote)
        && bufferIndex == old(bufferIndex)
        && unchanged(audioBuffer) && unchanged(estimatorInput)
      // an accepted block is written to the circular buffer and to the estimator input
      ensures gateOpen ==>
        && bufferIndex == Slot(old(bufferIndex), |channelData|)
        && audioBuffer[..] == Ring(old(audioBuffer[..]), old(bufferIndex), channelData)
        && (forall k :: 0 <= k < estimatorInput.Length && k < |channelData| ==> estimatorInput[k] == channelData[k])
        && (forall k :: |channelData| <= k < estimatorInput.Length ==> estimatorInput[k] == 0.0)
      // no confident pitch: neither the counter nor the target moves
      ensures gateOpen && obs.NoPitch? ==>
        stableFrameCount == old(stableFrameCount) && targetMidiNote == old(targetMidiNote)
      // a match below the quota counts one more frame, a mismatch resets without changing the target
      ensures gateOpen && obs.Pitch? && obs.midi == old(targetMidiNote) && old(stableFrameCount) + 1 < requiredStableFrames ==>
        stableFrameCount == old(stableFrameCount) + 1 && targetMidiNote == old(targetMidiNote)
      ensures gateOpen && obs.Pitch? && obs.midi != old(targetMidiNote) ==>
        stableFrameCount == 0 && targetMidiNote == old(targetMidiNote)
      // reaching the quota draws a new target in range; the counter stays at the quota
      ensures gateOpen && obs.Pitch? && obs.midi == old(targetMidiNote) && old(stableFrameCount) + 1 >= requiredStableFrames ==>
        InTargetRange(targetMidiNote) && stableFrameCount == old(stableFrameCount) + 1
    {
      if !gateOpen {
        stableFrameCount := 0;
        return;
      }
      WriteRing(channelData);
      FillEstimatorInput(channelData);
      if obs.Pitch? {
        var midiNote := obs.midi;
        if midiNote == targetMidiNote {
          stableFrameCount := stableFrameCount + 1;
          if stableFrameCount >= requiredStableFrames {
            SetRandomTargetNote();
          }
        } else {
          stableFrameCount := 0;
        }
      }
    }
  }
}
