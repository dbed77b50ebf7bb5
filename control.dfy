/**
 * `StepControl`: the handle through which a user steers one averaging step run by another
 * process. Its scheduling and progress fields live in an 18-byte shared buffer; its
 * immutable parameters are fixed at construction; a trigger future gates the all-reduce.
 */
module Control {
  import opened Wrappers
  import opened Binary64
  import opened Stages
  import opened Futures

  /** Layout of the shared buffer: two 8-byte floats, then one byte each. */
  const BufferSize: nat := 18
  const ScheduledTimeOffset: nat := 0
  const WeightOffset: nat := 8
  const StageOffset: nat := 16
  const BeganAllreduceOffset: nat := 17

  /** The failed assertions of the handle's API. */
  datatype Error =
    | TriggerAlreadyAttached // attach_trigger on a handle that has a trigger
    | TriggerNotAttached     // allow_allreduce or wait_for_trigger without a trigger
    | InvalidWeight          // a weight that is negative, NaN or infinite

  /** The advisory messages the setters log; none of them stops the operation. */
  datatype Warning =
    | LateScheduledTimeChange // scheduled time changed after all-reduce began
    | ScheduledAfterDeadline  // scheduled time set at or after the deadline
    | LateWeightChange        // weight changed after all-reduce began
    | TriggerAlreadySet       // allow_allreduce on a trigger that is already done

  /** The four fields of the shared buffer, decoded. */
  datatype SharedFields = SharedFields(
    scheduledTime: Float,
    weight: Float,
    stage: Option<AveragingStage>,
    beganAllreduce: bool)

  /**
   * What the scheduled-time setter logs: one warning when all-reduce has begun, one when
   * the new time is at or after the deadline.
   */
  function ScheduleWarnings(began: bool, t: Float, deadline: Float): (ws: seq<Warning>)
    ensures LateScheduledTimeChange in ws <==> began
    ensures ScheduledAfterDeadline in ws <==> AtLeast(t, deadline)
    ensures |ws| <= 2
  {
    (if began then [LateScheduledTimeChange] else []) + (if AtLeast(t, deadline) then [ScheduledAfterDeadline] else [])
  }

  /** What `__getstate__` hands to the receiving process. */
  datatype Pickled = Pickled(
    base: Future,
    trigger: Future?,
    sharedBuffer: array<bv8>,
    gatherBinary: seq<bv8>,
    deadline: Float,
    allowRetries: bool)

  /** `get_timeout()` at clock reading `now`: the time left until the deadline, never below zero. */
  function Timeout(deadline: Float, now: Float): (t: Ext)
    ensures t == PosInf || (t.Fin? && t.r >= 0.0)
    ensures Value(deadline).Fin? && Value(now).Fin? ==>
      t.Fin? && t.r >= Value(deadline).r - Value(now).r && (t.r == 0.0 || t.r == Value(deadline).r - Value(now).r)
  {
    MaxWithZero(Subtract(Value(deadline), Value(now)))
  }

  /** The later the clock reading, the smaller (or equal) the time left. */
  lemma {:induction false} TimeoutNonIncreasing(deadline: Float, earlier: Float, later: Float)
    requires AtLeast(later, earlier)
    ensures LessOrEqual(Timeout(deadline, later), Timeout(deadline, earlier))
  {
  }

  /** Once the clock has reached the deadline, no time is left. */
  lemma {:induction false} TimeoutZeroAtDeadline(deadline: Float, now: Float)
    requires AtLeast(now, deadline)
    ensures Timeout(deadline, now) == Fin(0.0)
  {
  }

  class StepControl {
    /** The future the handle itself is: it resolves with the outcome of the whole step. */
    const base: Future
    const gatherBinary: seq<bv8>
    const deadline: Float
    const allowRetries: bool
    const sharedBuffer: array<bv8>
    var trigger: Future?
    /** The `can_modify` attribute: None until the stage setter first assigns it. */
    var canModify: Option<bool>
    /** The warnings this handle has logged, oldest first. */
    ghost var warnings: seq<Warning>

    /**
     * The buffer has its fixed size, its stage byte decodes and its flag byte is 0 or 1:
     * the setters keep all three true.
     */
    ghost predicate Valid()
      reads sharedBuffer
    {
      && sharedBuffer.Length == BufferSize
      && FromByte(sharedBuffer[StageOffset]).Some?
      && sharedBuffer[BeganAllreduceOffset] <= 1
    }

    /** `__init__`, for a weight the weight setter accepts; `Create` covers the other case. */
    constructor (scheduledTime: Float, deadline: Float, allowRetries: bool, weight: Float, gatherBinary: seq<bv8>)
      requires NonNegativeFinite(weight)
      ensures Valid() && fresh(base) && fresh(sharedBuffer)
      ensures this.deadline == deadline && this.allowRetries == allowRetries && this.gatherBinary == gatherBinary
      ensures Shared() == SharedFields(scheduledTime, weight, Some(Idle), false)
      ensures trigger == null && canModify == None && base.state == Pending
      ensures warnings == if AtLeast(scheduledTime, deadline) then [ScheduledAfterDeadline] else []
    {
      base := new Future();
      this.gatherBinary, this.deadline, this.allowRetries := gatherBinary, deadline, allowRetries;
      trigger := null;
      sharedBuffer := new bv8[BufferSize](_ => 0);
      canModify := None;
      warnings := [];
      new;
      assert sharedBuffer[BeganAllreduceOffset] == 0;
      WriteInitialFields(scheduledTime, weight);
    }

    /** The four setter calls of `__init__`, on a buffer whose flag byte is still zero. */
    method WriteInitialFields(scheduledTime: Float, weight: Float)
      requires sharedBuffer.Length == BufferSize && sharedBuffer[BeganAllreduceOffset] == 0
      requires NonNegativeFinite(weight)
      modifies sharedBuffer, this`warnings, this`canModify
      ensures Valid()
      ensures Shared() == SharedFields(scheduledTime, weight, Some(Idle), false)
      ensures canModify == old(canModify) && trigger == old(trigger)
      ensures warnings == old(warnings) + (if AtLeast(scheduledTime, deadline) then [ScheduledAfterDeadline] else [])
    {
      SetStage(Idle);
      assert !BeganAllreduce();
      SetScheduledTime(scheduledTime);
      ghost var logged := warnings;
      var _ := SetWeight(weight);
      assert warnings == logged;
      SetBeganAllreduce(false);
    }

    /** `__setstate__` on a blank handle: the buffer, trigger and base future are shared, not copied. */
    constructor FromState(st: Pickled)
      ensures base == st.base && trigger == st.trigger && sharedBuffer == st.sharedBuffer
      ensures gatherBinary == st.gatherBinary && deadline == st.deadline && allowRetries == st.allowRetries
      ensures canModify == None && warnings == []
    {
      base, trigger, sharedBuffer := st.base, st.trigger, st.sharedBuffer;
      gatherBinary, deadline, allowRetries := st.gatherBinary, st.deadline, st.allowRetries;
      canModify := None;
      warnings := [];
    }

    /** `__getstate__`: the shared buffer, trigger and base future, and the immutable parameters. */
    function GetState(): Pickled
      reads this
    {
      Pickled(base, trigger, sharedBuffer, gatherBinary, deadline, allowRetries)
    }

    method AttachTrigger(t: Future) returns (r: Outcome<Error>)
      modifies this`trigger
      ensures r == (if old(trigger) == null then Pass else Fail(TriggerAlreadyAttached))
      ensures trigger == if old(trigger) == null then t else old(trigger)
    {
      if trigger != null {
        return Fail(TriggerAlreadyAttached);
      }
      trigger := t;
      r := Pass;
    }

    /** Lets the worker begin all-reduce by resolving the trigger. */
    method AllowAllreduce() returns (r: Outcome<Error>)
      modifies this`warnings, trigger
      ensures r == (if trigger == null then Fail(TriggerNotAttached) else Pass)
      ensures trigger == null ==> warnings == old(warnings)
      ensures trigger != null ==> trigger.Done() && trigger.state == AfterSetResult(old(trigger.state))
      ensures trigger != null ==>
        warnings == old(warnings) + (if old(trigger.state) == Pending then [] else [TriggerAlreadySet])
    {
      if trigger == null {
        return Fail(TriggerNotAttached);
      }
      if trigger.Done() {
        warnings := warnings + [TriggerAlreadySet];
      }
      trigger.SetResult();
      r := Pass;
    }

    /** The check `wait_for_trigger` makes before it awaits the trigger. */
    method WaitForTrigger() returns (r: Outcome<Error>)
      ensures r.Fail? <==> trigger == null
      ensures r.Fail? ==> r.error == TriggerNotAttached
    {
      if trigger == null {
        return Fail(TriggerNotAttached);
      }
      r := Pass;
    }

    /** The `scheduled_time` property: the float whose packing is bytes 0-7. */
    function ScheduledTime(): (t: Float)
      requires sharedBuffer.Length == BufferSize
      reads sharedBuffer
      ensures Pack(t) == sharedBuffer[ScheduledTimeOffset..ScheduledTimeOffset + 8]
    {
      PackUnpack(sharedBuffer[ScheduledTimeOffset..ScheduledTimeOffset + 8]);
      Unpack(sharedBuffer[ScheduledTimeOffset..ScheduledTimeOffset + 8])
    }

    /** Writes the scheduled time; late or past-deadline values are logged, never refused. */
    method SetScheduledTime(t: Float)
      requires sharedBuffer.Length == BufferSize
      modifies sharedBuffer, this`warnings
      ensures old(Valid()) ==> Valid()
      ensures sharedBuffer[WeightOffset..] == old(sharedBuffer[WeightOffset..])
      ensures Shared() == old(Shared()).(scheduledTime := t)
      ensures warnings == old(warnings) + ScheduleWarnings(old(BeganAllreduce()), t, deadline)
    {
      warnings := warnings + ScheduleWarnings(BeganAllreduce(), t, deadline);
      ghost var before := sharedBuffer[..];
      PackInto(sharedBuffer, ScheduledTimeOffset, t);
      assert sharedBuffer[..8] == Pack(t) && sharedBuffer[8..] == before[8..];
      assert sharedBuffer[8..16] == before[8..16];
      UnpackPack(t);
      assert ScheduledTime() == t;
    }

    /** The `weight` property: the float whose packing is bytes 8-15. */
    function Weight(): (w: Float)
      requires sharedBuffer.Length == BufferSize
      reads sharedBuffer
      ensures Pack(w) == sharedBuffer[WeightOffset..WeightOffset + 8]
    {
      PackUnpack(sharedBuffer[WeightOffset..WeightOffset + 8]);
      Unpack(sharedBuffer[WeightOffset..WeightOffset + 8])
    }

    /** Writes the weight if it is non-negative and finite; a late change is logged, not refused. */
    method SetWeight(w: Float) returns (r: Outcome<Error>)
      requires sharedBuffer.Length == BufferSize
      modifies sharedBuffer, this`warnings
      ensures old(Valid()) ==> Valid()
      ensures r == (if NonNegativeFinite(w) then Pass else Fail(InvalidWeight))
      ensures r.Fail? ==> sharedBuffer[..] == old(sharedBuffer[..]) && warnings == old(warnings)
      ensures sharedBuffer[..WeightOffset] == old(sharedBuffer[..WeightOffset])
      ensures sharedBuffer[StageOffset..] == old(sharedBuffer[StageOffset..])
      ensures Shared() == if r.Pass? then old(Shared()).(weight := w) else old(Shared())
      ensures r.Pass? ==> warnings == old(warnings) + (if old(BeganAllreduce()) then [LateWeightChange] else [])
    {
      if !NonNegativeFinite(w) {
        return Fail(InvalidWeight);
      }
      if BeganAllreduce() {
        warnings := warnings + [LateWeightChange];
      }
      ghost var before := sharedBuffer[..];
      PackInto(sharedBuffer, WeightOffset, w);
      assert sharedBuffer[..8] == before[..8] && sharedBuffer[8..16] == Pack(w) && sharedBuffer[16..] == before[16..];
      UnpackPack(w);
      assert Weight() == w;
      r := Pass;
    }

    /** Decodes byte 16; a byte outside the enumeration is a decode failure. */
    function Stage(): (s: Option<AveragingStage>)
      requires sharedBuffer.Length == BufferSize
      reads sharedBuffer
      ensures s.Some? <==> sharedBuffer[StageOffset] < 5
      ensures s.Some? ==> s.value.Value() == sharedBuffer[StageOffset]
      ensures Valid() ==> s.Some?
    {
      FromByte(sharedBuffer[StageOffset])
    }

    /** Writes the stage; entering all-reduce also clears `can_modify`. */
    method SetStage(s: AveragingStage)
      requires sharedBuffer.Length == BufferSize
      modifies sharedBuffer, this`canModify
      ensures old(Valid()) ==> Valid()
      ensures sharedBuffer[StageOffset] == s.Value()
      ensures sharedBuffer[..StageOffset] == old(sharedBuffer[..StageOffset])
      ensures sharedBuffer[BeganAllreduceOffset] == old(sharedBuffer[BeganAllreduceOffset])
      ensures Shared() == old(Shared()).(stage := Some(s))
      ensures canModify == if s == RunningAllreduce then Some(false) else old(canModify)
    {
      if s == RunningAllreduce {
        canModify := Some(false);
      }
      sharedBuffer[StageOffset] := s.Value();
      FromByteValue(s);
    }

    /** `bool` of byte 17: any nonzero byte reads as true. */
    function BeganAllreduce(): (b: bool)
      requires sharedBuffer.Length == BufferSize
      reads sharedBuffer
      ensures Valid() ==> sharedBuffer[BeganAllreduceOffset] == if b then 1 else 0
    {
      sharedBuffer[BeganAllreduceOffset] != 0
    }

    /** Stores the flag as the byte 0 or 1. */
    method SetBeganAllreduce(v: bool)
      requires sharedBuffer.Length == BufferSize
      modifies sharedBuffer
      ensures old(Valid()) ==> Valid()
      ensures sharedBuffer[BeganAllreduceOffset] == (if v then 1 else 0)
      ensures sharedBuffer[..BeganAllreduceOffset] == old(sharedBuffer[..BeganAllreduceOffset])
      ensures Shared() == old(Shared()).(beganAllreduce := v)
    {
      sharedBuffer[BeganAllreduceOffset] := if v then 1 else 0;
    }

    /** The four fields as the getters decode them. */
    function Shared(): SharedFields
      requires sharedBuffer.Length == BufferSize
      reads sharedBuffer
    {
      SharedFields(ScheduledTime(), Weight(), Stage(), BeganAllreduce())
    }

    /** `get_timeout()`, with the clock reading passed in as `now`. */
    method GetTimeout(now: Float) returns (t: Ext)
      ensures t == Timeout(deadline, now)
      ensures t == PosInf || (t.Fin? && t.r >= 0.0)
    {
      t := Timeout(deadline, now);
    }

    /** Cancels the trigger, if one is attached, then the handle's own future; reports the latter. */
    method Cancel() returns (ok: bool)
      modifies trigger, base
      ensures trigger != null ==> trigger.state == AfterCancel(old(trigger.state))
      ensures base.state == AfterCancel(old(base.state))
      ensures ok <==> old(base.state) != Resolved
    {
      if trigger != null {
        var _ := trigger.Cancel();
      }
      ok := base.Cancel();
    }
  }

  /**
   * The constructor with its failure: a weight the setter refuses makes construction fail.
   * `logged` is what `__init__` logs before it returns or fails: the scheduled-time setter
   * runs before the weight check, so its deadline warning is logged in both cases.
   */
  method Create(scheduledTime: Float, deadline: Float, allowRetries: bool, weight: Float, gatherBinary: seq<bv8>)
    returns (r: Result<StepControl, Error>, ghost logged: seq<Warning>)
    ensures r.Failure? <==> !NonNegativeFinite(weight)
    ensures r.Failure? ==> r.error == InvalidWeight
    ensures logged == if AtLeast(scheduledTime, deadline) then [ScheduledAfterDeadline] else []
    ensures r.Success? ==> fresh(r.value) && fresh(r.value.sharedBuffer) && fresh(r.value.base) && r.value.Valid()
    ensures r.Success? ==> r.value.Shared() == SharedFields(scheduledTime, weight, Some(Idle), false)
    ensures r.Success? ==> r.value.deadline == deadline && r.value.allowRetries == allowRetries
    ensures r.Success? ==> r.value.gatherBinary == gatherBinary && r.value.trigger == null
    ensures r.Success? ==> r.value.canModify == None && r.value.base.state == Pending
    ensures r.Success? ==> r.value.warnings == logged
  {
    logged := if AtLeast(scheduledTime, deadline) then [ScheduledAfterDeadline] else [];
    if !NonNegativeFinite(weight) {
      return Failure(InvalidWeight), logged;
    }
    var h := new StepControl(scheduledTime, deadline, allowRetries, weight, gatherBinary);
    r := Success(h);
  }

  /** `struct.pack_into("d", buffer, offset, x)`: writes the eight bytes of `x` at `offset`. */
  method PackInto(buffer: array<bv8>, offset: nat, x: Float)
    requires offset + 8 <= buffer.Length
    modifies buffer
    ensures buffer[..] == old(buffer[..offset]) + Pack(x) + old(buffer[offset + 8..])
  {
    var bytes := Pack(x);
    WriteBytes(buffer, offset, bytes);
  }

  /** Copies `bytes` into `buffer` from `offset` on, one byte at a time. */
  method WriteBytes(buffer: array<bv8>, offset: nat, bytes: seq<bv8>)
    requires offset + |bytes| <= buffer.Length
    modifies buffer
    ensures buffer[..] == old(buffer[..offset]) + bytes + old(buffer[offset + |bytes|..])
  {
    for k := 0 to |bytes|
      invariant forall i :: 0 <= i < k ==> buffer[offset + i] == bytes[i]
      invariant forall i :: 0 <= i < buffer.Length && !(offset <= i < offset + k) ==> buffer[i] == old(buffer[i])
    {
      buffer[offset + k] := bytes[k];
    }
    assert buffer[..] == old(buffer[..offset]) + bytes + old(buffer[offset + |bytes|..]);
  }

  /**
   * Sending a handle to another process: the receiver sees the same immutable parameters,
   * trigger and base future, and reads the same four fields from the same shared buffer.
   */
  method Transfer(h: StepControl) returns (copy: StepControl)
    requires h.sharedBuffer.Length == BufferSize
    ensures fresh(copy) && (copy.Valid() <==> h.Valid())
    ensures copy.sharedBuffer == h.sharedBuffer && copy.trigger == h.trigger && copy.base == h.base
    ensures copy.deadline == h.deadline && copy.allowRetries == h.allowRetries && copy.gatherBinary == h.gatherBinary
    ensures copy.Shared() == h.Shared()
    ensures copy.canModify == None
  {
    copy := new StepControl.FromState(h.GetState());
  }

  /** A weight written through a transferred copy is what the original handle reads. */
  method WeightWrittenByReceiver(h: StepControl, copy: StepControl, w: Float) returns (r: Outcome<Error>)
    requires h.sharedBuffer.Length == BufferSize && copy.sharedBuffer == h.sharedBuffer
    modifies copy.sharedBuffer, copy`warnings
    ensures r.Pass? <==> NonNegativeFinite(w)
    ensures h.Shared() == if r.Pass? then old(h.Shared()).(weight := w) else old(h.Shared())
  {
    r := copy.SetWeight(w);
  }

  /** Cancels an attached trigger; no trigger stays no trigger. */
  function CancelTrigger(trigger: Option<FutureState>): (t: Option<FutureState>)
    ensures t.Some? <==> trigger.Some?
    ensures t.Some? ==> t.value != Pending && (trigger.value != Pending ==> t.value == trigger.value)
  {
    if trigger.Some? then Some(AfterCancel(trigger.value)) else None
  }

  /**
   * `cancel()` as written calls itself after cancelling the trigger, instead of the base
   * future's `cancel()`. Each call cancels the trigger again and recurses; `depth` is the
   * number of frames the call stack still allows. The result is what the outermost call
   * returns (None: no call has returned) and the trigger's state when the stack runs out.
   */
  function CancelAsWritten(trigger: Option<FutureState>, depth: nat): (Option<bool>, Option<FutureState>)
    decreases depth
  {
    if depth == 0 then (None, trigger)
    else CancelAsWritten(CancelTrigger(trigger), depth - 1)
  }

  /**
   * However deep the stack, the cancel path as written never returns a result; once one
   * frame has run, the attached trigger has been cancelled, as in the corrected `Cancel`.
   */
  lemma {:induction false} CancelAsWrittenNeverReturns(trigger: Option<FutureState>, depth: nat)
    ensures CancelAsWritten(trigger, depth).0 == None
    ensures depth >= 1 ==> CancelAsWritten(trigger, depth).1 == CancelTrigger(trigger)
    decreases depth
  {
    if depth > 0 {
      CancelAsWrittenNeverReturns(CancelTrigger(trigger), depth - 1);
      if trigger.Some? {
        CancelIdempotent(trigger.value);
      }
    }
  }

  /**
   * The pickled state determines every read: two handles with the same `__getstate__`
   * see the same four shared fields and the same timeout at any clock reading.
   */
  lemma PickledStateDeterminesReads(h1: StepControl, h2: StepControl, now: Float)
    requires h1.GetState() == h2.GetState() && h1.sharedBuffer.Length == BufferSize
    ensures h2.sharedBuffer.Length == BufferSize
    ensures h1.Shared() == h2.Shared() && (h1.Valid() <==> h2.Valid())
    ensures Timeout(h1.deadline, now) == Timeout(h2.deadline, now)
  {
  }
}
