/** The `AveragingStage` enumeration and its one-byte encoding in the shared buffer. */
module Stages {
  import opened Wrappers

  /** The coarse lifecycle of one averaging step. */
  datatype AveragingStage =
    | Idle             // still initializing
    | LookingForGroup  // decentralized matchmaking is running
    | AwaitingTrigger  // a group is found; waiting for the trigger that allows all-reduce
    | RunningAllreduce // exchanging tensors with the group
    | Finished         // done, or failed with an exception
  {
    /** The enum member's value, as stored in byte 16 of the shared buffer. */
    function Value(): (b: bv8)
      ensures b < 5
    {
      match this
      case Idle => 0
      case LookingForGroup => 1
      case AwaitingTrigger => 2
      case RunningAllreduce => 3
      case Finished => 4
    }
  }

  /** `AveragingStage(b)`: only the five member values decode; any other byte is a decode failure. */
  function FromByte(b: bv8): (r: Option<AveragingStage>)
    ensures r.Some? <==> b < 5
    ensures r.Some? ==> r.value.Value() == b
  {
    if b == 0 then Some(Idle)
    else if b == 1 then Some(LookingForGroup)
    else if b == 2 then Some(AwaitingTrigger)
    else if b == 3 then Some(RunningAllreduce)
    else if b == 4 then Some(Finished)
    else None
  }

  /** Decoding a stored stage gives back the stage that was stored. */
  lemma FromByteValue(s: AveragingStage)
    ensures FromByte(s.Value()) == Some(s)
  {
  }

  /** Distinct stages are stored as distinct bytes. */
  lemma ValueInjective(s: AveragingStage, t: AveragingStage)
    requires s.Value() == t.Value()
    ensures s == t
  {
    FromByteValue(s);
    FromByteValue(t);
  }
}
