/**
 * The Pro Tools automation as the objects it is: a job whose counters and flags change in
 * place, and the automation holding at most one job and the chat commands it has sent. Every
 * method is specified by the value functions of module Workflow.
 */
module Automation {
  import opened Wrappers
  import opened JavaText
  import opened Areas
  import opened Coords
  import opened Workflow

  /** `ProtoolsAutomation.Job`: fixed targets and the mutable progress of one run. */
  class Job {
    const pos1Target: BlockPos
    const pos2Target: BlockPos
    const blockId: string
    const operation: Operation
    /** The player's position when the job was started, as the "x y z" text of the return teleport. */
    const returnCoords: string

    var step: int
    var waitTicks: int
    var tpWaitTicks: int
    var pending: Pending
    var confirmTicksRemaining: int
    var confirmOk: bool
    var confirmBad: bool
    var playerBlockAtPosSend: Option<BlockPos>
    var retries1: int
    var retries2: int

    function Value(): JobState
      reads this
    {
      JobState(pos1Target, pos2Target, blockId, operation, returnCoords, step, waitTicks, tpWaitTicks,
               pending, confirmTicksRemaining, confirmOk, confirmBad, playerBlockAtPosSend, retries1, retries2)
    }

    constructor (pos1: BlockPos, pos2: BlockPos, id: string, op: Operation, ret: string)
      ensures Value() == NewJob(pos1, pos2, id, op, ret)
    {
      pos1Target := pos1;
      pos2Target := pos2;
      blockId := id;
      operation := op;
      returnCoords := ret;
      step := 0;
      waitTicks := 0;
      tpWaitTicks := 0;
      pending := NoPending;
      confirmTicksRemaining := 0;
      confirmOk := false;
      confirmBad := false;
      playerBlockAtPosSend := None;
      retries1 := PosRetryCount;
      retries2 := PosRetryCount;
    }

    /** `beginConfirm`, with the player's block position passed in. */
    method BeginConfirm(p: Pending, at: BlockPos)
      modifies this
      ensures Value() == Workflow.BeginConfirm(old(Value()), p, at)
    {
      pending := p;
      confirmTicksRemaining := PosConfirmTimeoutTicks;
      confirmOk := false;
      confirmBad := false;
      playerBlockAtPosSend := Some(at);
    }

    /** `resetConfirm`. */
    method ResetConfirm()
      modifies this
      ensures Value() == Workflow.ResetConfirm(old(Value()))
    {
      pending := NoPending;
      confirmTicksRemaining := 0;
      confirmOk := false;
      confirmBad := false;
      playerBlockAtPosSend := None;
    }

    /** `tickConfirm`: true once the pending corner is confirmed. */
    method TickConfirm() returns (ok: bool)
      modifies this
      ensures Confirmation(ok, Value()) == Workflow.TickConfirm(old(Value()))
    {
      var expected := if pending == Pos1 then pos1Target else pos2Target;
      if confirmOk {
        ResetConfirm();
        return true;
      }
      if confirmBad {
        return false;
      }
      if confirmTicksRemaining > 0 {
        confirmTicksRemaining := confirmTicksRemaining - 1;
        if confirmTicksRemaining > 0 {
          return false;
        }
      }
      if playerBlockAtPosSend == Some(expected) {
        ResetConfirm();
        return true;
      }
      return false;
    }
  }

  /** `ProtoolsAutomation`: at most one job, and the chat commands sent so far. */
  class ProtoolsAutomation {
    var job: Job?
    var sent: seq<string>

    /** The current job as a value; None when there is none. */
    function State(): Option<JobState>
      reads this, job
    {
      if job == null then None else Some(job.Value())
    }

    /** The job, if any, keeps the invariant of module Workflow. */
    predicate Valid()
      reads this, job
    {
      State().Some? ==> Inv(State().value)
    }

    constructor ()
      ensures Valid() && State() == None && sent == []
    {
      job := null;
      sent := [];
    }

    /** `startSetBlockJob`: refused without a player or while a job runs; otherwise a job on one block. */
    method StartSetBlockJob(playerPresent: bool, target: BlockPos, blockId: string, returnCoords: string)
      returns (started: bool)
      requires Valid()
      modifies this
      ensures Valid()
      ensures started <==> playerPresent && old(job) == null
      ensures started ==> fresh(job) && State() == Some(NewJob(target, target, blockId, Set, returnCoords))
      ensures !started ==> job == old(job) && State() == old(State())
      ensures sent == old(sent)
    {
      if !playerPresent {
        return false;
      }
      if job != null {
        return false;
      }
      job := new Job(target, target, blockId, Set, returnCoords);
      return true;
    }

    /** `startFillBlocksJob`: as above, with two corners and the fill operation. */
    method StartFillBlocksJob(playerPresent: bool, pos1: BlockPos, pos2: BlockPos, blockId: string, returnCoords: string)
      returns (started: bool)
      requires Valid()
      modifies this
      ensures Valid()
      ensures started <==> playerPresent && old(job) == null
      ensures started ==> fresh(job) && State() == Some(NewJob(pos1, pos2, blockId, Fill, returnCoords))
      ensures !started ==> job == old(job) && State() == old(State())
      ensures sent == old(sent)
    {
      if !playerPresent {
        return false;
      }
      if job != null {
        return false;
      }
      job := new Job(pos1, pos2, blockId, Fill, returnCoords);
      return true;
    }

    /** `send`: one chat command. */
    method Send(command: string)
      modifies this
      ensures sent == old(sent) + [command] && job == old(job)
    {
      sent := sent + [command];
    }

    /** `fail`: the job is dropped. */
    method Fail()
      modifies this
      ensures job == null && sent == old(sent)
    {
      job := null;
    }

    /** `onClientTick` (end phase). */
    method OnClientTick(t: TickInput)
      requires Valid()
      modifies this, job
      ensures Valid()
      ensures State() == Tick(old(State()), t).job
      ensures sent == old(sent) + Tick(old(State()), t).sent
    {
      StepKeepsInv(State(), TickEvent(t));
      if job == null {
        return;
      }
      if !t.playerPresent {
        job := null;
        return;
      }
      if job.waitTicks > 0 {
        job.waitTicks := job.waitTicks - 1;
        return;
      }
      if t.fault {
        job := null;
        return;
      }
      Advance(t.near, t.playerBlock);
    }

    /** `advance`: one step of the job, given whether the player is near its target and where the player stands. */
    method Advance(near: bool, at: BlockPos)
      requires job != null
      modifies this, job
      ensures State() == Workflow.Advance(old(job.Value()), near, at).job
      ensures sent == old(sent) + Workflow.Advance(old(job.Value()), near, at).sent
    {
      var j := job;
      if j.step == 0 {
        Send(TpCenter(j.pos1Target));
        j.step, j.tpWaitTicks, j.waitTicks := 1, 0, 0;
      } else if j.step == 1 {
        j.tpWaitTicks := j.tpWaitTicks + 1;
        if near || j.tpWaitTicks >= TpTimeoutTicks {
          j.step, j.waitTicks := 2, TpToPosDelayTicks;
        }
      } else if j.step == 2 {
        Send("//pos1");
        j.BeginConfirm(Pos1, at);
        j.step, j.waitTicks := 20, 0;
      } else if j.step == 20 {
        ConfirmCorner(true);
      } else if j.step == 3 {
        Send(TpCenter(j.pos2Target));
        j.step, j.tpWaitTicks, j.waitTicks := 4, 0, 0;
      } else if j.step == 4 {
        j.tpWaitTicks := j.tpWaitTicks + 1;
        if near || j.tpWaitTicks >= TpTimeoutTicks {
          j.step, j.waitTicks := 5, TpToPosDelayTicks;
        }
      } else if j.step == 5 {
        Send("//pos2");
        j.BeginConfirm(Pos2, at);
        j.step, j.waitTicks := 21, 0;
      } else if j.step == 21 {
        ConfirmCorner(false);
      } else if j.step == 6 {
        if j.operation == Fill {
          Send("//fill " + j.blockId);
        } else {
          Send("//set " + j.blockId);
        }
        j.step, j.waitTicks := 7, StepDelayTicks;
      } else if j.step == 7 {
        Send("/tp " + j.returnCoords);
        j.step, j.waitTicks := 8, ReturnToDeselectDelayTicks;
      } else if j.step == 8 {
        Send("//desel");
        j.step, j.waitTicks := 9, DeselectDelayTicks;
      } else {
        job := null;
      }
    }

    /** Steps 20 and 21 of `advance`: wait for the corner's confirmation, retry it, or give up. */
    method ConfirmCorner(first: bool)
      requires job != null
      modifies this, job
      ensures State() == ConfirmStep(old(job.Value()), first).job
      ensures sent == old(sent) + ConfirmStep(old(job.Value()), first).sent
    {
      var j := job;
      var ok := j.TickConfirm();
      if ok {
        j.step, j.waitTicks := if first then 3 else 6, StepDelayTicks;
      } else if j.confirmBad || j.confirmTicksRemaining <= 0 {
        var left := if first then j.retries1 else j.retries2;
        if left > 0 {
          if first {
            j.retries1 := left - 1;
          } else {
            j.retries2 := left - 1;
          }
          j.ResetConfirm();
          j.step, j.waitTicks := if first then 0 else 3, TpRetryDelayTicks;
        } else {
          Fail();
        }
      }
    }

    /** `onChatReceived`: a message naming the pending corner with coordinates decides its confirmation. */
    method OnChatReceived(msg: string)
      requires Valid()
      modifies job
      ensures Valid()
      ensures State() == Chat(old(State()), msg)
    {
      StepKeepsInv(State(), ChatEvent(msg));
      if job == null || msg == [] {
        return;
      }
      var p := job.pending;
      if p == NoPending {
        return;
      }
      var lower := AsciiLower(msg);
      var isPos1 := p == Pos1 && (HasSubstring(lower, "pos1") || HasSubstring(lower, "first position") || HasSubstring(lower, "position 1"));
      var isPos2 := p == Pos2 && (HasSubstring(lower, "pos2") || HasSubstring(lower, "second position") || HasSubstring(lower, "position 2"));
      if !isPos1 && !isPos2 {
        return;
      }
      var coords := ParseCoords(msg);
      if coords.None? {
        return;
      }
      var expected := if p == Pos1 then job.pos1Target else job.pos2Target;
      if coords.value == expected {
        job.confirmOk := true;
      } else {
        job.confirmBad := true;
      }
    }
  }
}
