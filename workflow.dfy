/**
 * The Pro Tools automation job as values: the job record, the tick and chat transitions of its
 * state machine, and runs of events. The classes in module Automation update a job in place and
 * are specified by these functions.
 */
module Workflow {
  import opened Wrappers
  import opened JavaText
  import opened Areas
  import opened Coords

  // ---------------------------------------------------------------- constants

  const TpToPosDelayTicks := 1
  const StepDelayTicks := 10
  const DeselectDelayTicks := 14
  const ReturnToDeselectDelayTicks := 14
  const TpTimeoutTicks := 120
  const PosRetryCount := 3
  const TpRetryDelayTicks := 12
  const PosConfirmTimeoutTicks := 40

  /** The steps `advance` knows; any other step ends the job. */
  predicate KnownStep(step: int) {
    step == 0 || step == 1 || step == 2 || step == 20 || step == 3 || step == 4 ||
    step == 5 || step == 21 || step == 6 || step == 7 || step == 8 || step == 9
  }

  // ---------------------------------------------------------------- the job

  datatype Operation = Set | Fill

  /** Which corner's confirmation the job is waiting for. */
  datatype Pending = NoPending | Pos1 | Pos2

  /**
   * A job: the two corners, the block id, the operation and the return position (kept as the
   * "x y z" text the return teleport sends), then the counters and flags the state machine
   * updates.
   */
  datatype JobState = JobState(
    pos1Target: BlockPos, pos2Target: BlockPos, blockId: string, operation: Operation,
    returnCoords: string,
    step: int, waitTicks: int, tpWaitTicks: int,
    pending: Pending, confirmTicksRemaining: int, confirmOk: bool, confirmBad: bool,
    playerBlockAtPosSend: Option<BlockPos>,
    retries1: int, retries2: int)

  /** A freshly created job, about to teleport to its first corner. */
  function NewJob(pos1: BlockPos, pos2: BlockPos, blockId: string, op: Operation, returnCoords: string): (j: JobState)
    ensures j.pos1Target == pos1 && j.pos2Target == pos2 && j.blockId == blockId && j.operation == op
    ensures j.step == 0 && j.waitTicks == 0 && j.pending == NoPending
    ensures j.retries1 == PosRetryCount && j.retries2 == PosRetryCount
    ensures Inv(j)
  {
    JobState(pos1, pos2, blockId, op, returnCoords, 0, 0, 0, NoPending, 0, false, false, None,
             PosRetryCount, PosRetryCount)
  }

  /**
   * What holds of every job between events: a known step, counters inside their bounds, and a
   * confirmation pending exactly while the job waits at step 20 (first corner) or 21 (second).
   */
  predicate Inv(j: JobState) {
    KnownStep(j.step) &&
    0 <= j.waitTicks <= DeselectDelayTicks &&
    0 <= j.tpWaitTicks <= TpTimeoutTicks &&
    ((j.step == 1 || j.step == 4) ==> j.tpWaitTicks < TpTimeoutTicks) &&
    0 <= j.confirmTicksRemaining <= PosConfirmTimeoutTicks &&
    0 <= j.retries1 <= PosRetryCount && 0 <= j.retries2 <= PosRetryCount &&
    (j.pending == Pos1 <==> j.step == 20) && (j.pending == Pos2 <==> j.step == 21)
  }

  // ---------------------------------------------------------------- teleport text

  /** "%.3f" of a number with whole part `n` and three fraction digits `frac`, negative when `neg`. */
  function Fixed3(neg: bool, n: nat, frac: string): string {
    (if neg then "-" else "") + NatDigits(n) + "." + frac
  }

  /** `formatCoord(v + 0.5)` for a block coordinate `v`: exact, since `v + 0.5` is a double. */
  function HalfText(v: Int32): string {
    if v >= 0 then Fixed3(false, v, "500") else Fixed3(true, -(v as int) - 1, "500")
  }

  /** `formatCoord(v)` for a whole-numbered coordinate `v`. */
  function WholeText(v: Int32): string {
    if v >= 0 then Fixed3(false, v, "000") else Fixed3(true, -(v as int), "000")
  }

  /** The number a "%.3f" text stands for: an optional '-', decimal digits, '.', three digits. */
  function Fixed3Value(t: string): (r: Option<real>)
  {
    var neg := |t| > 0 && t[0] == '-';
    var body := if neg then t[1..] else t;
    if |body| < 5 || body[|body| - 4] != '.' then None
    else
      var whole := DigitsValue(body[..|body| - 4], 10);
      var frac := DigitsValue(body[|body| - 3..], 10);
      if whole.None? || frac.None? then None
      else
        var m := whole.value as real + frac.value as real / 1000.0;
        Some(if neg then -m else m)
  }

  /** Proof helper: a "%.3f" text reads as its sign, whole part and three fraction digits. */
  lemma Fixed3Reads(neg: bool, n: nat, frac: string, f: nat)
    requires |frac| == 3 && DigitsValue(frac, 10) == Some(f)
    ensures var m := n as real + f as real / 1000.0;
            Fixed3Value(Fixed3(neg, n, frac)) == Some(if neg then -m else m)
    ensures Fixed3(neg, n, frac)[0] == '-' <==> neg
  {
    var t := Fixed3(neg, n, frac);
    var d := NatDigits(n);
    var body := d + "." + frac;
    assert d[0] != '-';
    assert t == (if neg then "-" else "") + body;
    assert (|t| > 0 && t[0] == '-') == neg;
    assert (if neg then t[1..] else t) == body;
    assert |body| == |d| + 4 && body[|body| - 4] == '.';
    assert body[..|body| - 4] == d;
    assert body[|body| - 3..] == frac;
    NatDigitsValue(n);
  }

  /** Proof helper: the two fraction texts the teleport uses. */
  lemma FractionDigits()
    ensures DigitsValue("500", 10) == Some(500) && DigitsValue("000", 10) == Some(0)
  {
    assert "500"[..2] == "50" && "50"[..1] == "5" && "5"[..0] == "";
    assert "000"[..2] == "00" && "00"[..1] == "0" && "0"[..0] == "";
  }

  /** The teleport text for the middle of block `v` reads as exactly `v + 0.5`, and is negative exactly when `v` is. */
  lemma HalfTextValue(v: Int32)
    ensures Fixed3Value(HalfText(v)) == Some(v as real + 0.5)
    ensures HalfText(v)[0] == '-' <==> v < 0
  {
    FractionDigits();
    if v >= 0 {
      Fixed3Reads(false, v, "500", 500);
    } else {
      var n: nat := -(v as int) - 1;
      Fixed3Reads(true, n, "500", 500);
      assert -(n as real + 0.5) == v as real + 0.5;
    }
  }

  /** The teleport text for the height `v` reads as exactly `v`. */
  lemma WholeTextValue(v: Int32)
    ensures Fixed3Value(WholeText(v)) == Some(v as real)
  {
    FractionDigits();
    if v >= 0 {
      Fixed3Reads(false, v, "000", 0);
    } else {
      Fixed3Reads(true, -(v as int), "000", 0);
    }
  }

  /** `sendTpToBlockCenter`: teleport to the middle of the block's floor. */
  function TpCenter(p: BlockPos): string {
    "/tp " + HalfText(p.x) + " " + WholeText(p.y) + " " + HalfText(p.z)
  }

  // ---------------------------------------------------------------- confirmation

  /** `beginConfirm`: wait up to 40 ticks for `pending`, remembering where the player stood. */
  function BeginConfirm(j: JobState, pending: Pending, at: BlockPos): (k: JobState)
    ensures k.pending == pending && k.confirmTicksRemaining == PosConfirmTimeoutTicks
    ensures !k.confirmOk && !k.confirmBad && k.playerBlockAtPosSend == Some(at)
    ensures k.(pending := j.pending, confirmTicksRemaining := j.confirmTicksRemaining, confirmOk := j.confirmOk,
               confirmBad := j.confirmBad, playerBlockAtPosSend := j.playerBlockAtPosSend) == j
  {
    j.(pending := pending, confirmTicksRemaining := PosConfirmTimeoutTicks, confirmOk := false,
       confirmBad := false, playerBlockAtPosSend := Some(at))
  }

  /** `resetConfirm`: nothing pending any more. */
  function ResetConfirm(j: JobState): (k: JobState)
    ensures k.pending == NoPending && k.confirmTicksRemaining == 0
    ensures !k.confirmOk && !k.confirmBad && k.playerBlockAtPosSend == None
    ensures k.(pending := j.pending, confirmTicksRemaining := j.confirmTicksRemaining, confirmOk := j.confirmOk,
               confirmBad := j.confirmBad, playerBlockAtPosSend := j.playerBlockAtPosSend) == j
  {
    j.(pending := NoPending, confirmTicksRemaining := 0, confirmOk := false,
       confirmBad := false, playerBlockAtPosSend := None)
  }

  /** The corner the pending confirmation is about. */
  function Expected(j: JobState): BlockPos {
    if j.pending == Pos1 then j.pos1Target else j.pos2Target
  }

  /** What one call of `tickConfirm` answers, and the job after it. */
  datatype Confirmation = Confirmation(ok: bool, job: JobState)

  /**
   * `tickConfirm`: a chat confirmation wins over a chat mismatch; a mismatch fails at once;
   * otherwise the countdown runs, and when it is over the position recorded at send time decides.
   */
  function TickConfirm(j: JobState): (r: Confirmation)
    ensures r.ok <==> j.confirmOk ||
                      (!j.confirmBad && j.confirmTicksRemaining <= 1 && j.playerBlockAtPosSend == Some(Expected(j)))
    ensures r.ok ==> r.job == ResetConfirm(j)
    ensures !r.ok ==> r.job.step == j.step && r.job.confirmBad == j.confirmBad && r.job.pending == j.pending
    ensures !r.ok && !j.confirmBad && j.confirmTicksRemaining > 0 ==>
              r.job == j.(confirmTicksRemaining := j.confirmTicksRemaining - 1)
    ensures !r.ok && (j.confirmBad || j.confirmTicksRemaining <= 0) ==> r.job == j
  {
    if j.confirmOk then Confirmation(true, ResetConfirm(j))
    else if j.confirmBad then Confirmation(false, j)
    else
      var k := if j.confirmTicksRemaining > 0 then j.(confirmTicksRemaining := j.confirmTicksRemaining - 1) else j;
      if k.confirmTicksRemaining > 0 then Confirmation(false, k)
      else if k.playerBlockAtPosSend == Some(Expected(j)) then Confirmation(true, ResetConfirm(k))
      else Confirmation(false, k)
  }

  // ---------------------------------------------------------------- advance

  /** The job after a transition (None once it is cleared) and the commands sent on the way. */
  datatype Outcome = Outcome(job: Option<JobState>, sent: seq<string>)

  /** Steps 0 and 3: teleport to the corner and start waiting for arrival. */
  function TpStep(j: JobState, target: BlockPos, next: int): Outcome {
    Outcome(Some(j.(step := next, tpWaitTicks := 0, waitTicks := 0)), [TpCenter(target)])
  }

  /** Steps 1 and 4: count a tick of the teleport wait; move on when near or after 120 ticks. */
  function ArriveStep(j: JobState, near: bool, next: int): Outcome {
    var t := j.tpWaitTicks + 1;
    if near || t >= TpTimeoutTicks then Outcome(Some(j.(tpWaitTicks := t, step := next, waitTicks := TpToPosDelayTicks)), [])
    else Outcome(Some(j.(tpWaitTicks := t)), [])
  }

  /** Steps 2 and 5: send the //pos command and wait for its confirmation. */
  function PosStep(j: JobState, command: string, pending: Pending, at: BlockPos, next: int): Outcome {
    Outcome(Some(BeginConfirm(j, pending, at).(step := next, waitTicks := 0)), [command])
  }

  /**
   * Steps 20 and 21: on a confirmation move on to the next corner (or the edit); on a mismatch
   * or a timeout spend a retry and teleport again, or clear the job when none are left.
   */
  function ConfirmStep(j: JobState, first: bool): Outcome {
    var c := TickConfirm(j);
    if c.ok then Outcome(Some(c.job.(step := if first then 3 else 6, waitTicks := StepDelayTicks)), [])
    else if c.job.confirmBad || c.job.confirmTicksRemaining <= 0 then
      var left := if first then c.job.retries1 else c.job.retries2;
      if left > 0 then
        var k := ResetConfirm(c.job);
        if first then Outcome(Some(k.(retries1 := left - 1, step := 0, waitTicks := TpRetryDelayTicks)), [])
        else Outcome(Some(k.(retries2 := left - 1, step := 3, waitTicks := TpRetryDelayTicks)), [])
      else Outcome(None, [])
    else Outcome(Some(c.job), [])
  }

  /** The edit command step 6 sends: `//fill <id>` for a fill job, `//set <id>` otherwise. */
  function EditCommand(j: JobState): string {
    if j.operation == Fill then "//fill " + j.blockId else "//set " + j.blockId
  }

  /**
   * `advance`: one step of the job, given whether the player is near the current target and
   * the block the player stands on.
   */
  function Advance(j: JobState, near: bool, at: BlockPos): (r: Outcome)
    ensures |r.sent| <= 1
    ensures !KnownStep(j.step) ==> r == Outcome(None, [])
    ensures r.job.Some? ==> KnownStep(r.job.value.step)
  {
    match j.step
    case 0 => TpStep(j, j.pos1Target, 1)
    case 1 => ArriveStep(j, near, 2)
    case 2 => PosStep(j, "//pos1", Pos1, at, 20)
    case 20 => ConfirmStep(j, true)
    case 3 => TpStep(j, j.pos2Target, 4)
    case 4 => ArriveStep(j, near, 5)
    case 5 => PosStep(j, "//pos2", Pos2, at, 21)
    case 21 => ConfirmStep(j, false)
    case 6 => Outcome(Some(j.(step := 7, waitTicks := StepDelayTicks)), [EditCommand(j)])
    case 7 => Outcome(Some(j.(step := 8, waitTicks := ReturnToDeselectDelayTicks)), ["/tp " + j.returnCoords])
    case 8 => Outcome(Some(j.(step := 9, waitTicks := DeselectDelayTicks)), ["//desel"])
    case _ => Outcome(None, [])
  }

  // ---------------------------------------------------------------- events

  /**
   * What the game tells a client tick: whether there is a player, whether the player is near
   * the current target, the block the player stands on, and whether `advance` threw.
   */
  datatype TickInput = TickInput(playerPresent: bool, near: bool, playerBlock: BlockPos, fault: bool)

  /** `onClientTick` (end phase): no player clears the job; a pending wait only counts down; a fault clears the job. */
  function Tick(job: Option<JobState>, t: TickInput): (r: Outcome)
    ensures |r.sent| <= 1
    ensures r.sent != [] ==> job.Some? && t.playerPresent && job.value.waitTicks <= 0 && !t.fault
    ensures !t.playerPresent ==> r.job.None?
  {
    if job.None? then Outcome(None, [])
    else if !t.playerPresent then Outcome(None, [])
    else if job.value.waitTicks > 0 then Outcome(Some(job.value.(waitTicks := job.value.waitTicks - 1)), [])
    else if t.fault then Outcome(None, [])
    else Advance(job.value, t.near, t.playerBlock)
  }

  /** `String.contains` on the ASCII-lower-cased text of one of the corner's keywords. */
  predicate MentionsCorner(lower: string, p: Pending) {
    if p == Pos1 then HasSubstring(lower, "pos1") || HasSubstring(lower, "first position") || HasSubstring(lower, "position 1")
    else if p == Pos2 then HasSubstring(lower, "pos2") || HasSubstring(lower, "second position") || HasSubstring(lower, "position 2")
    else false
  }

  /**
   * `onChatReceived`: a non-empty message that names the pending corner and holds coordinates
   * marks the confirmation good when they are that corner's target and bad otherwise.
   */
  function Chat(job: Option<JobState>, msg: string): (r: Option<JobState>)
    ensures r.Some? <==> job.Some?
    ensures r.Some? ==> r.value == job.value.(confirmOk := r.value.confirmOk, confirmBad := r.value.confirmBad)
    ensures r != job ==> job.value.pending != NoPending && msg != [] &&
                         MentionsCorner(AsciiLower(msg), job.value.pending) && ParseCoords(msg).Some?
    ensures job.Some? && job.value.pending != NoPending && msg != [] && MentionsCorner(AsciiLower(msg), job.value.pending) ==>
              (ParseCoords(msg) == Some(Expected(job.value)) ==> r.value.confirmOk) &&
              (ParseCoords(msg).Some? && ParseCoords(msg) != Some(Expected(job.value)) ==> r.value.confirmBad)
    ensures r.Some? && r.value.confirmOk != job.value.confirmOk ==> ParseCoords(msg) == Some(Expected(job.value))
    ensures r.Some? && r.value.confirmBad != job.value.confirmBad ==> ParseCoords(msg) != Some(Expected(job.value))
  {
    if job.None? || msg == [] || job.value.pending == NoPending then job
    else if !MentionsCorner(AsciiLower(msg), job.value.pending) then job
    else
      match ParseCoords(msg)
      case None => job
      case Some(p) =>
        if p == Expected(job.value) then Some(job.value.(confirmOk := true))
        else Some(job.value.(confirmBad := true))
  }

  datatype Event = TickEvent(input: TickInput) | ChatEvent(msg: string)

  function Step(job: Option<JobState>, e: Event): Outcome {
    match e
    case TickEvent(t) => Tick(job, t)
    case ChatEvent(m) => Outcome(Chat(job, m), [])
  }

  /** A transition applied event by event: the job at the end and everything sent on the way, in order. */
  function Fold(step: (Option<JobState>, Event) -> Outcome, job: Option<JobState>, es: seq<Event>): Outcome
    decreases |es|
  {
    if es == [] then Outcome(job, [])
    else
      var o := step(job, es[0]);
      var rest := Fold(step, o.job, es[1..]);
      Outcome(rest.job, o.sent + rest.sent)
  }

  /** The job after a sequence of events, and every command sent on the way, in order. */
  function Run(job: Option<JobState>, es: seq<Event>): Outcome {
    Fold(Step, job, es)
  }

  // ---------------------------------------------------------------- runs

  /** Folding over `a` and then over `b` is folding over `a + b`. */
  lemma {:induction false} FoldAppend(step: (Option<JobState>, Event) -> Outcome, job: Option<JobState>,
                                      a: seq<Event>, b: seq<Event>)
    ensures var first := Fold(step, job, a);
            var second := Fold(step, first.job, b);
            Fold(step, job, a + b) == Outcome(second.job, first.sent + second.sent)
    decreases |a|
  {
    if a == [] {
      assert a + b == b;
    } else {
      assert (a + b)[0] == a[0] && (a + b)[1..] == a[1..] + b;
      FoldAppend(step, step(job, a[0]).job, a[1..], b);
    }
  }

  /** Running `a` then `b` is running `a + b`. */
  lemma RunAppend(job: Option<JobState>, a: seq<Event>, b: seq<Event>)
    ensures var first := Run(job, a);
            var second := Run(first.job, b);
            Run(job, a + b) == Outcome(second.job, first.sent + second.sent)
  {
    FoldAppend(Step, job, a, b);
  }

  /** No events change nothing. */
  lemma RunNil(job: Option<JobState>)
    ensures Run(job, []) == Outcome(job, [])
  {
  }

  /** A run is its first event's step followed by the run of the rest. */
  lemma RunCons(job: Option<JobState>, es: seq<Event>)
    requires es != []
    ensures var o := Step(job, es[0]);
            var rest := Run(o.job, es[1..]);
            Run(job, es) == Outcome(rest.job, o.sent + rest.sent)
  {
  }

  /** A run of one event is that event's step. */
  lemma RunOne(job: Option<JobState>, es: seq<Event>)
    requires |es| == 1
    ensures Run(job, es) == Step(job, es[0])
  {
    RunCons(job, es);
    RunNil(Step(job, es[0]).job);
    assert es[1..] == [];
  }

  /** Every event is a tick that finds the player present. */
  predicate Present(es: seq<Event>) {
    forall i :: 0 <= i < |es| ==> es[i].TickEvent? && es[i].input.playerPresent
  }

  /** Every event is a tick that finds the player present and in which `advance` does not throw. */
  predicate Calm(es: seq<Event>) {
    forall i :: 0 <= i < |es| ==> es[i].TickEvent? && es[i].input.playerPresent && !es[i].input.fault
  }

  /** Every event is a tick with the player present, near the target, standing on block `b`. */
  predicate Steady(es: seq<Event>, b: BlockPos) {
    forall i :: 0 <= i < |es| ==> es[i] == TickEvent(TickInput(true, true, b, false))
  }

  // ---------------------------------------------------------------- invariant

  /** A confirm step keeps the invariant. */
  lemma ConfirmKeepsInv(j: JobState, first: bool)
    requires Inv(j) && j.step == (if first then 20 else 21)
    ensures var r := ConfirmStep(j, first).job; r.Some? ==> Inv(r.value)
  {
    var c := TickConfirm(j);
    assert c.ok ==> c.job.pending == NoPending;
  }

  /** A step of `advance` keeps the invariant. */
  lemma AdvanceKeepsInv(j: JobState, near: bool, at: BlockPos)
    requires Inv(j) && j.waitTicks <= 0
    ensures var r := Advance(j, near, at).job; r.Some? ==> Inv(r.value)
  {
    if j.step == 20 || j.step == 21 {
      ConfirmKeepsInv(j, j.step == 20);
    }
  }

  /** One event keeps the invariant of a job that survives it. */
  lemma StepKeepsInv(job: Option<JobState>, e: Event)
    requires job.Some? ==> Inv(job.value)
    ensures Step(job, e).job.Some? ==> Inv(Step(job, e).job.value)
  {
    if e.TickEvent? && job.Some? && e.input.playerPresent && job.value.waitTicks <= 0 && !e.input.fault {
      AdvanceKeepsInv(job.value, e.input.near, e.input.playerBlock);
    }
  }

  /** Any sequence of ticks and chat messages keeps the invariant. */
  lemma {:induction false} RunKeepsInv(job: Option<JobState>, es: seq<Event>)
    requires job.Some? ==> Inv(job.value)
    ensures Run(job, es).job.Some? ==> Inv(Run(job, es).job.value)
    decreases |es|
  {
    if es != [] {
      StepKeepsInv(job, es[0]);
      RunKeepsInv(Step(job, es[0]).job, es[1..]);
    }
  }

  // ---------------------------------------------------------------- retries

  /** A corner is retried: the job leaves its confirm step (20 or 21) for its teleport step (0 or 3). */
  predicate Retried(job: Option<JobState>, next: Option<JobState>, first: bool) {
    job.Some? && next.Some? && job.value.step == (if first then 20 else 21) && next.value.step == (if first then 0 else 3)
  }

  /** An event never raises a retry counter, and a retry spends exactly one. */
  lemma StepRetries(j: JobState, e: Event)
    requires Inv(j)
    ensures var next := Step(Some(j), e).job;
            next.Some? ==> next.value.retries1 <= j.retries1 && next.value.retries2 <= j.retries2
    ensures Retried(Some(j), Step(Some(j), e).job, true) ==> Step(Some(j), e).job.value.retries1 == j.retries1 - 1
    ensures Retried(Some(j), Step(Some(j), e).job, false) ==> Step(Some(j), e).job.value.retries2 == j.retries2 - 1
  {
  }

  /** How many events of `es` send the job back to a corner's teleport step. */
  function Retries(job: Option<JobState>, es: seq<Event>, first: bool): nat
    decreases |es|
  {
    if es == [] then 0
    else
      var next := Step(job, es[0]).job;
      (if Retried(job, next, first) then 1 else 0) + Retries(next, es[1..], first)
  }

  /** Whatever happens, a corner is retried at most as often as its counter allows. */
  lemma {:induction false} RetriesBounded(j: JobState, es: seq<Event>, first: bool)
    requires Inv(j)
    ensures Retries(Some(j), es, first) <= (if first then j.retries1 else j.retries2)
    decreases |es|
  {
    if es != [] {
      var next := Step(Some(j), es[0]).job;
      StepKeepsInv(Some(j), es[0]);
      StepRetries(j, es[0]);
      if next.Some? {
        RetriesBounded(next.value, es[1..], first);
      } else {
        NoJobNoRetries(es[1..], first);
      }
    }
  }

  /** Once the job is cleared nothing is retried. */
  lemma {:induction false} NoJobNoRetries(es: seq<Event>, first: bool)
    ensures Retries(None, es, first) == 0
    decreases |es|
  {
    if es != [] {
      NoJobNoRetries(es[1..], first);
    }
  }

  /** A new job retries each corner at most three times. */
  lemma AtMostThreeRetries(pos1: BlockPos, pos2: BlockPos, blockId: string, op: Operation, ret: string, es: seq<Event>)
    ensures Retries(Some(NewJob(pos1, pos2, blockId, op, ret)), es, true) <= PosRetryCount
    ensures Retries(Some(NewJob(pos1, pos2, blockId, op, ret)), es, false) <= PosRetryCount
  {
    RetriesBounded(NewJob(pos1, pos2, blockId, op, ret), es, true);
    RetriesBounded(NewJob(pos1, pos2, blockId, op, ret), es, false);
  }

  /** A failed confirmation with no retries left clears the job; with some left it restarts the corner after 12 ticks. */
  lemma ConfirmFailure(j: JobState, first: bool)
    requires j.step == (if first then 20 else 21)
    requires !TickConfirm(j).ok && (j.confirmBad || j.confirmTicksRemaining <= 1)
    ensures var left := if first then j.retries1 else j.retries2;
            var r := Advance(j, false, j.pos1Target);
            r.sent == [] && (left <= 0 <==> r.job.None?) &&
            (left > 0 ==> r.job.value.step == (if first then 0 else 3) && r.job.value.waitTicks == TpRetryDelayTicks &&
                          r.job.value.pending == NoPending)
  {
  }

  // ---------------------------------------------------------------- timing

  /** The tail of a sequence of ticks is again one. */
  lemma TailPresent(es: seq<Event>)
    requires es != []
    ensures Present(es) ==> Present(es[1..])
    ensures Calm(es) ==> Calm(es[1..])
  {
    assert forall i | 0 <= i < |es[1..]| :: es[1..][i] == es[i + 1];
  }

  /** While a wait is pending, ticks only count it down, whatever else they report. */
  lemma {:induction false} WaitOnly(j: JobState, es: seq<Event>)
    requires Present(es) && |es| <= j.waitTicks
    ensures Run(Some(j), es) == Outcome(Some(j.(waitTicks := j.waitTicks - |es|)), [])
    decreases |es|
  {
    if es == [] {
      RunNil(Some(j));
    } else {
      var k := j.(waitTicks := j.waitTicks - 1);
      assert Step(Some(j), es[0]) == Outcome(Some(k), []);
      TailPresent(es);
      WaitOnly(k, es[1..]);
      RunCons(Some(j), es);
      assert k.(waitTicks := k.waitTicks - |es[1..]|) == j.(waitTicks := j.waitTicks - |es|);
    }
  }

  /** The job has left the arrival wait: it is at the //pos step, one tick away from sending it. */
  predicate Arrived(job: Option<JobState>, step: int) {
    job.Some? && job.value.step == step + 1 && job.value.waitTicks == TpToPosDelayTicks
  }

  /** The arrival wait ends within 120 ticks of the teleport, however far the player is. */
  lemma {:induction false} ArrivalWithin(j: JobState, es: seq<Event>)
    requires (j.step == 1 || j.step == 4) && j.waitTicks == 0 && 0 <= j.tpWaitTicks < TpTimeoutTicks
    requires Calm(es) && |es| >= TpTimeoutTicks - j.tpWaitTicks
    ensures exists i :: 0 < i <= TpTimeoutTicks - j.tpWaitTicks && Arrived(Run(Some(j), es[..i]).job, j.step)
    decreases TpTimeoutTicks - j.tpWaitTicks
  {
    var o := Step(Some(j), es[0]);
    RunOne(Some(j), es[..1]);
    if !Arrived(o.job, j.step) {
      var k := o.job.value;
      assert k == j.(tpWaitTicks := j.tpWaitTicks + 1);
      TailPresent(es);
      ArrivalWithin(k, es[1..]);
      var i :| 0 < i <= TpTimeoutTicks - k.tpWaitTicks && Arrived(Run(Some(k), es[1..][..i]).job, k.step);
      assert es[..i + 1][0] == es[0] && es[..i + 1][1..] == es[1..][..i];
      RunCons(Some(j), es[..i + 1]);
      assert Arrived(Run(Some(j), es[..i + 1]).job, j.step);
    }
  }

  /** `k` is the job `j` later on: same corners, block, operation and return position. */
  predicate Keeps(j: JobState, k: JobState) {
    k.pos1Target == j.pos1Target && k.pos2Target == j.pos2Target && k.blockId == j.blockId &&
    k.operation == j.operation && k.returnCoords == j.returnCoords
  }

  /** A confirmation still counting down with nothing reported in chat. */
  predicate Counting(j: JobState) {
    (j.step == 20 || j.step == 21) && j.waitTicks == 0 && !j.confirmOk && !j.confirmBad
  }

  /** Before the countdown is over, ticks only count it down. */
  lemma {:induction false} Countdown(j: JobState, es: seq<Event>)
    requires Counting(j) && Calm(es) && |es| < j.confirmTicksRemaining
    ensures Run(Some(j), es) == Outcome(Some(j.(confirmTicksRemaining := j.confirmTicksRemaining - |es|)), [])
    decreases |es|
  {
    if es == [] {
      RunNil(Some(j));
    } else {
      var k := j.(confirmTicksRemaining := j.confirmTicksRemaining - 1);
      assert TickConfirm(j) == Confirmation(false, k);
      assert Step(Some(j), es[0]) == Outcome(Some(k), []);
      TailPresent(es);
      Countdown(k, es[1..]);
      RunCons(Some(j), es);
      assert k.(confirmTicksRemaining := k.confirmTicksRemaining - |es[1..]|) ==
             j.(confirmTicksRemaining := j.confirmTicksRemaining - |es|);
    }
  }

  /** The step a corner continues at once confirmed: 3 after the first, 6 after the second. */
  function Confirmed(step: int): int {
    if step == 20 then 3 else 6
  }

  /** The last tick of a countdown: the position recorded at send time decides. */
  lemma LastCount(j: JobState, e: Event)
    requires Counting(j) && j.confirmTicksRemaining == 1 && e.TickEvent? && e.input.playerPresent && !e.input.fault
    ensures var r := Step(Some(j), e);
            var left := if j.step == 20 then j.retries1 else j.retries2;
            r.sent == [] &&
            (r.job.Some? && r.job.value.step == Confirmed(j.step) <==> j.playerBlockAtPosSend == Some(Expected(j))) &&
            (r.job.None? <==> j.playerBlockAtPosSend != Some(Expected(j)) && left <= 0) &&
            (r.job.Some? ==> Keeps(j, r.job.value)) &&
            (r.job.Some? && r.job.value.step == Confirmed(j.step) ==> r.job.value.waitTicks == StepDelayTicks)
  {
    var c := TickConfirm(j);
    assert c.ok <==> j.playerBlockAtPosSend == Some(Expected(j));
  }

  /**
   * With no chat confirmation, a confirm step resolves exactly when its countdown runs out:
   * it moves on if the player stood on the target when //pos was sent, and otherwise retries
   * the corner or, with no retries left, clears the job.
   */
  lemma ConfirmWithin(j: JobState, es: seq<Event>)
    requires Counting(j) && Calm(es) && 1 <= j.confirmTicksRemaining && |es| == j.confirmTicksRemaining
    ensures var r := Run(Some(j), es);
            var left := if j.step == 20 then j.retries1 else j.retries2;
            r.sent == [] &&
            (r.job.Some? && r.job.value.step == Confirmed(j.step) <==> j.playerBlockAtPosSend == Some(Expected(j))) &&
            (r.job.None? <==> j.playerBlockAtPosSend != Some(Expected(j)) && left <= 0) &&
            (r.job.Some? ==> Keeps(j, r.job.value)) &&
            (r.job.Some? && r.job.value.step == Confirmed(j.step) ==> r.job.value.waitTicks == StepDelayTicks)
  {
    var n := |es| - 1;
    assert es == es[..n] + es[n..];
    assert Calm(es[..n]) && Calm(es[n..]) by {
      forall i | 0 <= i < n ensures es[..n][i] == es[i] { }
      forall i | 0 <= i < |es[n..]| ensures es[n..][i] == es[n + i] { }
    }
    Countdown(j, es[..n]);
    RunAppend(Some(j), es[..n], es[n..]);
    var k := j.(confirmTicksRemaining := 1);
    RunOne(Some(k), es[n..]);
    LastCount(k, es[n]);
  }

  // ---------------------------------------------------------------- the success path

  /** The corner a teleport step (0 or 3) works on. */
  function Corner(j: JobState, first: bool): BlockPos {
    if first then j.pos1Target else j.pos2Target
  }

  /** A run of two events is their two steps. */
  lemma RunTwo(job: Option<JobState>, es: seq<Event>)
    requires |es| == 2
    ensures var o1 := Step(job, es[0]);
            var o2 := Step(o1.job, es[1]);
            Run(job, es) == Outcome(o2.job, o1.sent + o2.sent)
  {
    RunCons(job, es);
    RunOne(Step(job, es[0]).job, es[1..]);
  }

  /** The teleport to a corner and a steady arrival. */
  lemma Teleported(j: JobState, first: bool, es: seq<Event>)
    requires j.step == (if first then 0 else 3) && j.waitTicks == 0
    requires |es| == 2 && Steady(es, Corner(j, first))
    ensures var r := Run(Some(j), es);
            r.sent == [TpCenter(Corner(j, first))] && r.job.Some? && Keeps(j, r.job.value) &&
            r.job.value.step == (if first then 2 else 5) && r.job.value.waitTicks == TpToPosDelayTicks
  {
    RunTwo(Some(j), es);
  }

  /** The one-tick pause and the //pos command, which starts the countdown. */
  lemma PosSent(j: JobState, first: bool, es: seq<Event>)
    requires j.step == (if first then 2 else 5) && j.waitTicks == TpToPosDelayTicks
    requires |es| == 2 && Steady(es, Corner(j, first))
    ensures var r := Run(Some(j), es);
            r.sent == [if first then "//pos1" else "//pos2"] &&
            r.job.Some? && Keeps(j, r.job.value) && r.job.value.step == (if first then 20 else 21) &&
            Counting(r.job.value) && r.job.value.confirmTicksRemaining == PosConfirmTimeoutTicks &&
            r.job.value.pending == (if first then Pos1 else Pos2) &&
            r.job.value.playerBlockAtPosSend == Some(Corner(j, first))
  {
    RunTwo(Some(j), es);
  }

  /** The first four ticks of a corner: teleport, arrive, the one-tick pause, //pos. */
  lemma Approach(j: JobState, first: bool, es: seq<Event>)
    requires j.step == (if first then 0 else 3) && j.waitTicks == 0
    requires |es| == 4 && Steady(es, Corner(j, first))
    ensures var r := Run(Some(j), es);
            r.sent == [TpCenter(Corner(j, first)), if first then "//pos1" else "//pos2"] &&
            r.job.Some? && Keeps(j, r.job.value) && r.job.value.step == (if first then 20 else 21) &&
            Counting(r.job.value) && r.job.value.confirmTicksRemaining == PosConfirmTimeoutTicks &&
            r.job.value.pending == (if first then Pos1 else Pos2) &&
            r.job.value.playerBlockAtPosSend == Some(Corner(j, first))
  {
    var a, b := es[..2], es[2..];
    assert es == a + b;
    assert Steady(a, Corner(j, first)) && Steady(b, Corner(j, first)) by {
      forall i | 0 <= i < 2 ensures a[i] == es[i] && b[i] == es[2 + i] { }
    }
    Teleported(j, first, a);
    var j1 := Run(Some(j), a).job.value;
    assert Corner(j1, first) == Corner(j, first);
    PosSent(j1, first, b);
    RunAppend(Some(j), a, b);
  }

  /** One advancing tick and then the wait it sets: the job ends up ready for its next step. */
  lemma TickThenWait(j: JobState, es: seq<Event>)
    requires es != [] && Calm(es) && j.waitTicks <= 0
    requires Step(Some(j), es[0]).job.Some? && |es| - 1 == Step(Some(j), es[0]).job.value.waitTicks
    ensures var o := Step(Some(j), es[0]);
            Run(Some(j), es) == Outcome(Some(o.job.value.(waitTicks := 0)), o.sent)
  {
    var o := Step(Some(j), es[0]);
    TailPresent(es);
    WaitOnly(o.job.value, es[1..]);
    RunCons(Some(j), es);
  }

  /** A whole corner, 54 steady ticks: teleport, //pos, the 40-tick confirmation and the 10-tick pause. */
  lemma CornerDone(j: JobState, first: bool, es: seq<Event>)
    requires j.step == (if first then 0 else 3) && j.waitTicks == 0
    requires |es| == 54 && Steady(es, Corner(j, first))
    ensures var r := Run(Some(j), es);
            r.sent == [TpCenter(Corner(j, first)), if first then "//pos1" else "//pos2"] &&
            r.job.Some? && Keeps(j, r.job.value) && r.job.value.step == (if first then 3 else 6) &&
            r.job.value.waitTicks == 0
  {
    var a, b, c := es[..4], es[4..44], es[44..];
    assert es == a + b + c;
    assert Steady(a, Corner(j, first)) && Steady(b, Corner(j, first)) && Steady(c, Corner(j, first)) by {
      forall i | 0 <= i < 4 ensures a[i] == es[i] { }
      forall i | 0 <= i < 40 ensures b[i] == es[4 + i] { }
      forall i | 0 <= i < 10 ensures c[i] == es[44 + i] { }
    }
    Approach(j, first, a);
    var j1 := Run(Some(j), a).job.value;
    ConfirmWithin(j1, b);
    var j2 := Run(Some(j1), b).job.value;
    WaitOnly(j2, c);
    RunAppend(Some(j), a, b);
    RunAppend(Some(j), a + b, c);
  }

  /** The edit command and the return teleport, each followed by its pause: 26 steady ticks. */
  lemma EditAndReturn(j: JobState, es: seq<Event>)
    requires j.step == 6 && j.waitTicks == 0 && |es| == 26 && Calm(es)
    ensures Run(Some(j), es) == Outcome(Some(j.(step := 8, waitTicks := 0)), [EditCommand(j), "/tp " + j.returnCoords])
  {
    var p, q := es[..11], es[11..];
    assert es == p + q;
    assert Calm(p) && Calm(q) by {
      forall i | 0 <= i < 11 ensures p[i] == es[i] { }
      forall i | 0 <= i < 15 ensures q[i] == es[11 + i] { }
    }
    TickThenWait(j, p);
    TickThenWait(j.(step := 7, waitTicks := 0), q);
    RunAppend(Some(j), p, q);
  }

  /** //desel, its pause, and the end of the job: 16 steady ticks. */
  lemma Deselect(j: JobState, es: seq<Event>)
    requires j.step == 8 && j.waitTicks == 0 && |es| == 16 && Calm(es)
    ensures Run(Some(j), es) == Outcome(None, ["//desel"])
  {
    var r, t := es[..15], es[15..];
    assert es == r + t;
    assert Calm(r) && Calm(t) by {
      forall i | 0 <= i < 15 ensures r[i] == es[i] { }
      assert t[0] == es[15];
    }
    TickThenWait(j, r);
    RunOne(Some(j.(step := 9, waitTicks := 0)), t);
    RunAppend(Some(j), r, t);
  }

  /** The last 42 steady ticks: the edit, the return teleport, //desel, and the end of the job. */
  lemma Finish(j: JobState, b: BlockPos, es: seq<Event>)
    requires j.step == 6 && j.waitTicks == 0
    requires |es| == 42 && Steady(es, b)
    ensures Run(Some(j), es) == Outcome(None, [EditCommand(j), "/tp " + j.returnCoords, "//desel"])
  {
    var p, q := es[..26], es[26..];
    assert es == p + q;
    assert Calm(p) && Calm(q) by {
      forall i | 0 <= i < 26 ensures p[i] == es[i] { }
      forall i | 0 <= i < 16 ensures q[i] == es[26 + i] { }
    }
    EditAndReturn(j, p);
    Deselect(j.(step := 8, waitTicks := 0), q);
    RunAppend(Some(j), p, q);
  }

  /** `n` steady ticks on block `b`. */
  function SteadyTicks(b: BlockPos, n: nat): (es: seq<Event>)
    ensures |es| == n && Steady(es, b)
  {
    seq(n, _ => TickEvent(TickInput(true, true, b, false)))
  }

  /**
   * The success path: with the player arriving at once and standing on each corner when its
   * //pos is sent, and no confirmation in chat, a new job sends the teleport, //pos1, the
   * teleport, //pos2, the edit, the return teleport and //desel, in that order, and is cleared
   * after 54 + 54 + 42 ticks.
   */
  lemma SuccessPath(pos1: BlockPos, pos2: BlockPos, blockId: string, op: Operation, ret: string)
    ensures Run(Some(NewJob(pos1, pos2, blockId, op, ret)),
                SteadyTicks(pos1, 54) + SteadyTicks(pos2, 54) + SteadyTicks(pos2, 42)) ==
            Outcome(None, [TpCenter(pos1), "//pos1", TpCenter(pos2), "//pos2",
                           if op == Fill then "//fill " + blockId else "//set " + blockId,
                           "/tp " + ret, "//desel"])
  {
    var j := NewJob(pos1, pos2, blockId, op, ret);
    var a, b, c := SteadyTicks(pos1, 54), SteadyTicks(pos2, 54), SteadyTicks(pos2, 42);
    CornerDone(j, true, a);
    var j1 := Run(Some(j), a).job.value;
    CornerDone(j1, false, b);
    var j2 := Run(Some(j1), b).job.value;
    Finish(j2, pos2, c);
    RunAppend(Some(j), a, b);
    RunAppend(Some(j), a + b, c);
  }

  /** A step `advance` does not know clears the job and sends nothing. */
  lemma UnknownStepClears(j: JobState, t: TickInput)
    requires !KnownStep(j.step) && j.waitTicks <= 0 && t.playerPresent
    ensures Tick(Some(j), t) == Outcome(None, [])
  {
  }
}
