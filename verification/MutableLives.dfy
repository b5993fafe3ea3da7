/** Polls of the mutable owner are sequences of its steps, and what its lives merge is what the protocol admits. */
module MutableLives {
  import opened Common
  import opened GroupedStreams
  import opened Retry
  import opened MutableStreams
  import opened MutableOwner
  import M = MutableExecution
  import T = TcpExecution

  // ---- One poll ----

  /** What the world does during one poll. */
  datatype MutablePoll<+R> = MutablePoll(
    now: Time, connects: nat -> T.Connect, runs: nat -> LocalRun<R>, answers: nat -> M.Answers, first: Publication,
    pollFails: bool, later: Time, drives: nat -> RemoteDrive<R>, driveAnswers: nat -> M.Answers, second: Publication)

  function StartOf<R>(p: MutablePoll<R>, i: nat): Step<R> {
    Start(i, p.now, p.connects(i), p.runs(i), p.answers(i))
  }

  function DriveOf<R>(p: MutablePoll<R>, i: nat): Step<R> {
    Drive(i, p.later, p.drives(i), p.driveAnswers(i))
  }

  predicate Expired(authority: Authority, now: Time) {
    authority.deadline.Some? && authority.deadline.value <= now
  }

  /** One step after another, up to the first one that ends the run. */
  function WhileRunning<R(==)>(x: State<R>, steps: seq<Step<R>>): (y: State<R>)
    requires Valid(x) && FairRun(steps)
    ensures Valid(y) && y.authority == x.authority
    decreases |steps|
  {
    if steps == [] || x.status != T.Running then x
    else
      AdvanceKeepsValid(x, steps[0]);
      WhileRunning(Advance(x, steps[0]), steps[1..])
  }

  lemma {:induction false} WhileRunningNeverCancels<R>(x: State<R>, steps: seq<Step<R>>)
    requires Valid(x) && FairRun(steps)
    requires forall k :: 0 <= k < |steps| ==> steps[k].Start? || steps[k].Drive?
    ensures x.status != T.WasCancelled ==> WhileRunning(x, steps).status != T.WasCancelled
    decreases |steps|
  {
    if steps != [] && x.status == T.Running {
      AdvanceKeepsValid(x, steps[0]);
      NeverCancels(x, steps[0]);
      WhileRunningNeverCancels(Advance(x, steps[0]), steps[1..]);
    }
  }

  lemma NeverCancels<R>(x: State<R>, step: Step<R>)
    requires Valid(x) && Fair(step) && x.status != T.WasCancelled && (step.Start? || step.Drive? || step.Publish?)
    ensures Advance(x, step).status != T.WasCancelled
  {
  }

  function Starts<R>(p: MutablePoll<R>, n: nat): (steps: seq<Step<R>>)
    ensures AllOfPoll(steps)
  {
    seq(n, i requires 0 <= i < n => StartOf(p, i))
  }

  function Drives<R>(p: MutablePoll<R>, n: nat): (steps: seq<Step<R>>)
    ensures AllOfPoll(steps)
  {
    seq(n, i requires 0 <= i < n => DriveOf(p, i))
  }

  predicate OfPoll<R>(step: Step<R>) {
    !step.Replace? && (step.End? ==> step.status == T.HasFailed || step.status == T.WasCancelled)
  }

  predicate AllOfPoll<R>(steps: seq<Step<R>>) {
    forall k :: 0 <= k < |steps| ==> OfPoll(steps[k])
  }

  lemma OfPollIsFair<R>(steps: seq<Step<R>>)
    requires AllOfPoll(steps)
    ensures FairRun(steps)
  {
    forall k | 0 <= k < |steps|
      ensures Fair(steps[k])
    {
      assert OfPoll(steps[k]);
    }
  }

  /** Starts slot after slot. */
  function StartAll<R(==)>(x: State<R>, p: MutablePoll<R>): (y: State<R>)
    requires Valid(x)
    ensures Valid(y) && y.authority == x.authority && (x.status == T.Running ==> y.status != T.WasCancelled)
  {
    OfPollIsFair(Starts(p, |x.clients|));
    WhileRunningNeverCancels(x, Starts(p, |x.clients|));
    WhileRunning(x, Starts(p, |x.clients|))
  }

  /** Drives slot after slot. */
  function DriveAll<R(==)>(x: State<R>, p: MutablePoll<R>): (y: State<R>)
    requires Valid(x)
    ensures Valid(y) && y.authority == x.authority && (x.status == T.Running ==> y.status != T.WasCancelled)
  {
    OfPollIsFair(Drives(p, |x.clients|));
    WhileRunningNeverCancels(x, Drives(p, |x.clients|));
    WhileRunning(x, Drives(p, |x.clients|))
  }

  function Published<R(==)>(x: State<R>, p: Publication): (y: State<R>)
    requires Valid(x)
    ensures Valid(y) && y.authority == x.authority && (y.status == T.WasCancelled ==> x.status == T.WasCancelled)
  {
    AdvanceKeepsValid(x, Publish(p));
    Advance(x, Publish(p))
  }

  function Ended<R(==)>(x: State<R>, status: T.Status, code: FailureCode): (y: State<R>)
    requires Valid(x) && (status == T.HasFailed || status == T.WasCancelled)
    ensures Valid(y) && (x.status == T.Running ==> y == Stopped(x, status, code))
  {
    AdvanceKeepsValid(x, End(status, code));
    Advance(x, End(status, code))
  }

  /** Once nothing is terminal: wait, look at the deadline again, drive whatever is ready, and publish. */
  function WaitAndDrive<R(==)>(x: State<R>, p: MutablePoll<R>): State<R>
    requires Valid(x)
  {
    if p.pollFails then Ended(x, T.HasFailed, IoError)
    else if Expired(x.authority, p.later) then Ended(x, T.WasCancelled, Cancelled)
    else Published(DriveAll(x, p), p.second)
  }

  function PollOnce<R(==)>(x: State<R>, p: MutablePoll<R>): State<R>
    requires Valid(x)
  {
    if x.status != T.Running then x
    else if Expired(x.authority, p.now) then Ended(x, T.WasCancelled, Cancelled)
    else
      var y := Published(StartAll(x, p), p.first);
      if y.status == T.Running then WaitAndDrive(y, p) else y
  }

  // ---- A poll is a sequence of steps ----

  function Ending<R>(x: State<R>, p: MutablePoll<R>): (steps: seq<Step<R>>)
    ensures AllOfPoll(steps)
  {
    if p.pollFails then [End(T.HasFailed, IoError)]
    else if Expired(x.authority, p.later) then [End(T.WasCancelled, Cancelled)]
    else Drives(p, |x.clients|) + [Publish(p.second)]
  }

  /** The steps of one poll, in order. */
  function PollSteps<R>(x: State<R>, p: MutablePoll<R>): seq<Step<R>> {
    if Expired(x.authority, p.now) then [End(T.WasCancelled, Cancelled)]
    else Starts(p, |x.clients|) + ([Publish(p.first)] + Ending(x, p))
  }

  lemma AdvanceEnded<R>(x: State<R>, step: Step<R>)
    requires Valid(x) && Fair(step) && OfPoll(step) && x.status != T.Running
    ensures Advance(x, step) == x
  {
  }

  /** The steps of a poll do nothing to an owner that has ended. */
  lemma {:induction false} EndedStays<R>(x: State<R>, steps: seq<Step<R>>)
    requires Valid(x) && FairRun(steps) && AllOfPoll(steps) && x.status != T.Running
    ensures Life(x, steps) == x
    decreases |steps|
  {
    if steps == [] {
    } else {
      AdvanceEnded(x, steps[0]);
      EndedStays(x, steps[1..]);
    }
  }

  /** So stopping at the first step that ends the run is going on to the last one. */
  lemma {:induction false} WhileRunningIsLife<R>(x: State<R>, steps: seq<Step<R>>)
    requires Valid(x) && FairRun(steps) && AllOfPoll(steps)
    ensures WhileRunning(x, steps) == Life(x, steps)
    decreases |steps|
  {
    if x.status != T.Running {
      EndedStays(x, steps);
    } else if steps != [] {
      AdvanceKeepsValid(x, steps[0]);
      WhileRunningIsLife(Advance(x, steps[0]), steps[1..]);
    }
  }

  lemma {:induction false} LifeAppends<R>(x: State<R>, a: seq<Step<R>>, b: seq<Step<R>>)
    requires Valid(x) && FairRun(a) && FairRun(b)
    ensures FairRun(a + b) && Life(x, a + b) == Life(Life(x, a), b)
    decreases |a|
  {
    if a == [] {
      assert a + b == b;
    } else {
      assert (a + b)[1..] == a[1..] + b;
      AdvanceKeepsValid(x, a[0]);
      LifeAppends(Advance(x, a[0]), a[1..], b);
    }
  }

  lemma LifeOfOne<R>(x: State<R>, step: Step<R>)
    requires Valid(x) && Fair(step)
    ensures FairRun([step]) && Life(x, [step]) == Advance(x, step)
  {
    AdvanceKeepsValid(x, step);
    assert [step][1..] == [];
  }

  lemma WaitIsLife<R>(x: State<R>, p: MutablePoll<R>)
    requires Valid(x)
    ensures FairRun(Ending(x, p)) && Life(x, Ending(x, p)) == WaitAndDrive(x, p)
  {
    if p.pollFails {
      LifeOfOne(x, End(T.HasFailed, IoError));
    } else if Expired(x.authority, p.later) {
      LifeOfOne(x, End(T.WasCancelled, Cancelled));
    } else {
      OfPollIsFair(Drives(p, |x.clients|));
      WhileRunningIsLife(x, Drives(p, |x.clients|));
      LifeOfOne(DriveAll(x, p), Publish(p.second));
      LifeAppends(x, Drives(p, |x.clients|), [Publish(p.second)]);
    }
  }

  /** A life keeps the number of slots: they are the tablets of the authority. */
  lemma SameSlots<R>(x: State<R>, y: State<R>)
    requires Valid(x) && Valid(y) && y.authority == x.authority
    ensures |y.clients| == |x.clients|
  {
  }

  /** From the first publication of a poll to its end. */
  lemma RestIsLife<R>(x: State<R>, p: MutablePoll<R>)
    requires Valid(x)
    ensures
      var y, rest := Published(x, p.first), [Publish(p.first)] + Ending(x, p);
      FairRun(rest) && Life(x, rest) == if y.status == T.Running then WaitAndDrive(y, p) else y
  {
    var y := Published(x, p.first);
    SameSlots(x, y);
    assert Ending(x, p) == Ending(y, p);
    WaitIsLife(y, p);
    if y.status != T.Running {
      EndedStays(y, Ending(y, p));
    }
    LifeOfOne(x, Publish(p.first));
    LifeAppends(x, [Publish(p.first)], Ending(y, p));
  }

  /** One poll of a running owner is the life of its steps, so whatever holds of every life holds of every poll. */
  lemma PollIsLife<R>(x: State<R>, p: MutablePoll<R>)
    requires Valid(x) && x.status == T.Running
    ensures FairRun(PollSteps(x, p)) && Life(x, PollSteps(x, p)) == PollOnce(x, p)
  {
    if Expired(x.authority, p.now) {
      LifeOfOne(x, End(T.WasCancelled, Cancelled));
    } else {
      var y := StartAll(x, p);
      OfPollIsFair(Starts(p, |x.clients|));
      WhileRunningIsLife(x, Starts(p, |x.clients|));
      SameSlots(x, y);
      assert Ending(x, p) == Ending(y, p);
      RestIsLife(y, p);
      LifeAppends(x, Starts(p, |x.clients|), [Publish(p.first)] + Ending(y, p));
    }
  }

  // ---- Deadlines ----

  /** The owner once its due attempts are started and what is terminal is published. */
  function Begun<R(==)>(x: State<R>, p: MutablePoll<R>): (y: State<R>)
    requires Valid(x) && x.status == T.Running
    ensures Valid(y) && y.authority == x.authority && y.status != T.WasCancelled
  {
    Published(StartAll(x, p), p.first)
  }

  /**
   A poll cancels exactly at the deadline, which it looks up before it starts anything and again once the
   wait is over; one that leaves the owner running saw the deadline twice ahead.
   */
  lemma PollCancelsExactly<R>(x: State<R>, p: MutablePoll<R>)
    requires Valid(x) && x.status == T.Running
    ensures x.authority.deadline.Some? && x.authority.deadline.value <= p.now ==>
      PollOnce(x, p) == Stopped(x, T.WasCancelled, Cancelled)
    ensures PollOnce(x, p).status == T.WasCancelled <==>
      && x.authority.deadline.Some?
      && (x.authority.deadline.value <= p.now ||
          (x.authority.deadline.value <= p.later && !p.pollFails && Begun(x, p).status == T.Running))
    ensures PollOnce(x, p).status == T.Running ==>
      && !p.pollFails && Begun(x, p).status == T.Running
      && (x.authority.deadline.Some? ==> p.now < x.authority.deadline.value && p.later < x.authority.deadline.value)
  {
    var y := Begun(x, p);
    PollCases(x, p, y);
    if y.status == T.Running {
      WaitCancels(y, p);
    }
  }

  lemma WaitCancels<R>(x: State<R>, p: MutablePoll<R>)
    requires Valid(x) && x.status == T.Running
    ensures WaitAndDrive(x, p).status == T.WasCancelled <==>
      !p.pollFails && x.authority.deadline.Some? && x.authority.deadline.value <= p.later
    ensures WaitAndDrive(x, p).status == T.Running ==>
      !p.pollFails && (x.authority.deadline.Some? ==> p.later < x.authority.deadline.value)
  {
  }

  lemma PollCases<R>(x: State<R>, p: MutablePoll<R>, y: State<R>)
    requires Valid(x) && x.status == T.Running && y == Begun(x, p)
    ensures PollOnce(x, p) ==
      if x.authority.deadline.Some? && x.authority.deadline.value <= p.now then Stopped(x, T.WasCancelled, Cancelled)
      else if y.status == T.Running then WaitAndDrive(y, p) else y
  {
  }

  // ---- What a life merges ----

  /** Every delivered verdict in these steps passed `vouch` for the tablet of its slot. */
  ghost predicate VouchedStep<R(!new)>(tablets: seq<Uuid>, step: Step<R>, vouch: (Uuid, seq<R>) -> bool) {
    match step
    case Start(i, _, _, run, _) =>
      run.WorkerAnswered? && run.verdict.Delivered? && i < |tablets| ==> vouch(tablets[i], run.verdict.result)
    case Drive(i, _, drive, _) =>
      drive.Finished? && drive.verdict.Delivered? && i < |tablets| ==> vouch(tablets[i], drive.verdict.result)
    case Replace(r) => M.Vouched(r.execution, vouch)
    case _ => true
  }

  lemma LocalVouched<R(!new)>(
    e: M.State<R>, i: nat, run: LocalRun<R>, now: Time, answers: M.Answers, vouch: (Uuid, seq<R>) -> bool)
    requires i < |e.slots| && M.Usable(e.slots[i], e.sourcesTaken) && M.Vouched(e, vouch)
    requires run.WorkerAnswered? && run.verdict.Delivered? ==> vouch(e.slots[i].tablet, run.verdict.result)
    ensures M.Vouched(LocalStep(e, i, run, now, answers).1, vouch)
  {
    match run
    case WorkerFailed(code) => M.FailVouched(e, i, code, now, answers, vouch);
    case WorkerAnswered(verdict) => M.RespondVouched(e, i, verdict, now, answers, vouch);
  }

  lemma StartVouched<R(!new)>(
    x: State<R>, i: nat, now: Time, connect: T.Connect, run: LocalRun<R>, answers: M.Answers,
    vouch: (Uuid, seq<R>) -> bool)
    requires Runnable(x) && i < |x.clients| && !x.execution.sourcesTaken && M.Vouched(x.execution, vouch)
    requires run.WorkerAnswered? && run.verdict.Delivered? ==> vouch(x.execution.slots[i].tablet, run.verdict.result)
    ensures M.Vouched(StartSlot(x, i, now, connect, run, answers).1.execution, vouch)
  {
    M.BeginVouched(x.execution, i, now, vouch);
    BegunUsable(x.execution, i, now);
    var f := M.BeginSlot(x.execution, i, now).1;
    if x.local[i] {
      LocalVouched(f, i, run, now, answers, vouch);
    } else if connect.Refused? {
      M.FailVouched(f, i, connect.code, now, answers, vouch);
    }
  }

  lemma DriveVouched<R(!new)>(
    x: State<R>, i: nat, later: Time, drive: RemoteDrive<R>, answers: M.Answers,
    vouch: (Uuid, seq<R>) -> bool)
    requires Runnable(x) && i < |x.clients| && M.Vouched(x.execution, vouch)
    requires drive.Finished? && drive.verdict.Delivered? ==> vouch(x.execution.slots[i].tablet, drive.verdict.result)
    ensures M.Vouched(DriveSlot(x, i, later, drive, answers).1.execution, vouch)
  {
    match drive
    case HungUp => M.FailVouched(x.execution, i, IoError, later, answers, vouch);
    case Broke(code) => M.FailVouched(x.execution, i, code, later, answers, vouch);
    case Finished(verdict) => M.RespondVouched(x.execution, i, verdict, later, answers, vouch);
    case _ =>
  }

  lemma PublishVouched<R(!new)>(x: State<R>, p: Publication, vouch: (Uuid, seq<R>) -> bool)
    requires M.Vouched(x.execution, vouch)
    ensures M.Vouched(PublishNow(x, p).execution, vouch)
  {
    var y := PublishNow(x, p);
    assert |y.execution.slots| == |x.execution.slots|;
    forall i | 0 <= i < |y.execution.slots|
      ensures M.VouchedSlot(y.execution.slots[i], vouch)
    {
      assert M.VouchedSlot(x.execution.slots[i], vouch);
    }
  }

  lemma AdvanceVouched<R(!new)>(x: State<R>, step: Step<R>, vouch: (Uuid, seq<R>) -> bool)
    requires Valid(x) && Fair(step) && M.Vouched(x.execution, vouch) && VouchedStep(x.authority.tablets, step, vouch)
    ensures M.Vouched(Advance(x, step).execution, vouch)
  {
    ValidRunnable(x);
    match step
    case Start(i, now, connect, run, answers) =>
      if x.status == T.Running && i < |x.clients| {
        StartVouched(x, i, now, connect, run, answers, vouch);
      }
    case Drive(i, later, drive, answers) =>
      if x.status == T.Running && i < |x.clients| {
        DriveVouched(x, i, later, drive, answers, vouch);
      }
    case Publish(p) => PublishVouched(x, p, vouch);
    case _ =>
  }

  lemma {:induction false} LifeVouched<R(!new)>(
    x: State<R>, steps: seq<Step<R>>, vouch: (Uuid, seq<R>) -> bool)
    requires Valid(x) && FairRun(steps) && M.Vouched(x.execution, vouch)
    requires forall k :: 0 <= k < |steps| ==> VouchedStep(x.authority.tablets, steps[k], vouch)
    ensures M.Vouched(Life(x, steps).execution, vouch)
    decreases |steps|
  {
    if steps == [] {
    } else {
      AdvanceKeepsValid(x, steps[0]);
      AdvanceVouched(x, steps[0], vouch);
      LifeVouched(Advance(x, steps[0]), steps[1..], vouch);
    }
  }

  /** The vectors the servers may send for a tablet, with no hint and under its own query and tablet. */
  function AdmittedFor(limits: StreamLimits, identity: Uuid -> Identity): (Uuid, seq<Reply>) -> bool {
    (tablet: Uuid, rs: seq<Reply>) =>
      Admits(limits, identity(tablet), rs) && forall i :: 0 <= i < |rs| ==> OwnPosition(identity(tablet), rs[i])
  }

  /** A verdict is what the sender makes of some reply vector. */
  ghost predicate IsJudged(limits: StreamLimits, id: Identity, verdict: Verdict<seq<Reply>>) {
    exists rs :: verdict == JudgeReplies(limits, id, rs)
  }

  lemma JudgedIsAdmitted(limits: StreamLimits, id: Identity, verdict: Verdict<seq<Reply>>)
    requires IsJudged(limits, id, verdict) && verdict.Delivered?
    ensures Admits(limits, id, verdict.result)
    ensures forall i :: 0 <= i < |verdict.result| ==> OwnPosition(id, verdict.result[i])
  {
    var rs :| verdict == JudgeReplies(limits, id, rs);
    SenderIsBatch(limits, id, rs);
  }

  /** Every verdict in these steps was reached by the sender of its tablet. */
  ghost predicate JudgedStep(limits: StreamLimits, identity: Uuid -> Identity, tablets: seq<Uuid>, step: Step<Reply>) {
    match step
    case Start(i, _, _, run, _) => run.WorkerAnswered? && i < |tablets| ==> IsJudged(limits, identity(tablets[i]), run.verdict)
    case Drive(i, _, drive, _) => drive.Finished? && i < |tablets| ==> IsJudged(limits, identity(tablets[i]), drive.verdict)
    case Replace(r) => M.Vouched(r.execution, AdmittedFor(limits, identity))
    case _ => true
  }

  lemma JudgedIsVouched(limits: StreamLimits, identity: Uuid -> Identity, tablets: seq<Uuid>, step: Step<Reply>)
    requires JudgedStep(limits, identity, tablets, step)
    ensures VouchedStep(tablets, step, AdmittedFor(limits, identity))
  {
    match step
    case Start(i, _, _, run, _) =>
      if run.WorkerAnswered? && run.verdict.Delivered? && i < |tablets| {
        JudgedIsAdmitted(limits, identity(tablets[i]), run.verdict);
      }
    case Drive(i, _, drive, _) =>
      if drive.Finished? && drive.verdict.Delivered? && i < |tablets| {
        JudgedIsAdmitted(limits, identity(tablets[i]), drive.verdict);
      }
    case _ =>
  }

  /**
   A completed life has merged, for every tablet, one whole vector that the servers' batch check admits
   for it: groups in order from the first to the last, or one empty result.
   */
  lemma CompletedLifeMergesAdmitted(
    x: State<Reply>, steps: seq<Step<Reply>>, limits: StreamLimits, identity: Uuid -> Identity, i: nat)
    requires Valid(x) && FairRun(steps) && M.Vouched(x.execution, AdmittedFor(limits, identity))
    requires forall k :: 0 <= k < |steps| ==> JudgedStep(limits, identity, x.authority.tablets, steps[k])
    requires Life(x, steps).status == T.AllComplete && i < |Life(x, steps).execution.slots|
    ensures
      var slot := Life(x, steps).execution.slots[i];
      slot.resultDelivered && Admits(limits, identity(slot.tablet), slot.merged)
  {
    forall k | 0 <= k < |steps|
      ensures VouchedStep(x.authority.tablets, steps[k], AdmittedFor(limits, identity))
    {
      JudgedIsVouched(limits, identity, x.authority.tablets, steps[k]);
    }
    LifeVouched(x, steps, AdmittedFor(limits, identity));
    LifeIsSound(x, steps, i);
    assert M.VouchedSlot(Life(x, steps).execution.slots[i], AdmittedFor(limits, identity));
  }
}
