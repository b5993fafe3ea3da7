/** The mutable grouped execution: ready, failed and sources-transferred latches over one sender per tablet. */
module MutableExecution {
  import opened Common
  import opened GroupedStreams
  import opened Retry

  /** `merged` is what the coordinator took of this tablet's result. */
  datatype Slot<+R> = Slot(
    tablet: Uuid, sender: Sender<seq<R>>, resultDelivered: bool, failureDelivered: bool, merged: seq<R>)

  datatype State<+R> = State(slots: seq<Slot<R>>, ready: bool, failure: Option<FailureCode>, sourcesTaken: bool)

  /** What decoding and merging answer for each frame of a result, and what a failure report answers. */
  datatype Answers = Answers(frames: nat -> StatusCode, report: StatusCode)

  // ---- Publishing ----

  /** The first frame from `k` on that is not merged, or `n`. */
  function FirstRefused(answers: Answers, k: nat, n: nat): (r: nat)
    requires k <= n
    ensures k <= r <= n
    ensures forall j :: k <= j < r ==> answers.frames(j) == Ok
    ensures r < n ==> answers.frames(r) != Ok
    decreases n - k
  {
    if k == n || answers.frames(k) != Ok then k else FirstRefused(answers, k + 1, n)
  }

  /** The answer, which is also the failure to latch, and the slot. */
  function Publish<R>(slot: Slot<R>, answers: Answers): (StatusCode, Slot<R>)
    requires slot.sender.phase == Succeeded ==> slot.sender.result.Some?
  {
    if slot.sender.phase == Succeeded && !slot.resultDelivered then
      var frames := slot.sender.result.value;
      var k := FirstRefused(answers, 0, |frames|);
      if k < |frames| then (answers.frames(k), slot.(failureDelivered := true, merged := frames[..k]))
      else (Ok, slot.(resultDelivered := true, merged := frames))
    else if slot.sender.phase == Exhausted && !slot.failureDelivered then
      (if answers.report == Ok then slot.sender.lastStatus.GetOr(Internal) else answers.report,
       slot.(failureDelivered := true))
    else (Ok, slot)
  }

  /** After an event: an error goes straight back; a failure found while publishing is latched. */
  function Settle<R>(x: State<R>, i: nat, taken: (StatusCode, Sender<seq<R>>), answers: Answers): (StatusCode, State<R>)
    requires i < |x.slots| && (taken.0 == Ok && taken.1.phase == Succeeded ==> taken.1.result.Some?)
  {
    if taken.0 != Ok then (taken.0, x.(slots := x.slots[i := x.slots[i].(sender := taken.1)]))
    else
      var (code, slot) := Publish(x.slots[i].(sender := taken.1), answers);
      (code, x.(slots := x.slots[i := slot], failure := if code == Ok then x.failure else Some(code)))
  }

  // ---- Operations ----

  predicate Sealed<R>(x: State<R>) {
    x.ready || x.failure.Some?
  }

  function SealedAnswer<R>(x: State<R>): StatusCode {
    x.failure.GetOr(InvalidArgument)
  }

  function BeginSlot<R>(x: State<R>, i: nat, now: Time): (StatusCode, State<R>)
    requires i < |x.slots| && (x.slots[i].sender.phase == Backoff ==> x.slots[i].sender.notBefore.Some?)
  {
    if Sealed(x) then (InvalidArgument, x)
    else
      var (r, sender) := Begin(x.slots[i].sender, now);
      (if r.Success? then Ok else r.code, x.(slots := x.slots[i := x.slots[i].(sender := sender)]))
  }

  function RespondSlot<R>(x: State<R>, i: nat, verdict: Verdict<seq<R>>, now: Time, answers: Answers): (StatusCode, State<R>)
    requires i < |x.slots| && Usable(x.slots[i], x.sourcesTaken)
  {
    if Sealed(x) then (SealedAnswer(x), x)
    else
      TakenIsUsable(x, i, ResolveAt(verdict, now));
      Settle(x, i, Resolve(x.slots[i].sender, verdict, now), answers)
  }

  function FailSlot<R>(x: State<R>, i: nat, code: StatusCode, now: Time, answers: Answers): (StatusCode, State<R>)
    requires i < |x.slots| && Usable(x.slots[i], x.sourcesTaken)
  {
    if Sealed(x) then (SealedAnswer(x), x)
    else
      TakenIsUsable(x, i, FailAt(code, now));
      Settle(x, i, TransportFailed(x.slots[i].sender, code, now), answers)
  }

  /** Seals the execution once every tablet's result was delivered and the coordinator agrees. */
  function Finish<R>(x: State<R>, answer: StatusCode): (StatusCode, State<R>) {
    if x.ready || x.sourcesTaken then (InvalidArgument, x)
    else if x.failure.Some? then (x.failure.value, x)
    else if exists i :: 0 <= i < |x.slots| && (x.slots[i].sender.phase != Succeeded || !x.slots[i].resultDelivered) then
      (Unavailable, x)
    else if answer != Ok then (answer, x)
    else (Ok, x.(ready := true))
  }

  /** Moves every result out, if all are there. */
  function TakeSources<R>(x: State<R>): (Result<seq<seq<R>>>, State<R>) {
    if x.ready || x.sourcesTaken then (Failure(InvalidArgument), x)
    else if x.failure.Some? then (Failure(x.failure.value), x)
    else if exists i :: 0 <= i < |x.slots| && (x.slots[i].sender.phase != Succeeded || x.slots[i].sender.result.None?) then
      (Failure(Unavailable), x)
    else
      (Success(seq(|x.slots|, i requires 0 <= i < |x.slots| => x.slots[i].sender.result.GetOr([]))),
       x.(sourcesTaken := true,
          slots := seq(|x.slots|, i requires 0 <= i < |x.slots| =>
            x.slots[i].(sender := x.slots[i].sender.(result := None)))))
  }

  // ---- The invariant ----

  /** The slot's sender, with the result it had before its sources were moved out. */
  function Original<R>(slot: Slot<R>, taken: bool): Sender<seq<R>> {
    if taken then slot.sender.(result := Some(slot.merged)) else slot.sender
  }

  /** A slot whose sender can still be driven, or whose result, now merged, was moved out for good. */
  predicate Usable<R>(slot: Slot<R>, taken: bool) {
    Retry.Sound(Original(slot, taken))
  }

  lemma TakenIsUsable<R>(x: State<R>, i: nat, e: Event<seq<R>>)
    requires i < |x.slots| && Usable(x.slots[i], x.sourcesTaken)
    ensures !x.sourcesTaken ==> Retry.Sound(x.slots[i].sender) && Retry.Sound(Apply(x.slots[i].sender, e).1)
    ensures x.sourcesTaken ==> x.slots[i].sender.phase == Succeeded
    ensures x.slots[i].sender.nextBackoff <= MAX_BACKOFF_MS
  {
    if !x.sourcesTaken {
      ApplyKeepsSound(x.slots[i].sender, e);
    }
  }

  /** What a slot's flags say about its sender and about what the coordinator took. */
  predicate Flagged<R(==)>(slot: Slot<R>, taken: bool) {
    && Usable(slot, taken)
    && (Live(slot.sender.phase) ==> !slot.resultDelivered && !slot.failureDelivered && slot.merged == [])
    && (slot.sender.phase == Succeeded ==> slot.resultDelivered != slot.failureDelivered)
    && (slot.sender.phase == Exhausted ==> !slot.resultDelivered && slot.failureDelivered)
    && (slot.resultDelivered && !taken ==> slot.sender.result == Some(slot.merged))
  }

  /**
   A failure is latched exactly when some slot delivered one, at most one slot ever does, and ready,
   failed and transferred exclude one another.
   */
  predicate Latched<R(==)>(x: State<R>) {
    && (forall i :: 0 <= i < |x.slots| ==> Flagged(x.slots[i], x.sourcesTaken))
    && (x.failure.Some? <==> exists i :: 0 <= i < |x.slots| && x.slots[i].failureDelivered)
    && (forall i, j :: 0 <= i < j < |x.slots| ==> !x.slots[i].failureDelivered || !x.slots[j].failureDelivered)
    && !(x.ready && x.failure.Some?) && !(x.ready && x.sourcesTaken) && !(x.sourcesTaken && x.failure.Some?)
    && (x.ready || x.sourcesTaken ==> forall i :: 0 <= i < |x.slots| ==> x.slots[i].resultDelivered)
  }

  lemma NewIsLatched<R>(x: State<R>, limits: Limits)
    requires limits.Valid() && !x.ready && x.failure.None? && !x.sourcesTaken
    requires forall i :: 0 <= i < |x.slots| ==>
      && x.slots[i].sender == Initial<seq<R>>(limits) && x.slots[i].merged == []
      && !x.slots[i].resultDelivered && !x.slots[i].failureDelivered
    ensures Latched(x)
  {
  }

  /** Publishing a slot whose sender just left waiting flags it, and answers an error exactly when it flags a failure. */
  lemma PublishFlags<R>(slot: Slot<R>, answers: Answers)
    requires Retry.Sound(slot.sender) && slot.sender.phase != Waiting
    requires !slot.resultDelivered && !slot.failureDelivered && slot.merged == []
    ensures
      var (code, after) := Publish(slot, answers);
      Flagged(after, false) && (after.failureDelivered <==> code != Ok) && after.sender == slot.sender
  {
  }

  /** Replacing one unflagged slot by a flagged one, with the failure it asks for. */
  lemma SlotKeepsLatched<R>(x: State<R>, i: nat, slot: Slot<R>, code: StatusCode)
    requires Latched(x) && !Sealed(x) && !x.sourcesTaken && i < |x.slots|
    requires Flagged(slot, false) && (slot.failureDelivered <==> code != Ok)
    ensures Latched(x.(slots := x.slots[i := slot], failure := if code == Ok then x.failure else Some(code)))
  {
    var y := x.(slots := x.slots[i := slot], failure := if code == Ok then x.failure else Some(code));
    assert y.slots[i] == slot;
    assert forall j :: 0 <= j < |x.slots| ==> !x.slots[j].failureDelivered;
  }

  lemma SettleKeepsLatched<R>(x: State<R>, i: nat, taken: (StatusCode, Sender<seq<R>>), answers: Answers)
    requires Latched(x) && !Sealed(x) && !x.sourcesTaken && i < |x.slots| && Retry.Sound(taken.1)
    requires taken.0 != Ok ==> taken.1 == x.slots[i].sender
    requires taken.0 == Ok ==> x.slots[i].sender.phase == Waiting && taken.1.phase != Waiting
    ensures Latched(Settle(x, i, taken, answers).1)
  {
    assert Flagged(x.slots[i], false);
    if taken.0 != Ok {
      assert x.slots[i := x.slots[i].(sender := taken.1)] == x.slots;
    } else {
      var slot := x.slots[i].(sender := taken.1);
      PublishFlags(slot, answers);
      var (code, after) := Publish(slot, answers);
      SlotKeepsLatched(x, i, after, code);
    }
  }

  /** Once the sources are gone every sender has succeeded and refuses all events. */
  lemma TransferredIsInert<R>(x: State<R>, i: nat, taken: (StatusCode, Sender<seq<R>>), answers: Answers)
    requires i < |x.slots| && taken.0 != Ok && taken.1 == x.slots[i].sender
    ensures Settle(x, i, taken, answers) == (taken.0, x)
  {
    assert x.slots[i := x.slots[i].(sender := taken.1)] == x.slots;
  }

  // ---- Runs ----

  datatype Input<+R> =
    | Started(slot: nat, now: Time)
    | Judged(slot: nat, verdict: Verdict<seq<R>>, now: Time, answers: Answers)
    | Lost(slot: nat, code: StatusCode, now: Time, answers: Answers)
    | FinishCalled(answer: StatusCode)
    | TakeCalled

  function Take<R(==)>(x: State<R>, e: Input<R>): State<R>
    requires Latched(x)
  {
    match e
    case Started(i, now) => if i < |x.slots| then assert Flagged(x.slots[i], x.sourcesTaken); BeginSlot(x, i, now).1 else x
    case Judged(i, verdict, now, answers) => if i < |x.slots| then RespondSlot(x, i, verdict, now, answers).1 else x
    case Lost(i, code, now, answers) => if i < |x.slots| then FailSlot(x, i, code, now, answers).1 else x
    case FinishCalled(answer) => Finish(x, answer).1
    case TakeCalled => TakeSources(x).1
  }

  lemma BeginKeepsLatched<R>(x: State<R>, i: nat, now: Time)
    requires Latched(x) && i < |x.slots|
    ensures Flagged(x.slots[i], x.sourcesTaken)
    ensures Latched(BeginSlot(x, i, now).1)
  {
  }

  lemma RespondKeepsLatched<R>(x: State<R>, i: nat, verdict: Verdict<seq<R>>, now: Time, answers: Answers)
    requires Latched(x) && i < |x.slots| && Usable(x.slots[i], x.sourcesTaken)
    ensures Latched(RespondSlot(x, i, verdict, now, answers).1)
  {
    if !Sealed(x) {
      TakenIsUsable(x, i, ResolveAt(verdict, now));
      var taken := Resolve(x.slots[i].sender, verdict, now);
      if x.sourcesTaken {
        TransferredIsInert(x, i, taken, answers);
      } else {
        ApplySteps(x.slots[i].sender, ResolveAt(verdict, now));
        SettleKeepsLatched(x, i, taken, answers);
      }
    }
  }

  lemma FailKeepsLatched<R>(x: State<R>, i: nat, code: StatusCode, now: Time, answers: Answers)
    requires Latched(x) && i < |x.slots| && Usable(x.slots[i], x.sourcesTaken)
    ensures Latched(FailSlot(x, i, code, now, answers).1)
  {
    if !Sealed(x) {
      TakenIsUsable(x, i, FailAt(code, now));
      var taken := TransportFailed(x.slots[i].sender, code, now);
      if x.sourcesTaken {
        TransferredIsInert(x, i, taken, answers);
      } else {
        ApplySteps(x.slots[i].sender, FailAt(code, now));
        SettleKeepsLatched(x, i, taken, answers);
      }
    }
  }

  /**
   Finishing succeeds exactly over a complete query that nobody finished or transferred before, if the
   coordinator agrees. Otherwise nothing changes: a latched failure is reported first, then what is missing.
   */
  lemma FinishMeansComplete<R>(x: State<R>, answer: StatusCode)
    requires Latched(x)
    ensures Latched(Finish(x, answer).1)
    ensures Finish(x, answer).0 == Ok <==>
      && !x.ready && !x.sourcesTaken && answer == Ok
      && forall i :: 0 <= i < |x.slots| ==> x.slots[i].resultDelivered
    ensures Finish(x, answer).0 == Ok ==>
      && Finish(x, answer).1 == x.(ready := true)
      && forall i :: 0 <= i < |x.slots| ==> x.slots[i].sender.result == Some(x.slots[i].merged)
    ensures Finish(x, answer).0 != Ok ==> Finish(x, answer).1 == x
    ensures !x.ready && !x.sourcesTaken ==>
      && (x.failure.Some? ==> Finish(x, answer).0 == x.failure.value)
      && (x.failure.None? && (exists i :: 0 <= i < |x.slots| && !x.slots[i].resultDelivered) ==>
            Finish(x, answer).0 == Unavailable)
    ensures x.ready || x.sourcesTaken ==> Finish(x, answer).0 == InvalidArgument
  {
    forall i | 0 <= i < |x.slots|
      ensures x.slots[i].resultDelivered ==> x.slots[i].sender.phase == Succeeded && !x.slots[i].failureDelivered
      ensures x.slots[i].resultDelivered && !x.sourcesTaken ==> x.slots[i].sender.result == Some(x.slots[i].merged)
    {
      DeliveredSucceeded(x.slots[i], x.sourcesTaken);
    }
  }

  lemma DeliveredSucceeded<R>(slot: Slot<R>, taken: bool)
    requires Flagged(slot, taken)
    ensures slot.resultDelivered ==> slot.sender.phase == Succeeded && !slot.failureDelivered
    ensures slot.resultDelivered && !taken ==> slot.sender.result == Some(slot.merged)
  {
  }

  /** Transferring sources needs no look at the delivery flags: without a failure, success is delivery. */
  lemma TransferMeansComplete<R>(x: State<R>)
    requires Latched(x)
    ensures Latched(TakeSources(x).1)
    ensures TakeSources(x).0.Success? <==>
      !x.ready && !x.sourcesTaken && forall i :: 0 <= i < |x.slots| ==> x.slots[i].resultDelivered
    ensures TakeSources(x).0.Success? ==>
      TakeSources(x).0.value == seq(|x.slots|, i requires 0 <= i < |x.slots| => x.slots[i].merged)
  {
  }

  lemma TakeKeepsLatched<R>(x: State<R>, e: Input<R>)
    requires Latched(x)
    ensures Latched(Take(x, e))
  {
    match e
    case Started(i, now) => if i < |x.slots| { BeginKeepsLatched(x, i, now); }
    case Judged(i, verdict, now, answers) =>
      if i < |x.slots| {
        assert Flagged(x.slots[i], x.sourcesTaken);
        RespondKeepsLatched(x, i, verdict, now, answers);
      }
    case Lost(i, code, now, answers) =>
      if i < |x.slots| {
        assert Flagged(x.slots[i], x.sourcesTaken);
        FailKeepsLatched(x, i, code, now, answers);
      }
    case FinishCalled(answer) => FinishMeansComplete(x, answer);
    case TakeCalled => TransferMeansComplete(x);
  }

  function Run<R(==)>(x: State<R>, inputs: seq<Input<R>>): (y: State<R>)
    requires Latched(x)
    ensures Latched(y)
  {
    if inputs == [] then x
    else
      var y := Run(x, inputs[..|inputs| - 1]);
      TakeKeepsLatched(y, inputs[|inputs| - 1]);
      Take(y, inputs[|inputs| - 1])
  }

  /** At every point of every run: no failure latched and a sender succeeded means its whole stream was merged. */
  lemma SuccessIsMerged<R>(x: State<R>, inputs: seq<Input<R>>, i: nat)
    requires Latched(x) && i < |Run(x, inputs).slots|
    ensures
      var y := Run(x, inputs);
      && (y.failure.None? && y.slots[i].sender.phase == Succeeded ==> y.slots[i].resultDelivered)
      && (y.slots[i].resultDelivered ==> Original(y.slots[i], y.sourcesTaken).result == Some(y.slots[i].merged))
  {
  }

  // ---- What is merged was vouched for ----

  /** Every result held, and everything merged, passed `vouch` for its tablet. */
  ghost predicate Vouched<R(!new)>(x: State<R>, vouch: (Uuid, seq<R>) -> bool) {
    forall i :: 0 <= i < |x.slots| ==> VouchedSlot(x.slots[i], vouch)
  }

  predicate VouchedSlot<R>(slot: Slot<R>, vouch: (Uuid, seq<R>) -> bool) {
    && (slot.sender.result.Some? ==> vouch(slot.tablet, slot.sender.result.value))
    && (slot.resultDelivered ==> vouch(slot.tablet, slot.merged))
  }

  lemma SettleVouched<R(!new)>(
    x: State<R>, i: nat, taken: (StatusCode, Sender<seq<R>>), answers: Answers, vouch: (Uuid, seq<R>) -> bool)
    requires i < |x.slots| && (taken.0 == Ok && taken.1.phase == Succeeded ==> taken.1.result.Some?)
    requires Vouched(x, vouch) && (taken.1.result.Some? ==> vouch(x.slots[i].tablet, taken.1.result.value))
    ensures Vouched(Settle(x, i, taken, answers).1, vouch)
  {
    var y := Settle(x, i, taken, answers).1;
    forall j | 0 <= j < |y.slots|
      ensures VouchedSlot(y.slots[j], vouch)
    {
      assert VouchedSlot(x.slots[j], vouch);
    }
  }

  lemma RespondVouched<R(!new)>(
    x: State<R>, i: nat, verdict: Verdict<seq<R>>, now: Time, answers: Answers, vouch: (Uuid, seq<R>) -> bool)
    requires i < |x.slots| && Usable(x.slots[i], x.sourcesTaken) && Vouched(x, vouch)
    requires verdict.Delivered? ==> vouch(x.slots[i].tablet, verdict.result)
    ensures Vouched(RespondSlot(x, i, verdict, now, answers).1, vouch)
  {
    assert VouchedSlot(x.slots[i], vouch);
    if !Sealed(x) {
      TakenIsUsable(x, i, ResolveAt(verdict, now));
      SettleVouched(x, i, Resolve(x.slots[i].sender, verdict, now), answers, vouch);
    }
  }

  lemma FailVouched<R(!new)>(
    x: State<R>, i: nat, code: StatusCode, now: Time, answers: Answers, vouch: (Uuid, seq<R>) -> bool)
    requires i < |x.slots| && Usable(x.slots[i], x.sourcesTaken) && Vouched(x, vouch)
    ensures Vouched(FailSlot(x, i, code, now, answers).1, vouch)
  {
    assert VouchedSlot(x.slots[i], vouch);
    if !Sealed(x) {
      TakenIsUsable(x, i, FailAt(code, now));
      SettleVouched(x, i, TransportFailed(x.slots[i].sender, code, now), answers, vouch);
    }
  }

  lemma BeginVouched<R(!new)>(x: State<R>, i: nat, now: Time, vouch: (Uuid, seq<R>) -> bool)
    requires i < |x.slots| && Retry.Sound(x.slots[i].sender) && Vouched(x, vouch)
    ensures Vouched(BeginSlot(x, i, now).1, vouch)
  {
    var y := BeginSlot(x, i, now).1;
    forall j | 0 <= j < |y.slots|
      ensures VouchedSlot(y.slots[j], vouch)
    {
      assert VouchedSlot(x.slots[j], vouch);
    }
  }

  // ---- What one event does to one slot ----

  /** Slots other than `i` stay, no latch but the failure moves, and that one only with an error. */
  predicate SlotOnly<R(==)>(x: State<R>, y: State<R>, i: nat, code: StatusCode)
    requires i < |x.slots|
  {
    && |y.slots| == |x.slots| && (forall j :: 0 <= j < |x.slots| && j != i ==> y.slots[j] == x.slots[j])
    && y.slots[i].tablet == x.slots[i].tablet && y.ready == x.ready && y.sourcesTaken == x.sourcesTaken && (code == Ok ==> y.failure == x.failure)
  }

  lemma SettleShape<R>(x: State<R>, i: nat, taken: (StatusCode, Sender<seq<R>>), answers: Answers)
    requires i < |x.slots| && (taken.0 == Ok && taken.1.phase == Succeeded ==> taken.1.result.Some?)
    ensures
      var (code, y) := Settle(x, i, taken, answers);
      SlotOnly(x, y, i, code) && y.slots[i].sender == taken.1 && (code == Ok ==> taken.0 == Ok)
  {
  }

  /** An event on a waiting slot of an open execution leaves the attempt count and, unless refused, ends the wait. */
  lemma RespondShape<R>(x: State<R>, i: nat, verdict: Verdict<seq<R>>, now: Time, answers: Answers)
    requires i < |x.slots| && !Sealed(x) && Usable(x.slots[i], x.sourcesTaken) && x.slots[i].sender.phase == Waiting
    ensures
      var (code, y) := RespondSlot(x, i, verdict, now, answers);
      && SlotOnly(x, y, i, code) && y.slots[i].sender.attempts == x.slots[i].sender.attempts
      && (code == Ok ==> y.slots[i].sender.phase != Waiting && y.slots[i].sender.phase != Ready)
  {
    ApplySteps(x.slots[i].sender, ResolveAt(verdict, now));
    SettleShape(x, i, Resolve(x.slots[i].sender, verdict, now), answers);
  }

  lemma FailShape<R>(x: State<R>, i: nat, cause: StatusCode, now: Time, answers: Answers)
    requires i < |x.slots| && !Sealed(x) && Usable(x.slots[i], x.sourcesTaken) && x.slots[i].sender.phase == Waiting
    ensures
      var (code, y) := FailSlot(x, i, cause, now, answers);
      && SlotOnly(x, y, i, code) && y.slots[i].sender.attempts == x.slots[i].sender.attempts
      && (code == Ok ==> y.slots[i].sender.phase != Waiting && y.slots[i].sender.phase != Ready)
  {
    ApplySteps(x.slots[i].sender, FailAt(cause, now));
    SettleShape(x, i, TransportFailed(x.slots[i].sender, cause, now), answers);
  }

  /** The execution object. */
  class MutableQueryExecution<R(==)> {
    var slots: seq<Slot<R>>
    var ready: bool
    var failure: Option<FailureCode>
    var sourcesTaken: bool

    ghost function View(): State<R>
      reads this
    {
      State(slots, ready, failure, sourcesTaken)
    }

    constructor (slots: seq<Slot<R>>)
      ensures View() == State(slots, false, None, false)
    {
      this.slots, ready, failure, sourcesTaken := slots, false, None, false;
    }

    method PublishTerminalState(i: nat, answers: Answers) returns (code: StatusCode)
      requires i < |slots| && (slots[i].sender.phase == Succeeded ==> slots[i].sender.result.Some?)
      modifies this`slots, this`failure
      ensures
        var p := Publish(old(slots[i]), answers);
        && code == p.0 && slots == old(slots)[i := p.1]
        && failure == if code == Ok then old(failure) else Some(code)
    {
      var slot := slots[i];
      if slot.sender.phase == Succeeded && !slot.resultDelivered {
        var frames := slot.sender.result.value;
        var k := 0;
        while k < |frames|
          invariant k <= |frames| && FirstRefused(answers, k, |frames|) == FirstRefused(answers, 0, |frames|)
        {
          if answers.frames(k) != Ok {
            slots := slots[i := slot.(failureDelivered := true, merged := frames[..k])];
            failure := Some(answers.frames(k));
            return answers.frames(k);
          }
          k := k + 1;
        }
        slots := slots[i := slot.(resultDelivered := true, merged := frames)];
      } else if slot.sender.phase == Exhausted && !slot.failureDelivered {
        slots := slots[i := slot.(failureDelivered := true)];
        code := if answers.report == Ok then slot.sender.lastStatus.GetOr(Internal) else answers.report;
        if code != Ok {
          failure := Some(code);
        }
        return;
      }
      return Ok;
    }

    method FinishNow(answer: StatusCode) returns (code: StatusCode)
      modifies this`ready
      ensures (code, View()) == Finish(old(View()), answer)
    {
      if ready || sourcesTaken {
        return InvalidArgument;
      }
      if failure.Some? {
        return failure.value;
      }
      var i := 0;
      while i < |slots|
        invariant i <= |slots|
        invariant forall k :: 0 <= k < i ==> slots[k].sender.phase == Succeeded && slots[k].resultDelivered
      {
        if slots[i].sender.phase != Succeeded || !slots[i].resultDelivered {
          return Unavailable;
        }
        i := i + 1;
      }
      if answer == Ok {
        ready := true;
      }
      return answer;
    }

    method TakeCompletedSources() returns (r: Result<seq<seq<R>>>)
      modifies this
      ensures (r, View()) == TakeSources(old(View()))
    {
      if ready || sourcesTaken {
        return Failure(InvalidArgument);
      }
      if failure.Some? {
        return Failure(failure.value);
      }
      var i := 0;
      while i < |slots|
        invariant i <= |slots| && View() == old(View())
        invariant forall k :: 0 <= k < i ==> slots[k].sender.phase == Succeeded && slots[k].sender.result.Some?
      {
        if slots[i].sender.phase != Succeeded || slots[i].sender.result.None? {
          return Failure(Unavailable);
        }
        i := i + 1;
      }
      var sources: seq<seq<R>> := [];
      ghost var before := slots;
      i := 0;
      while i < |slots|
        modifies `slots
        invariant i <= |slots| == |before| && |sources| == i
        invariant forall k :: 0 <= k < i ==>
          slots[k] == before[k].(sender := before[k].sender.(result := None)) && sources[k] == before[k].sender.result.GetOr([])
        invariant forall k :: i <= k < |slots| ==> slots[k] == before[k]
      {
        sources := sources + [slots[i].sender.result.value];
        slots := slots[i := slots[i].(sender := slots[i].sender.(result := None))];
        i := i + 1;
      }
      sourcesTaken := true;
      assert slots == TakeSources(old(View())).1.slots;
      assert sources == TakeSources(old(View())).0.value;
      return Success(sources);
    }
  }
}
