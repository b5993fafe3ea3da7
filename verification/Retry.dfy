/** The finite retry machine behind every sender: attempts, capped doubling backoff, one final outcome. */
module Retry {
  import opened Common
  import opened ResponseFrames
  import opened GroupedStreams
  import opened Sums

  /** Steady-clock instants in nanoseconds; the largest one stands for "never". */
  const TIME_MAX := 0x7FFF_FFFF_FFFF_FFFF
  const TICKS_PER_MS := 1_000_000
  const MAX_BACKOFF_MS := TIME_MAX / TICKS_PER_MS
  type Time = t: int | -TIME_MAX - 1 <= t <= TIME_MAX

  function SaturatingAdd(now: Time, delayMs: nat): (t: Time)
    requires delayMs <= MAX_BACKOFF_MS
    ensures t == Min(now + delayMs * TICKS_PER_MS, TIME_MAX)
  {
    if now > TIME_MAX - delayMs * TICKS_PER_MS then TIME_MAX else now + delayMs * TICKS_PER_MS
  }

  datatype Limits = Limits(maxAttempts: nat, initialBackoff: nat, maxBackoff: nat) {
    predicate Valid() {
      0 < maxAttempts <= 1024 && 0 < initialBackoff <= maxBackoff <= MAX_BACKOFF_MS
    }
  }

  datatype Phase = Ready | Waiting | Backoff | Succeeded | Exhausted

  datatype Sender<+R> = Sender(
    limits: Limits, phase: Phase, attempts: nat, nextBackoff: nat,
    notBefore: Option<Time>, lastStatus: Option<StatusCode>, hint: Option<LeaderHint>, result: Option<R>)

  function Initial<R>(limits: Limits): Sender<R> {
    Sender(limits, Ready, 0, limits.initialBackoff, None, None, None, None)
  }

  /** A sender that has not ended: it may still begin, wait or fall back. */
  predicate Live(phase: Phase) {
    phase == Ready || phase == Waiting || phase == Backoff
  }

  predicate Retryable(code: StatusCode) {
    code == Unavailable || code == ResourceExhausted || code == IoError
  }

  function Begin<R>(s: Sender<R>, now: Time): (Result<nat>, Sender<R>)
    requires s.phase == Backoff ==> s.notBefore.Some?
  {
    if s.phase == Succeeded || s.phase == Exhausted then (Failure(InvalidArgument), s)
    else if s.phase == Waiting then (Failure(Unavailable), s)
    else if s.phase == Backoff && now < s.notBefore.value then (Failure(Unavailable), s)
    else if s.attempts >= s.limits.maxAttempts then (Failure(InvalidArgument), s)
    else (Success(s.attempts + 1), s.(attempts := s.attempts + 1, phase := Waiting, hint := None, notBefore := None))
  }

  /** The delay after the current one: doubled, but never past the maximum. */
  function NextDelay(limits: Limits, current: nat): nat {
    if current >= limits.maxBackoff then current
    else if current > limits.maxBackoff / 2 then limits.maxBackoff
    else Min(current * 2, limits.maxBackoff)
  }

  function Schedule<R>(s: Sender<R>, code: StatusCode, now: Time): Sender<R>
    requires s.nextBackoff <= MAX_BACKOFF_MS
  {
    if !Retryable(code) || s.attempts >= s.limits.maxAttempts then
      s.(lastStatus := Some(code), phase := Exhausted, notBefore := None)
    else
      s.(lastStatus := Some(code), phase := Backoff, notBefore := Some(SaturatingAdd(now, s.nextBackoff)),
         nextBackoff := NextDelay(s.limits, s.nextBackoff))
  }

  /** A judged response stream. */
  function Resolve<R>(s: Sender<R>, verdict: Verdict<R>, now: Time): (StatusCode, Sender<R>)
    requires s.nextBackoff <= MAX_BACKOFF_MS
  {
    if s.phase != Waiting then (InvalidArgument, s)
    else match verdict
      case Refused(code) => (code, s)
      case Rejected(status, hint) => (Ok, Schedule(s.(hint := hint), status, now))
      case Delivered(r) =>
        (Ok, s.(result := Some(r), lastStatus := Some(Ok), hint := None, phase := Succeeded, notBefore := None))
  }

  function TransportFailed<R>(s: Sender<R>, code: StatusCode, now: Time): (StatusCode, Sender<R>)
    requires s.nextBackoff <= MAX_BACKOFF_MS
  {
    if s.phase != Waiting || code == Ok then (InvalidArgument, s)
    else (Ok, Schedule(s.(hint := None), code, now))
  }

  // ---- Runs ----

  datatype Event<+R> =
    | BeginAt(now: Time)
    | ResolveAt(verdict: Verdict<R>, now: Time)
    | FailAt(code: StatusCode, now: Time)

  /** One event: whether it was accepted, and the sender afterwards. */
  function Apply<R>(s: Sender<R>, e: Event<R>): (bool, Sender<R>)
    requires Sound(s)
  {
    match e
    case BeginAt(now) => var (r, t) := Begin(s, now); (r.Success?, t)
    case ResolveAt(verdict, now) => var (c, t) := Resolve(s, verdict, now); (c == Ok, t)
    case FailAt(code, now) => var (c, t) := TransportFailed(s, code, now); (c == Ok, t)
  }

  function Run<R>(s: Sender<R>, events: seq<Event<R>>): (t: Sender<R>)
    requires Sound(s)
    ensures Sound(t)
    decreases |events|
  {
    if events == [] then s
    else
      ApplyKeepsSound(s, events[0]);
      Run(Apply(s, events[0]).1, events[1..])
  }

  function Pow2(k: nat): (p: nat)
    ensures p >= 1
  {
    if k == 0 then 1 else 2 * Pow2(k - 1)
  }

  /** The k-th delay, counting from zero: doubled each time, up to the maximum. */
  function Delay(limits: Limits, k: nat): nat {
    if k == 0 then limits.initialBackoff else Min(2 * Delay(limits, k - 1), limits.maxBackoff)
  }

  lemma Doubled(a: nat, p: nat)
    ensures a * (2 * p) == 2 * (a * p)
  {
  }

  lemma {:induction false} DelayClosedForm(limits: Limits, k: nat)
    requires limits.Valid()
    ensures Delay(limits, k) == Min(limits.initialBackoff * Pow2(k), limits.maxBackoff)
  {
    if k == 0 {
    } else {
      DelayClosedForm(limits, k - 1);
      var a, p := limits.initialBackoff, Pow2(k - 1);
      calc {
        a * Pow2(k);
      ==
        a * (2 * p);
      == { Doubled(a, p); }
        2 * (a * p);
      }
    }
  }

  /** How often the sender has fallen back so far. */
  function Fallbacks<R>(s: Sender<R>): int {
    if s.phase == Ready || s.phase == Backoff then s.attempts else s.attempts - 1
  }

  /** What holds of every reachable sender. */
  predicate Sound<R>(s: Sender<R>) {
    && s.limits.Valid() && s.attempts <= s.limits.maxAttempts
    && (s.phase == Ready <==> s.attempts == 0)
    && (s.phase == Backoff <==> s.notBefore.Some?)
    && (s.phase == Backoff ==> s.attempts < s.limits.maxAttempts)
    && (s.phase == Succeeded <==> s.result.Some?)
    && (s.phase == Backoff || s.phase == Exhausted ==> s.lastStatus.Some? && s.lastStatus.value != Ok)
    && Fallbacks(s) >= 0 && s.nextBackoff == Delay(s.limits, Fallbacks(s)) <= s.limits.maxBackoff
  }

  lemma NextDelayDoubles(limits: Limits, k: nat)
    requires limits.Valid()
    ensures NextDelay(limits, Delay(limits, k)) == Delay(limits, k + 1)
    ensures 0 < Delay(limits, k) <= limits.maxBackoff
  {
    DelayInRange(limits, k);
  }

  lemma {:induction false} DelayInRange(limits: Limits, k: nat)
    requires limits.Valid()
    ensures 0 < Delay(limits, k) <= limits.maxBackoff
  {
    if k > 0 {
      DelayInRange(limits, k - 1);
    }
  }

  lemma InitialSound<R>(limits: Limits)
    requires limits.Valid()
    ensures Sound(Initial<R>(limits))
  {
  }

  lemma ScheduleKeepsSound<R>(s: Sender<R>, hint: Option<LeaderHint>, code: StatusCode, now: Time)
    requires Sound(s) && s.phase == Waiting && code != Ok
    ensures Sound(Schedule(s.(hint := hint), code, now))
  {
  }

  lemma ApplyKeepsSound<R>(s: Sender<R>, e: Event<R>)
    requires Sound(s)
    ensures Sound(Apply(s, e).1)
  {
    if s.phase == Waiting {
      match e
      case BeginAt(_) =>
      case ResolveAt(verdict, now) =>
        if verdict.Rejected? {
          ScheduleKeepsSound(s, verdict.hint, verdict.status, now);
        }
      case FailAt(code, now) =>
        if code != Ok {
          ScheduleKeepsSound(s, None, code, now);
        }
    }
  }

  /** The failure an event reports: a rejected stream or a lost transport. */
  function FailureOf<R>(e: Event<R>): Option<StatusCode> {
    match e
    case BeginAt(_) => None
    case ResolveAt(verdict, _) => if verdict.Rejected? then Some(verdict.status) else None
    case FailAt(code, _) => if code == Ok then None else Some(code)
  }

  /** Whether another attempt may follow a failure, written out. */
  predicate WorthAnother(limits: Limits, attempts: nat, code: StatusCode) {
    (code == Unavailable || code == ResourceExhausted || code == IoError) && attempts < limits.maxAttempts
  }

  /**
   What a failure does to a waiting sender: it falls back exactly when one of three codes is reported and
   budget is left, until its delay is over, and gives up otherwise. Either way it reports that code.
   */
  lemma FailureExactly<R>(s: Sender<R>, e: Event<R>)
    requires Sound(s) && s.phase == Waiting && FailureOf(e).Some?
    ensures
      var (accepted, t) := Apply(s, e);
      && accepted && t.lastStatus == FailureOf(e)
      && t.limits == s.limits && t.attempts == s.attempts && t.result.None?
      && t.hint == (if e.ResolveAt? then e.verdict.hint else None)
      && t.phase == (if WorthAnother(s.limits, s.attempts, FailureOf(e).value) then Backoff else Exhausted)
      && t.notBefore == (
           if t.phase == Backoff then Some(Min(e.now + Delay(s.limits, s.attempts - 1) * TICKS_PER_MS, TIME_MAX)) else None)
  {
  }

  /** What a delivered stream does: it is the result, and nothing is left to do. */
  lemma DeliveryExactly<R>(s: Sender<R>, r: R, now: Time)
    requires Sound(s)
    ensures Resolve(s, Delivered(r), now) ==
      if s.phase == Waiting then (Ok, Sender(s.limits, Succeeded, s.attempts, s.nextBackoff, None, Some(Ok), None, Some(r)))
      else (InvalidArgument, s)
  {
  }

  /** Outside a wait, and for streams the sender refuses, no answer has any effect. */
  lemma NoEffect<R>(s: Sender<R>, e: Event<R>)
    requires Sound(s) && !e.BeginAt?
    requires s.phase != Waiting || (e.FailAt? && e.code == Ok) || (e.ResolveAt? && e.verdict.Refused?)
    ensures Apply(s, e) == (false, s)
    ensures e.ResolveAt? ==> Resolve(s, e.verdict, e.now).0 == if s.phase != Waiting then InvalidArgument else e.verdict.code
    ensures e.FailAt? ==> TransportFailed(s, e.code, e.now).0 == InvalidArgument
  {
  }

  /** When an attempt begins, and what is answered when none does. */
  lemma BeginExactly<R>(s: Sender<R>, now: Time)
    requires Sound(s)
    ensures Begin(s, now).0.Success? <==> s.phase == Ready || (s.phase == Backoff && s.notBefore.value <= now)
    ensures Begin(s, now).0.Success? ==>
      && Begin(s, now).0.value == s.attempts + 1 <= s.limits.maxAttempts
      && Begin(s, now).1 == s.(attempts := s.attempts + 1, phase := Waiting, hint := None, notBefore := None)
    ensures Begin(s, now).0.Failure? ==>
      Begin(s, now) == (Failure(if Live(s.phase) then Unavailable else InvalidArgument), s)
  {
  }

  /** A sender from which a retry can start always has budget, so the exhausted-budget refusal is dead code. */
  lemma BudgetRemains<R>(s: Sender<R>, now: Time)
    requires Sound(s) && (s.phase == Ready || s.phase == Backoff)
    ensures Begin(s, now).0.Success? <==> (s.phase == Backoff ==> s.notBefore.value <= now)
    ensures Begin(s, now).0.Failure? ==> Begin(s, now).0.code == Unavailable
  {
  }

  /** How many more accepted events the sender can ever take. */
  function Remaining<R>(s: Sender<R>): nat
    requires Sound(s)
  {
    2 * (s.limits.maxAttempts - s.attempts) + if s.phase == Waiting then 1 else 0
  }

  /** Accepted events each cost one; refused ones change nothing; ended senders refuse everything. */
  lemma ApplySteps<R>(s: Sender<R>, e: Event<R>)
    requires Sound(s)
    ensures Sound(Apply(s, e).1)
    ensures Apply(s, e).0 ==> Remaining(Apply(s, e).1) == Remaining(s) - 1
    ensures !Apply(s, e).0 ==> Apply(s, e).1 == s
    ensures s.phase == Succeeded || s.phase == Exhausted ==> !Apply(s, e).0
  {
    ApplyKeepsSound(s, e);
  }

  function Accepted<R>(s: Sender<R>, events: seq<Event<R>>): nat
    requires Sound(s)
    decreases |events|
  {
    if events == [] then 0
    else
      ApplyKeepsSound(s, events[0]);
      var (accepted, t) := Apply(s, events[0]);
      Accepted(t, events[1..]) + if accepted then 1 else 0
  }

  /** Every run is finite in effect: what it spends plus what it leaves is what it had. */
  lemma {:induction false} RunsTerminate<R>(s: Sender<R>, events: seq<Event<R>>)
    requires Sound(s)
    ensures Accepted(s, events) + Remaining(Run(s, events)) == Remaining(s)
    decreases |events|
  {
    if events != [] {
      ApplySteps(s, events[0]);
      RunsTerminate(Apply(s, events[0]).1, events[1..]);
    }
  }

  /** Nothing moves an ended sender. */
  lemma {:induction false} EndedIsForever<R>(s: Sender<R>, events: seq<Event<R>>)
    requires Sound(s) && (s.phase == Succeeded || s.phase == Exhausted)
    ensures Run(s, events) == s && Accepted(s, events) == 0
    decreases |events|
  {
    if events != [] {
      ApplySteps(s, events[0]);
      EndedIsForever(s, events[1..]);
    }
  }

  // ---- Timing of a run ----

  datatype Mark = Began(at: Time) | FellBack(at: Time, cause: StatusCode)

  function MarkOf<R>(s: Sender<R>, e: Event<R>): seq<Mark>
    requires Sound(s)
  {
    var (accepted, t) := Apply(s, e);
    if accepted && t.phase == Waiting then [Began(e.now)]
    else if accepted && t.phase == Backoff then [FellBack(e.now, FailureOf(e).GetOr(Ok))]
    else []
  }

  /** When attempts began and when the sender fell back, in order. */
  function Marks<R>(s: Sender<R>, events: seq<Event<R>>): seq<Mark>
    requires Sound(s)
    decreases |events|
  {
    if events == [] then []
    else
      ApplyKeepsSound(s, events[0]);
      MarkOf(s, events[0]) + Marks(Apply(s, events[0]).1, events[1..])
  }

  /** How many marks lie behind a live sender. */
  function Position<R>(s: Sender<R>): nat
    requires Sound(s)
  {
    if s.phase == Waiting then 2 * s.attempts - 1 else 2 * s.attempts
  }

  /** Marks `p`, `p + 1`, ... alternate, and each attempt waits out the delay of the fallback before it. */
  predicate Spaced(limits: Limits, p: nat, marks: seq<Mark>)
    requires limits.Valid()
  {
    forall i :: 0 <= i < |marks| ==>
      && (marks[i].Began? <==> (p + i) % 2 == 0)
      && (marks[i].FellBack? && i + 1 < |marks| ==>
            marks[i + 1].at >= SaturatingAdd(marks[i].at, Delay(limits, (p + i) / 2)))
  }

  lemma SpacedCons(limits: Limits, p: nat, m: Mark, marks: seq<Mark>)
    requires limits.Valid() && Spaced(limits, p + 1, marks)
    requires m.Began? <==> p % 2 == 0
    requires m.FellBack? && marks != [] ==> marks[0].at >= SaturatingAdd(m.at, Delay(limits, p / 2))
    ensures Spaced(limits, p, [m] + marks)
  {
    var all := [m] + marks;
    forall i | 0 <= i < |all|
      ensures all[i].Began? <==> (p + i) % 2 == 0
      ensures all[i].FellBack? && i + 1 < |all| ==>
        all[i + 1].at >= SaturatingAdd(all[i].at, Delay(limits, (p + i) / 2))
    {
      if i > 0 {
        assert all[i] == marks[i - 1];
        assert p + 1 + (i - 1) == p + i;
      }
    }
  }

  /** A mark moves the position by one, has the parity of its place, and sets the deadline it stands for. */
  lemma MarkCounts<R>(s: Sender<R>, e: Event<R>)
    requires Sound(s) && MarkOf(s, e) != []
    ensures Sound(Apply(s, e).1) && Apply(s, e).1.limits == s.limits
    ensures Position(Apply(s, e).1) == Position(s) + 1
    ensures MarkOf(s, e)[0].Began? <==> Position(s) % 2 == 0
    ensures s.phase == Backoff ==> MarkOf(s, e)[0].at >= s.notBefore.value
    ensures MarkOf(s, e)[0].FellBack? ==>
      && Apply(s, e).1.phase == Backoff
      && Apply(s, e).1.notBefore == Some(SaturatingAdd(e.now, Delay(s.limits, Position(s) / 2)))
  {
    ApplySteps(s, e);
  }

  /** What the marks of a run from `s` look like. */
  predicate RunMarks<R>(s: Sender<R>, marks: seq<Mark>)
    requires Sound(s)
  {
    && (s.phase == Succeeded || s.phase == Exhausted ==> marks == [])
    && Spaced(s.limits, Position(s), marks)
    && (s.phase == Backoff && marks != [] ==> marks[0].at >= s.notBefore.value)
  }

  lemma PrependMark<R>(s: Sender<R>, e: Event<R>, rest: seq<Mark>)
    requires Sound(s) && Sound(Apply(s, e).1) && RunMarks(Apply(s, e).1, rest)
    requires MarkOf(s, e) != []
    ensures RunMarks(s, MarkOf(s, e) + rest)
  {
    MarkCounts(s, e);
    SpacedCons(s.limits, Position(s), MarkOf(s, e)[0], rest);
    assert [MarkOf(s, e)[0]] + rest == MarkOf(s, e) + rest;
  }

  lemma SkipMark<R>(s: Sender<R>, e: Event<R>, rest: seq<Mark>)
    requires Sound(s) && Sound(Apply(s, e).1) && RunMarks(Apply(s, e).1, rest)
    requires MarkOf(s, e) == []
    ensures RunMarks(s, rest)
  {
  }

  lemma {:induction false} RunIsSpaced<R>(s: Sender<R>, events: seq<Event<R>>)
    requires Sound(s)
    ensures RunMarks(s, Marks(s, events))
    decreases |events|
  {
    if events != [] {
      ApplyKeepsSound(s, events[0]);
      var rest := Marks(Apply(s, events[0]).1, events[1..]);
      RunIsSpaced(Apply(s, events[0]).1, events[1..]);
      if MarkOf(s, events[0]) == [] {
        SkipMark(s, events[0], rest);
        assert MarkOf(s, events[0]) + rest == rest;
      } else {
        PrependMark(s, events[0], rest);
      }
    }
  }

  /**
   In every run of a new sender: attempt k + 1 begins no earlier than the k-th fallback plus
   min(initial * 2^k, maximum), up to the end of time; and there are at most maxAttempts attempts.
   */
  lemma AttemptsAreSeparated<R>(limits: Limits, events: seq<Event<R>>, k: nat)
    requires limits.Valid() && 2 * k + 2 < |Marks(Initial<R>(limits), events)|
    ensures
      var marks := Marks(Initial<R>(limits), events);
      && marks[2 * k].Began? && marks[2 * k + 1].FellBack? && marks[2 * k + 2].Began?
      && marks[2 * k + 2].at >=
         Min(marks[2 * k + 1].at + Min(limits.initialBackoff * Pow2(k), limits.maxBackoff) * TICKS_PER_MS, TIME_MAX)
      && k + 1 < limits.maxAttempts
  {
    var s := Initial<R>(limits);
    RunIsSpaced(s, events);
    MarksAreAccepted(s, events);
    RunsTerminate(s, events);
    SpacedAt(limits, Marks(s, events), k);
    DelayClosedForm(limits, k);
  }

  lemma SpacedAt(limits: Limits, marks: seq<Mark>, k: nat)
    requires limits.Valid() && Spaced(limits, 0, marks) && 2 * k + 2 < |marks|
    ensures marks[2 * k].Began? && marks[2 * k + 1].FellBack? && marks[2 * k + 2].Began?
    ensures marks[2 * k + 2].at >= SaturatingAdd(marks[2 * k + 1].at, Delay(limits, k))
  {
    assert (2 * k + 1) / 2 == k;
  }

  lemma {:induction false} MarksAreAccepted<R>(s: Sender<R>, events: seq<Event<R>>)
    requires Sound(s)
    ensures |Marks(s, events)| <= Accepted(s, events)
    decreases |events|
  {
    if events != [] {
      ApplySteps(s, events[0]);
      MarksAreAccepted(Apply(s, events[0]).1, events[1..]);
    }
  }

  /** In every run, a sender only ever falls back on one of the three codes. */
  lemma {:induction false} FallbackCauses<R>(s: Sender<R>, events: seq<Event<R>>)
    requires Sound(s)
    ensures forall i :: 0 <= i < |Marks(s, events)| && Marks(s, events)[i].FellBack? ==>
      var cause := Marks(s, events)[i].cause; cause == Unavailable || cause == ResourceExhausted || cause == IoError
    decreases |events|
  {
    if events == [] {
    } else {
      ApplyKeepsSound(s, events[0]);
      FallbackCauses(Apply(s, events[0]).1, events[1..]);
      CauseOfMark(s, events[0]);
    }
  }

  lemma CauseOfMark<R>(s: Sender<R>, e: Event<R>)
    requires Sound(s)
    ensures forall i :: 0 <= i < |MarkOf(s, e)| && MarkOf(s, e)[i].FellBack? ==>
      var cause := MarkOf(s, e)[i].cause; cause == Unavailable || cause == ResourceExhausted || cause == IoError
  {
    if s.phase == Waiting && FailureOf(e).Some? {
      FailureExactly(s, e);
    }
  }

  /** The event that made a waiting sender give up, and the code it then reports. */
  ghost predicate GaveUpAt<R>(s: Sender<R>, events: seq<Event<R>>, k: nat, t: Sender<R>)
    requires Sound(s) && k < |events|
  {
    var before := Run(s, events[..k]);
    && before.phase == Waiting && FailureOf(events[k]).Some?
    && !WorthAnother(before.limits, before.attempts, FailureOf(events[k]).value)
    && t.lastStatus == FailureOf(events[k]) && t.attempts == before.attempts
  }

  /** In every run that gives up, some event was the last straw, and what the sender reports is that event's code. */
  lemma {:induction false} ExhaustedReportsCause<R>(s: Sender<R>, events: seq<Event<R>>) returns (k: nat)
    requires Sound(s) && Live(s.phase) && Run(s, events).phase == Exhausted
    ensures k < |events| && GaveUpAt(s, events, k, Run(s, events))
    decreases |events|
  {
    ApplyKeepsSound(s, events[0]);
    var t := Apply(s, events[0]).1;
    if t.phase == Exhausted {
      EndedIsForever(t, events[1..]);
      FailureExactly(s, events[0]);
      k := 0;
    } else {
      if t.phase == Succeeded {
        EndedIsForever(t, events[1..]);
      }
      var j := ExhaustedReportsCause(t, events[1..]);
      k := j + 1;
      assert events[..k][1..] == events[1..][..j];
    }
  }

  // ---- Several senders ----

  function Tries<R>(s: Sender<R>): nat {
    s.attempts
  }

  function FirstTry<R>(s: Sender<R>): nat {
    One(s.attempts > 0)
  }

  /** When one sender of several moves, the totals of attempts and of first attempts move with it. */
  lemma TriesFollow<R>(xs: seq<Sender<R>>, ys: seq<Sender<R>>, i: nat)
    requires i < |xs| == |ys| && forall j :: 0 <= j < |xs| && j != i ==> ys[j] == xs[j]
    ensures Total(ys, Tries) - Total(xs, Tries) == ys[i].attempts - xs[i].attempts
    ensures Total(ys, FirstTry) - Total(xs, FirstTry) == One(ys[i].attempts > 0) - One(xs[i].attempts > 0)
  {
    TotalFollows(xs, ys, i, Tries);
    TotalFollows(xs, ys, i, FirstTry);
  }

  lemma TriesBounded<R>(ss: seq<Sender<R>>)
    requires forall i :: 0 <= i < |ss| ==> ss[i].attempts <= 1024
    ensures Total(ss, Tries) <= |ss| * 1024
  {
    TotalBounded(ss, 1024, Tries);
  }
}
