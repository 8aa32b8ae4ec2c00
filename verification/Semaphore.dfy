/** The counting semaphore over a condition variable, as steps taken under its lock. */
module Semaphore {
  import opened Lists

  type Thread = nat

  /**
   * `queue` holds the threads asleep in the condition variable, `woken` those taken from it that
   * have not got the lock back yet; `waits`, `signals` and `done` count calls begun and waits finished.
   */
  datatype State = State(value: int, wakeup: int, queue: seq<Thread>, woken: set<Thread>,
                         waits: nat, signals: nat, done: nat)

  /** A wait begins, a woken thread gets the lock back, a signal is given. */
  datatype Event = Wait(t: Thread) | Resume(t: Thread) | Signal

  function Init(value: int): State {
    State(value, 0, [], {}, 0, 0, 0)
  }

  predicate Blocked(s: State, t: Thread) {
    t in s.queue || t in s.woken
  }

  /** A thread waits only when it is not waiting already, and resumes only after it was woken. */
  predicate Enabled(s: State, e: Event) {
    match e
    case Wait(t) => !Blocked(s, t)
    case Resume(t) => t in s.woken
    case Signal => true
  }

  function WaitStep(s: State, t: Thread): State {
    var v := s.value - 1;
    if v < 0 then s.(value := v, waits := s.waits + 1, queue := s.queue + [t])
    else s.(value := v, waits := s.waits + 1, done := s.done + 1)
  }

  function ResumeStep(s: State, t: Thread): State {
    if s.wakeup == 0 then s.(queue := s.queue + [t], woken := s.woken - {t})
    else s.(wakeup := s.wakeup - 1, woken := s.woken - {t}, done := s.done + 1)
  }

  function CondSignal(s: State): State {
    if s.queue == [] then s else s.(queue := s.queue[1..], woken := s.woken + {s.queue[0]})
  }

  function SignalStep(s: State): State {
    var v := s.value + 1;
    var s' := s.(value := v, signals := s.signals + 1);
    if v <= 0 then CondSignal(s'.(wakeup := s.wakeup + 1)) else s'
  }

  function Step(s: State, e: Event): State {
    match e
    case Wait(t) => WaitStep(s, t)
    case Resume(t) => ResumeStep(s, t)
    case Signal => SignalStep(s)
  }

  function Deficit(value: int): nat {
    if value < 0 then -value else 0
  }

  /** Every pending wakeup has its own woken thread, and the sleepers are exactly the missing units. */
  ghost predicate Inv(s: State, init: int) {
    && s.wakeup == |s.woken| && |s.queue| == Deficit(s.value)
    && Distinct(s.queue) && (forall t :: t in s.queue ==> t !in s.woken)
    && s.value == init + s.signals - s.waits
    && s.waits == s.done + |s.queue| + |s.woken|
  }

  lemma StepKeeps(s: State, init: int, e: Event)
    requires init >= 0 && Inv(s, init) && Enabled(s, e)
    ensures Inv(Step(s, e), init)
    ensures e.Resume? ==> s.wakeup > 0 && Step(s, e).done == s.done + 1 && !Blocked(Step(s, e), e.t)
  {
    match e {
      case Wait(t) =>
      case Resume(t) =>
        assert |s.woken - {t}| == |s.woken| - 1;
      case Signal =>
        if s.value < 0 {
          var t := s.queue[0];
          assert t in s.queue;
          assert |s.woken + {t}| == |s.woken| + 1;
          forall u | u in s.queue[1..] ensures u != t && u in s.queue {
          }
        }
    }
  }

  ghost predicate Allowed(s: State, es: seq<Event>)
    decreases |es|
  {
    es == [] || (Enabled(s, es[0]) && Allowed(Step(s, es[0]), es[1..]))
  }

  ghost function Run(s: State, es: seq<Event>): State
    decreases |es|
  {
    if es == [] then s else Run(Step(s, es[0]), es[1..])
  }

  lemma {:induction false} RunKeeps(s: State, init: int, es: seq<Event>)
    requires init >= 0 && Inv(s, init) && Allowed(s, es)
    ensures Inv(Run(s, es), init)
    decreases |es|
  {
    if es != [] {
      StepKeeps(s, init, es[0]);
      RunKeeps(Step(s, es[0]), init, es[1..]);
    }
  }

  /**
   * In every interleaving: blocked threads are the pending wakeups plus the deficit, finished waits never
   * exceed the initial value plus the signals, and each pending wakeup belongs to a thread already woken.
   */
  lemma EveryRun(init: int, es: seq<Event>)
    requires init >= 0 && Allowed(Init(init), es)
    ensures var s := Run(Init(init), es);
      && |s.queue| + |s.woken| == s.wakeup + Deficit(s.value)
      && s.done <= init + s.signals
      && s.done == init + s.signals - s.wakeup - (if s.value > 0 then s.value else 0)
      && |s.woken| == s.wakeup
  {
    RunKeeps(Init(init), init, es);
  }

  /** A thread that was woken finishes its wait with its next step; nobody takes the wakeup from it. */
  lemma NoStolenWakeup(init: int, es: seq<Event>, t: Thread)
    requires init >= 0 && Allowed(Init(init), es) && t in Run(Init(init), es).woken
    ensures var s := Run(Init(init), es);
      s.wakeup > 0 && !Blocked(Step(s, Resume(t)), t) && Step(s, Resume(t)).done == s.done + 1
  {
    RunKeeps(Init(init), init, es);
    StepKeeps(Run(Init(init), es), init, Resume(t));
  }

  /** The threads that had to sleep, in the order in which they began to wait. */
  ghost function Slept(s: State, es: seq<Event>): seq<Thread>
    decreases |es|
  {
    if es == [] then []
    else (if es[0].Wait? && s.value <= 0 then [es[0].t] else []) + Slept(Step(s, es[0]), es[1..])
  }

  /** The threads that were woken, in the order in which this happened. */
  ghost function Roused(s: State, es: seq<Event>): seq<Thread>
    decreases |es|
  {
    if es == [] then [] else NewlyWoken(s, Step(s, es[0])) + Roused(Step(s, es[0]), es[1..])
  }

  ghost function NewlyWoken(s: State, s': State): seq<Thread> {
    if s'.woken <= s.woken then [] else var t :| t in s'.woken && t !in s.woken; [t]
  }

  lemma StepOrder(s: State, init: int, e: Event)
    requires init >= 0 && Inv(s, init) && Enabled(s, e)
    ensures NewlyWoken(s, Step(s, e)) + Step(s, e).queue ==
      s.queue + if e.Wait? && s.value <= 0 then [e.t] else []
  {
    if e.Signal? && s.value < 0 {
      var t := s.queue[0];
      assert t in s.queue && t !in s.woken && t in Step(s, e).woken;
      assert NewlyWoken(s, Step(s, e)) == [t];
    } else if e.Resume? {
      StepKeeps(s, init, e);
    }
  }

  lemma {:induction false} RunOrder(s: State, init: int, es: seq<Event>)
    requires init >= 0 && Inv(s, init) && Allowed(s, es)
    ensures Roused(s, es) + Run(s, es).queue == s.queue + Slept(s, es)
    decreases |es|
  {
    hide Inv, Enabled, Step, NewlyWoken;
    if es != [] {
      var s', new_ := Step(s, es[0]), if es[0].Wait? && s.value <= 0 then [es[0].t] else [];
      StepKeeps(s, init, es[0]);
      StepOrder(s, init, es[0]);
      RunOrder(s', init, es[1..]);
      assert Roused(s, es) + Run(s, es).queue ==
        NewlyWoken(s, s') + (Roused(s', es[1..]) + Run(s', es[1..]).queue);
      assert s.queue + (new_ + Slept(s', es[1..])) == (s.queue + new_) + Slept(s', es[1..]);
    }
  }

  /** In every interleaving, sleepers are woken in the order in which they began to wait. */
  lemma WokenInOrder(init: int, es: seq<Event>)
    requires init >= 0 && Allowed(Init(init), es)
    ensures Roused(Init(init), es) + Run(Init(init), es).queue == Slept(Init(init), es)
  {
    RunOrder(Init(init), init, es);
    assert [] + Slept(Init(init), es) == Slept(Init(init), es);
  }

  class Sem {
    var value: int
    var wakeup: int
    var queue: seq<Thread>
    var woken: set<Thread>
    /** The initial value. */
    ghost const init: nat
    ghost var waits: nat
    ghost var signals: nat
    ghost var done: nat

    ghost function Now(): State
      reads this
    {
      State(value, wakeup, queue, woken, waits, signals, done)
    }

    /** Every pending wakeup belongs to a woken thread, and the waits and signals balance. */
    ghost predicate Valid()
      reads this
    {
      Inv(Now(), init)
    }

    constructor (value: nat)
      ensures Valid() && init == value && Now() == Init(value)
    {
      init := value;
      this.value, wakeup, queue, woken := value, 0, [], {};
      waits, signals, done := 0, 0, 0;
    }

    /** The first part of a wait; `asleep` when the thread has to sleep. */
    method WaitBegin(t: Thread) returns (asleep: bool)
      requires Valid() && Enabled(Now(), Wait(t))
      modifies this
      ensures Valid() && Now() == Step(old(Now()), Wait(t)) && asleep == Blocked(Now(), t)
      ensures asleep <==> old(value) <= 0
      ensures done == old(done) + if asleep then 0 else 1
    {
      StepKeeps(Now(), init, Wait(t));
      value := value - 1;
      waits := waits + 1;
      asleep := value < 0;
      if asleep {
        queue := queue + [t];
      } else {
        done := done + 1;
      }
    }

    /** A woken thread has the lock again.  It would sleep once more without a wakeup, but there is always one. */
    method WaitResume(t: Thread) returns (asleep: bool)
      requires Valid() && Enabled(Now(), Resume(t))
      modifies this
      ensures Valid() && Now() == Step(old(Now()), Resume(t)) && !asleep && !Blocked(Now(), t)
      ensures done == old(done) + 1 && wakeup == old(wakeup) - 1
    {
      StepKeeps(Now(), init, Resume(t));
      woken := woken - {t};
      asleep := wakeup == 0;
      queue := if asleep then queue + [t] else queue;
      wakeup := if asleep then wakeup else wakeup - 1;
      done := done + if asleep then 0 else 1;
    }

    /** A signal wakes exactly one sleeper if there is one; the wakeup is for that thread. */
    method Post()
      requires Valid()
      modifies this
      ensures Valid() && Now() == Step(old(Now()), Signal)
      ensures old(queue) != [] ==>
        woken == old(woken) + {old(queue)[0]} && queue == old(queue)[1..] && wakeup == old(wakeup) + 1
      ensures old(queue) == [] ==> woken == old(woken) && queue == [] && wakeup == old(wakeup)
    {
      StepKeeps(Now(), init, Signal);
      value := value + 1;
      signals := signals + 1;
      if value <= 0 {
        wakeup := wakeup + 1;
        if queue != [] {
          woken := woken + {queue[0]};
          queue := queue[1..];
        }
      }
    }
  }
}
