/**
 * The polling monitor (core/src/polling_monitor/mod.rs): callers push ids to the front of a shared
 * queue, a consumer hands them to a service, and ids without a response go back to the queue,
 * immediately when the object was not found and after a backoff when polling failed.
 *
 * The tasks are interleaved step by step. A push and the wake-up that follows it are two steps, and
 * so are the consumer's checks, so every interleaving the tasks allow is a sequence of steps here.
 */
module PollingMonitors {
  /** A queued id: whether a caller or a retry pushed it, and how many pushes came before. */
  datatype Entry<ID> = Entry(id: ID, fresh': bool, stamp: nat)

  /** Where the consumer is; `seen` is the version of the wake-up channel its receiver has seen. */
  datatype Consumer<ID> =
    | Idle
    | Checking(seen: nat)
    | Popping(seen: nat)
    | Waiting(seen: nat)
    | Yielding(id: ID)
    | Ended

  /** Where the loop over responses is. */
  datatype Handler<ID, Res> = Ready | Sending(id: ID, response: Res) | Stopped

  datatype State<ID(==), Res(==)> = State(
    queue: seq<Entry<ID>>,
    pushes: nat,
    version: nat,
    waking: nat,
    consumer: Consumer<ID>,
    inFlight: multiset<ID>,
    handler: Handler<ID, Res>,
    backingOff: multiset<ID>,
    attempts: map<ID, nat>,
    delivered: seq<(ID, Res)>,
    closed: bool,
    monitored: multiset<ID>,
    answers: set<(ID, Res)>,
    lost: multiset<ID>,
    phantoms: multiset<ID>)

  function Init<ID(==), Res(==)>(): State<ID, Res> {
    State([], 0, 0, 0, Idle, multiset{}, Ready, multiset{}, map[], [], false, multiset{}, {}, multiset{}, multiset{})
  }

  datatype Step<ID, Res> =
    | Monitor(id: ID)                // a caller: push to the front
    | Wake                           // any pusher: send on the wake-up channel
    | StartPoll                      // the consumer is polled, with a clone of the first receiver
    | Check                          // is the response channel closed?
    | Pop                            // take the front of the queue, or start waiting
    | Woken                          // the receiver sees a new version
    | WokenByClose                   // or the response channel closes
    | CallService                    // the popped id goes to the service
    | RespondFound(id: ID, response: Res)
    | RespondMissing(id: ID)
    | RespondError(id: ID)
    | Deliver                        // the response is sent
    | SendFails                      // the receiver is gone: stop
    | BackoffExpires(id: ID)
    | Close                          // the receiver of responses is dropped
    | PollReadyFails(default': ID)   // the service breaks: an error for the default id

  /**
   * The consumer is polled by the task that handles responses, so it stands still while that task
   * awaits the sending of a response.
   */
  predicate Enabled<ID(==), Res>(s: State<ID, Res>, step: Step<ID, Res>) {
    match step
    case Monitor(_) => true
    case Wake => s.waking > 0
    case StartPoll => s.handler.Ready? && s.consumer.Idle?
    case Check => s.handler.Ready? && s.consumer.Checking?
    case Pop => s.handler.Ready? && s.consumer.Popping?
    case Woken => s.handler.Ready? && s.consumer.Waiting? && s.version != s.consumer.seen
    case WokenByClose => s.handler.Ready? && s.consumer.Waiting? && s.closed
    case CallService => s.handler.Ready? && s.consumer.Yielding?
    case RespondFound(id, _) => s.handler.Ready? && id in s.inFlight
    case RespondMissing(id) => s.handler.Ready? && id in s.inFlight
    case RespondError(id) => s.handler.Ready? && id in s.inFlight
    case Deliver => s.handler.Sending? && !s.closed
    case SendFails => s.handler.Sending? && s.closed
    case BackoffExpires(id) => id in s.backingOff
    case Close => true
    case PollReadyFails(_) => s.handler.Ready?
  }

  function PushFront<ID, Res>(s: State<ID, Res>, id: ID): State<ID, Res> {
    s.(queue := [Entry(id, true, s.pushes)] + s.queue, pushes := s.pushes + 1, waking := s.waking + 1)
  }

  function PushBack<ID, Res>(s: State<ID, Res>, id: ID): State<ID, Res> {
    s.(queue := s.queue + [Entry(id, false, s.pushes)], pushes := s.pushes + 1, waking := s.waking + 1)
  }

  function Attempts<ID(==)>(attempts: map<ID, nat>, id: ID): nat {
    if id in attempts then attempts[id] else 0
  }

  function BackOff<ID(==), Res>(s: State<ID, Res>, id: ID): State<ID, Res> {
    s.(backingOff := s.backingOff + multiset{id}, attempts := s.attempts[id := Attempts(s.attempts, id) + 1])
  }

  /** Where the loop of the consumer goes from where it is. */
  function Advanced<ID(==), Res(==)>(s: State<ID, Res>, woken: bool): State<ID, Res>
    requires !s.consumer.Ended?
  {
    match s.consumer
    case Idle => s.(consumer := Checking(0))
    case Checking(seen) => s.(consumer := if s.closed then Ended else Popping(seen))
    case Popping(seen) =>
      if s.queue == [] then s.(consumer := Waiting(seen))
      else s.(consumer := Yielding(s.queue[0].id), queue := s.queue[1..])
    case Waiting(seen) => s.(consumer := Checking(if woken then s.version else seen))
    case Yielding(id) => s.(consumer := Idle, inFlight := s.inFlight + multiset{id})
  }

  function Next<ID(==), Res(==)>(s: State<ID, Res>, step: Step<ID, Res>): State<ID, Res>
    requires Enabled(s, step)
  {
    match step
    case Monitor(id) => PushFront(s, id).(monitored := s.monitored + multiset{id})
    case Wake => s.(version := s.version + 1, waking := s.waking - 1)
    case StartPoll => Advanced(s, false)
    case Check => Advanced(s, false)
    case Pop => Advanced(s, false)
    case Woken => Advanced(s, true)
    case WokenByClose => Advanced(s, false)
    case CallService => Advanced(s, false)
    case RespondFound(id, response) =>
      s.(inFlight := s.inFlight - multiset{id}, attempts := s.attempts - {id},
         answers := s.answers + {(id, response)}, handler := Sending(id, response))
    case RespondMissing(id) => PushBack(s.(inFlight := s.inFlight - multiset{id}), id)
    case RespondError(id) => BackOff(s.(inFlight := s.inFlight - multiset{id}), id)
    case Deliver => s.(delivered := s.delivered + [(s.handler.id, s.handler.response)], handler := Ready)
    case SendFails => s.(lost := s.lost + multiset{s.handler.id}, handler := Stopped)
    case BackoffExpires(id) => PushBack(s.(backingOff := s.backingOff - multiset{id}), id)
    case Close => s.(closed := true)
    case PollReadyFails(id) => BackOff(s, id).(phantoms := s.phantoms + multiset{id})
  }

  // ----- runs -----

  ghost predicate IsRun<ID, Res>(s: State<ID, Res>, steps: seq<Step<ID, Res>>)
    decreases steps
  {
    steps == [] || (Enabled(s, steps[0]) && IsRun(Next(s, steps[0]), steps[1..]))
  }

  ghost function After<ID, Res>(s: State<ID, Res>, steps: seq<Step<ID, Res>>): State<ID, Res>
    requires IsRun(s, steps)
    decreases steps
  {
    if steps == [] then s else After(Next(s, steps[0]), steps[1..])
  }

  // ----- what every step keeps -----

  ghost function Queued<ID>(queue: seq<Entry<ID>>, x: ID): nat {
    if queue == [] then 0 else (if queue[0].id == x then 1 else 0) + Queued(queue[1..], x)
  }

  ghost function Delivered<ID, Res>(delivered: seq<(ID, Res)>, x: ID): nat {
    if delivered == [] then 0 else (if delivered[0].0 == x then 1 else 0) + Delivered(delivered[1..], x)
  }

  lemma {:induction false} QueuedAppend<ID>(queue: seq<Entry<ID>>, e: Entry<ID>, x: ID)
    ensures Queued(queue + [e], x) == Queued(queue, x) + if e.id == x then 1 else 0
  {
    if queue == [] {
      assert [e][1..] == [];
    } else {
      assert (queue + [e])[1..] == queue[1..] + [e];
      QueuedAppend(queue[1..], e, x);
    }
  }

  lemma {:induction false} DeliveredAppend<ID, Res>(delivered: seq<(ID, Res)>, d: (ID, Res), x: ID)
    ensures Delivered(delivered + [d], x) == Delivered(delivered, x) + if d.0 == x then 1 else 0
  {
    if delivered == [] {
      assert [d][1..] == [];
    } else {
      assert (delivered + [d])[1..] == delivered[1..] + [d];
      DeliveredAppend(delivered[1..], d, x);
    }
  }

  /** How often an id is with the service, or on its way to it or from it. */
  ghost function WithService<ID, Res>(s: State<ID, Res>, x: ID): nat {
    s.inFlight[x]
    + (if s.consumer.Yielding? && s.consumer.id == x then 1 else 0)
    + (if s.handler.Sending? && s.handler.id == x then 1 else 0)
  }

  /** How often an id occurs over all places. */
  ghost function Places<ID, Res>(s: State<ID, Res>, x: ID): nat {
    Queued(s.queue, x) + WithService(s, x) + s.backingOff[x] + Delivered(s.delivered, x) + s.lost[x]
  }

  /**
   * Every monitored id is in exactly one place: queued, with the service, backing off or delivered,
   * counted with repetition. The ids beyond those monitored are the default ids of a service that
   * broke; only cancellation loses any.
   */
  ghost predicate Conserved<ID(!new), Res>(s: State<ID, Res>) {
    && (forall x: ID :: Places(s, x) == s.monitored[x] + s.phantoms[x])
    && (!s.closed ==> forall x: ID :: s.lost[x] == 0)
  }

  /** Every delivered pair, and the one being sent, is a response the service gave for that id. */
  ghost predicate Truthful<ID, Res>(s: State<ID, Res>) {
    && (forall d :: d in s.delivered ==> d in s.answers)
    && (s.handler.Sending? ==> (s.handler.id, s.handler.response) in s.answers)
  }

  ghost predicate AboutToWait<ID>(c: Consumer<ID>) {
    c.Waiting? || c.Popping? || c.Checking?
  }

  /**
   * No wake-up is lost: a consumer that waits while the queue has elements has a version it has not
   * seen, or some task has pushed and is about to send the wake-up.
   */
  ghost predicate NoLostWakeup<ID, Res>(s: State<ID, Res>) {
    && (AboutToWait(s.consumer) ==> s.consumer.seen <= s.version)
    && (s.consumer.Waiting? && s.queue != [] ==> s.version != s.consumer.seen || s.waking > 0)
  }

  /** The first `n` entries are new requests, latest first; the rest are retries, oldest first. */
  ghost predicate Ordered<ID>(queue: seq<Entry<ID>>, pushes: nat, n: nat) {
    && n <= |queue|
    && (forall i :: 0 <= i < |queue| ==> queue[i].stamp < pushes && (queue[i].fresh' <==> i < n))
    && (forall i, j :: 0 <= i < j < n ==> queue[i].stamp > queue[j].stamp)
    && (forall i, j :: n <= i < j < |queue| ==> queue[i].stamp < queue[j].stamp)
  }

  ghost predicate InOrder<ID, Res>(s: State<ID, Res>) {
    exists n: nat :: Ordered(s.queue, s.pushes, n)
  }

  /** Neither loop ends before the receiver of responses is dropped. */
  ghost predicate EndsByClosing<ID, Res>(s: State<ID, Res>) {
    s.handler.Stopped? || s.consumer.Ended? ==> s.closed
  }

  ghost predicate Inv<ID(!new), Res>(s: State<ID, Res>) {
    Conserved(s) && Truthful(s) && NoLostWakeup(s) && InOrder(s) && EndsByClosing(s)
  }

  lemma PlacesMonitorStep<ID, Res>(s: State<ID, Res>, id: ID, x: ID)
    ensures Places(Next(s, Monitor(id)), x) == Places(s, x) + if id == x then 1 else 0
  {
    assert ([Entry(id, true, s.pushes)] + s.queue)[1..] == s.queue;
  }

  lemma PlacesRetryStep<ID, Res>(s: State<ID, Res>, step: Step<ID, Res>, x: ID)
    requires Enabled(s, step) && (step.RespondMissing? || step.BackoffExpires?)
    ensures Places(Next(s, step), x) == Places(s, x)
  {
    QueuedAppend(s.queue, Entry(step.id, false, s.pushes), x);
    assert Next(s, step).queue == s.queue + [Entry(step.id, false, s.pushes)];
  }

  lemma PlacesResponseStep<ID, Res>(s: State<ID, Res>, step: Step<ID, Res>, x: ID)
    requires Enabled(s, step) && (step.RespondFound? || step.RespondError? || step.PollReadyFails?)
    ensures Places(Next(s, step), x) - Places(s, x) == if step.PollReadyFails? && step.default' == x then 1 else 0
  {}

  lemma PlacesSendStep<ID, Res>(s: State<ID, Res>, step: Step<ID, Res>, x: ID)
    requires Enabled(s, step) && (step.Deliver? || step.SendFails?)
    ensures Places(Next(s, step), x) == Places(s, x)
  {
    if step.Deliver? {
      DeliveredAppend(s.delivered, (s.handler.id, s.handler.response), x);
    }
  }

  /** A step moves an id from one place to another; only monitoring and a broken service add one. */
  lemma PlacesStep<ID, Res>(s: State<ID, Res>, step: Step<ID, Res>, x: ID)
    requires Enabled(s, step)
    ensures Places(Next(s, step), x) - Places(s, x)
         == if (step.Monitor? && step.id == x) || (step.PollReadyFails? && step.default' == x) then 1 else 0
  {
    if step.Monitor? {
      PlacesMonitorStep(s, step.id, x);
    } else if step.RespondMissing? || step.BackoffExpires? {
      PlacesRetryStep(s, step, x);
    } else if step.RespondFound? || step.RespondError? || step.PollReadyFails? {
      PlacesResponseStep(s, step, x);
    } else if step.Deliver? || step.SendFails? {
      PlacesSendStep(s, step, x);
    }
  }

  lemma AddedStep<ID, Res>(s: State<ID, Res>, step: Step<ID, Res>, x: ID)
    requires Enabled(s, step)
    ensures (Next(s, step).monitored[x] + Next(s, step).phantoms[x]) - (s.monitored[x] + s.phantoms[x])
         == if (step.Monitor? && step.id == x) || (step.PollReadyFails? && step.default' == x) then 1 else 0
  {}

  lemma ConservedStep<ID(!new), Res>(s: State<ID, Res>, step: Step<ID, Res>)
    requires Conserved(s) && Enabled(s, step)
    ensures Conserved(Next(s, step))
  {
    var t := Next(s, step);
    forall x: ID ensures Places(t, x) == t.monitored[x] + t.phantoms[x] {
      PlacesStep(s, step, x);
      AddedStep(s, step, x);
    }
  }

  lemma TruthfulStep<ID, Res>(s: State<ID, Res>, step: Step<ID, Res>)
    requires Truthful(s) && Enabled(s, step)
    ensures Truthful(Next(s, step))
  {}

  lemma NoLostWakeupStep<ID, Res>(s: State<ID, Res>, step: Step<ID, Res>)
    requires NoLostWakeup(s) && Enabled(s, step)
    ensures NoLostWakeup(Next(s, step))
  {}

  lemma EndsByClosingStep<ID, Res>(s: State<ID, Res>, step: Step<ID, Res>)
    requires EndsByClosing(s) && Enabled(s, step)
    ensures EndsByClosing(Next(s, step))
  {}

  lemma OrderedFront<ID>(queue: seq<Entry<ID>>, pushes: nat, n: nat, id: ID)
    requires Ordered(queue, pushes, n)
    ensures Ordered([Entry(id, true, pushes)] + queue, pushes + 1, n + 1)
  {
    var q := [Entry(id, true, pushes)] + queue;
    assert forall i :: 1 <= i < |q| ==> q[i] == queue[i - 1];
  }

  lemma OrderedBack<ID>(queue: seq<Entry<ID>>, pushes: nat, n: nat, id: ID)
    requires Ordered(queue, pushes, n)
    ensures Ordered(queue + [Entry(id, false, pushes)], pushes + 1, n)
  {}

  lemma OrderedPop<ID>(queue: seq<Entry<ID>>, pushes: nat, n: nat)
    requires Ordered(queue, pushes, n) && queue != []
    ensures Ordered(queue[1..], pushes, if n > 0 then n - 1 else 0)
  {
    assert forall i :: 0 <= i < |queue[1..]| ==> queue[1..][i] == queue[i + 1];
  }

  lemma InOrderStep<ID, Res>(s: State<ID, Res>, step: Step<ID, Res>)
    requires InOrder(s) && Enabled(s, step)
    ensures InOrder(Next(s, step))
  {
    var n: nat :| Ordered(s.queue, s.pushes, n);
    var t := Next(s, step);
    if step.Monitor? {
      OrderedFront(s.queue, s.pushes, n, step.id);
      assert Ordered(t.queue, t.pushes, n + 1);
    } else if step.RespondMissing? || step.BackoffExpires? {
      OrderedBack(s.queue, s.pushes, n, step.id);
      assert Ordered(t.queue, t.pushes, n);
    } else if step.Pop? && s.queue != [] {
      OrderedPop(s.queue, s.pushes, n);
      assert Ordered(t.queue, t.pushes, if n > 0 then n - 1 else 0);
    } else {
      SameQueue(s, step);
      assert Ordered(t.queue, t.pushes, n);
    }
  }

  lemma SameQueue<ID, Res>(s: State<ID, Res>, step: Step<ID, Res>)
    requires Enabled(s, step) && !step.Monitor? && !step.RespondMissing? && !step.BackoffExpires?
    requires step.Pop? ==> s.queue == []
    ensures Next(s, step).queue == s.queue && Next(s, step).pushes == s.pushes
  {}

  lemma InvStep<ID(!new), Res>(s: State<ID, Res>, step: Step<ID, Res>)
    requires Inv(s) && Enabled(s, step)
    ensures Inv(Next(s, step))
  {
    ConservedStep(s, step);
    TruthfulStep(s, step);
    NoLostWakeupStep(s, step);
    InOrderStep(s, step);
    EndsByClosingStep(s, step);
  }

  /** The invariant holds after every run, whatever the interleaving. */
  lemma {:induction false} InvAfter<ID(!new), Res>(s: State<ID, Res>, steps: seq<Step<ID, Res>>)
    requires Inv(s) && IsRun(s, steps)
    ensures Inv(After(s, steps))
    decreases steps
  {
    if steps != [] {
      InvStep(s, steps[0]);
      InvAfter(Next(s, steps[0]), steps[1..]);
    }
  }

  lemma InitInv<ID(!new), Res>()
    ensures Inv(Init<ID, Res>())
  {
    assert Ordered(Init<ID, Res>().queue, 0, 0);
  }

  // ----- the guarantees, for every run -----

  /** All guarantees hold after every run from the start. */
  lemma EveryRun<ID(!new), Res>(steps: seq<Step<ID, Res>>)
    requires IsRun(Init<ID, Res>(), steps)
    ensures Inv(After(Init<ID, Res>(), steps))
  {
    InitInv<ID, Res>();
    InvAfter(Init<ID, Res>(), steps);
  }

  ghost predicate ServiceBreaks<ID, Res>(steps: seq<Step<ID, Res>>) {
    exists i :: 0 <= i < |steps| && steps[i].PollReadyFails?
  }

  lemma {:induction false} Phantoms<ID(!new), Res>(s: State<ID, Res>, steps: seq<Step<ID, Res>>)
    requires IsRun(s, steps)
    ensures |After(s, steps).phantoms| >= |s.phantoms|
    ensures ServiceBreaks(steps) <==> After(s, steps).phantoms != s.phantoms
    decreases steps
  {
    if steps != [] {
      var t := Next(s, steps[0]);
      Phantoms(t, steps[1..]);
      PhantomStep(s, steps[0]);
      BreaksAtOrAfter(steps);
    }
  }

  lemma PhantomStep<ID(!new), Res>(s: State<ID, Res>, step: Step<ID, Res>)
    requires Enabled(s, step)
    ensures if step.PollReadyFails? then |Next(s, step).phantoms| == |s.phantoms| + 1
      else Next(s, step).phantoms == s.phantoms
  {
    if step.PollReadyFails? {
      assert Next(s, step).phantoms == s.phantoms + multiset{step.default'};
    }
  }

  lemma BreaksAtOrAfter<ID(!new), Res>(steps: seq<Step<ID, Res>>)
    requires steps != []
    ensures ServiceBreaks(steps) <==> steps[0].PollReadyFails? || ServiceBreaks(steps[1..])
  {
    if ServiceBreaks(steps[1..]) {
      var i :| 0 <= i < |steps[1..]| && steps[1..][i].PollReadyFails?;
      assert steps[i + 1].PollReadyFails?;
    }
    if ServiceBreaks(steps) && !steps[0].PollReadyFails? {
      var i :| 0 <= i < |steps| && steps[i].PollReadyFails?;
      assert steps[1..][i - 1].PollReadyFails?;
    }
  }

  /**
   * Until cancellation, every id is queued, with the service, backing off or delivered exactly as
   * often as it has been monitored -- if and only if the service never breaks.
   */
  lemma ExactlyOnePlace<ID(!new), Res>(steps: seq<Step<ID, Res>>)
    requires IsRun(Init<ID, Res>(), steps) && !After(Init<ID, Res>(), steps).closed
    ensures var s := After(Init<ID, Res>(), steps);
      (forall x: ID :: Queued(s.queue, x) + WithService(s, x) + s.backingOff[x] + Delivered(s.delivered, x)
        == s.monitored[x])
      <==> !ServiceBreaks(steps)
  {
    var s := After(Init<ID, Res>(), steps);
    EveryRun(steps);
    Phantoms(Init<ID, Res>(), steps);
    assert forall x: ID :: Places(s, x) == s.monitored[x] + s.phantoms[x];
    if s.phantoms != multiset{} {
      var x :| x in s.phantoms;
      assert Places(s, x) > s.monitored[x];
    }
  }

  /** A service that breaks at once: an id nobody asked for is backing off. */
  lemma BrokenServiceWitness()
    ensures var steps: seq<Step<nat, nat>> := [PollReadyFails(0)];
      && IsRun(Init<nat, nat>(), steps)
      && After(Init<nat, nat>(), steps).monitored == multiset{}
      && After(Init<nat, nat>(), steps).backingOff[0] == 1
  {
    var steps: seq<Step<nat, nat>> := [PollReadyFails(0)];
    assert steps[1..] == [];
    assert IsRun(Next(Init<nat, nat>(), steps[0]), steps[1..]);
  }

  /** Steps of the consumer and of pushers finishing their wake-up; nothing new arrives. */
  predicate Internal<ID, Res>(step: Step<ID, Res>) {
    step.Wake? || step.StartPoll? || step.Check? || step.Pop? || step.Woken?
  }

  /**
   * The queue never gets stuck: as long as there is something on it and the monitor has not been
   * cancelled, the tasks that are already under way get its front to the service's door, once the
   * response that may be on its way has been taken by its receiver.
   */
  lemma FrontIsTaken<ID(!new), Res>(s: State<ID, Res>) returns (steps: seq<Step<ID, Res>>)
    requires Inv(s) && !s.closed && s.queue != [] && !s.consumer.Yielding?
    ensures IsRun(s, steps) && |steps| <= if s.handler.Sending? then 5 else 4
    ensures forall i :: 0 <= i < |steps| ==> Internal(steps[i]) || (i == 0 && steps[i].Deliver?)
    ensures After(s, steps).consumer == Yielding(s.queue[0].id) && After(s, steps).queue == s.queue[1..]
  {
    if s.handler.Sending? {
      var next: Step<ID, Res> := Deliver;
      InvStep(s, next);
      var rest := FrontIsTakenWhenReady(Next(s, next));
      steps := [next] + rest;
      assert steps[1..] == rest;
      assert forall i :: 0 <= i < |rest| ==> rest[i] in rest;
    } else {
      steps := FrontIsTakenWhenReady(s);
      assert forall i :: 0 <= i < |steps| ==> steps[i] in steps;
    }
  }

  /** The same while no response is being sent. */
  lemma FrontIsTakenWhenReady<ID(!new), Res>(s: State<ID, Res>) returns (steps: seq<Step<ID, Res>>)
    requires Inv(s) && !s.closed && s.queue != [] && !s.consumer.Yielding? && s.handler.Ready?
    ensures IsRun(s, steps) && |steps| <= 4
    ensures forall step :: step in steps ==> Internal(step)
    ensures After(s, steps).consumer == Yielding(s.queue[0].id) && After(s, steps).queue == s.queue[1..]
  {
    if s.consumer.Idle? || (s.consumer.Waiting? && s.version == s.consumer.seen) {
      var next: Step<ID, Res> := if s.consumer.Idle? then StartPoll else Wake;
      InvStep(s, next);
      var rest := FrontIsTakenSoon(Next(s, next));
      steps := [next] + rest;
      assert steps[1..] == rest;
    } else {
      steps := FrontIsTakenSoon(s);
    }
  }

  /** The same from a state in which the consumer has an unseen version or is not waiting. */
  lemma FrontIsTakenSoon<ID(!new), Res>(s: State<ID, Res>) returns (steps: seq<Step<ID, Res>>)
    requires Inv(s) && !s.closed && s.queue != [] && s.handler.Ready?
    requires s.consumer.Popping? || s.consumer.Checking? || (s.consumer.Waiting? && s.version != s.consumer.seen)
    ensures IsRun(s, steps)
    ensures |steps| <= if s.consumer.Popping? then 1 else if s.consumer.Checking? then 2 else 3
    ensures forall step :: step in steps ==> Internal(step)
    ensures After(s, steps).consumer == Yielding(s.queue[0].id) && After(s, steps).queue == s.queue[1..]
    decreases if s.consumer.Popping? then 0 else if s.consumer.Checking? then 1 else 2
  {
    if s.consumer.Popping? {
      steps := [Pop];
      assert steps[1..] == [];
      assert IsRun(Next(s, Pop), steps[1..]);
    } else {
      var next: Step<ID, Res> := if s.consumer.Checking? then Check else Woken;
      InvStep(s, next);
      var rest := FrontIsTakenSoon(Next(s, next));
      steps := [next] + rest;
      assert steps[1..] == rest;
    }
  }

  lemma StepWhileSending<ID, Res>(s: State<ID, Res>, step: Step<ID, Res>)
      returns (before: seq<Entry<ID>>, after: seq<Entry<ID>>)
    requires s.handler.Sending? && Enabled(s, step) && !step.Deliver? && !step.SendFails?
    ensures var t := Next(s, step);
      && t.handler == s.handler && t.consumer == s.consumer && t.delivered == s.delivered
      && t.queue == before + s.queue + after
  {
    before := if step.Monitor? then [Entry(step.id, true, s.pushes)] else [];
    after := if step.BackoffExpires? then [Entry(step.id, false, s.pushes)] else [];
  }

  /**
   * Until that response has been taken nothing leaves the queue, whatever else happens: requests are
   * added before what is on it and retries after it.
   */
  lemma {:induction false} FrontWaitsForSend<ID, Res>(s: State<ID, Res>, steps: seq<Step<ID, Res>>)
      returns (before: seq<Entry<ID>>, after: seq<Entry<ID>>)
    requires s.handler.Sending? && IsRun(s, steps)
    requires forall step :: step in steps ==> !step.Deliver? && !step.SendFails?
    ensures var t := After(s, steps);
      && t.handler == s.handler && t.consumer == s.consumer && t.delivered == s.delivered
      && t.queue == before + s.queue + after
    decreases steps
  {
    if steps == [] {
      before, after := [], [];
      assert [] + s.queue + [] == s.queue;
    } else {
      var inner, outer := StepWhileSending(s, steps[0]);
      before, after := FrontWaitsForSend(Next(s, steps[0]), steps[1..]);
      Nested(before, inner, s.queue, outer, after);
      before, after := before + inner, outer + after;
    }
  }

  lemma RunFirst<ID, Res>(s: State<ID, Res>, step: Step<ID, Res>, rest: seq<Step<ID, Res>>)
    requires Enabled(s, step) && IsRun(Next(s, step), rest)
    ensures IsRun(s, [step] + rest) && After(s, [step] + rest) == After(Next(s, step), rest)
  {
    assert ([step] + rest)[1..] == rest;
  }

  /** The first request is on its way to the service. */
  lemma FirstRequestPopped(s: State<nat, nat>, rest: seq<Step<nat, nat>>)
    requires s == Init<nat, nat>().(pushes := 1, waking := 1, monitored := multiset{1}, consumer := Yielding(1))
    requires IsRun(s, rest)
    ensures var steps := [Monitor(1)] + ([StartPoll] + ([Check] + ([Pop] + rest)));
      IsRun(Init<nat, nat>(), steps) && After(Init<nat, nat>(), steps) == After(s, rest)
  {
    var s1 := Next(Init<nat, nat>(), Monitor(1));
    var s2 := Next(s1, StartPoll);
    var s3 := Next(s2, Check);
    assert s3.queue[1..] == [] && Next(s3, Pop) == s;
    RunFirst(s3, Pop, rest);
    RunFirst(s2, Check, [Pop] + rest);
    RunFirst(s1, StartPoll, [Check] + ([Pop] + rest));
    RunFirst(Init<nat, nat>(), Monitor(1), [StartPoll] + ([Check] + ([Pop] + rest)));
  }

  lemma SecondRequestWaits(s: State<nat, nat>)
    requires s.handler.Ready? && s.consumer == Yielding(1) && s.queue == [] && s.pushes == 1
    ensures var rest := [CallService] + ([RespondFound(1, 7)] + ([Monitor(2)] + []));
      IsRun(s, rest) && After(s, rest).handler == Sending(1, 7) && After(s, rest).queue == [Entry(2, true, 1)]
  {
    var s1 := Next(s, CallService);
    var s2 := Next(s1, RespondFound(1, 7));
    RunFirst(s2, Monitor(2), []);
    RunFirst(s1, RespondFound(1, 7), [Monitor(2)] + []);
    RunFirst(s, CallService, [RespondFound(1, 7)] + ([Monitor(2)] + []));
  }

  /** A request made while the response to the first one is being sent waits on the queue. */
  lemma WaitingRequestWitness() returns (steps: seq<Step<nat, nat>>)
    ensures steps == [Monitor(1), StartPoll, Check, Pop, CallService, RespondFound(1, 7), Monitor(2)]
    ensures IsRun(Init<nat, nat>(), steps)
    ensures After(Init<nat, nat>(), steps).handler == Sending(1, 7)
    ensures After(Init<nat, nat>(), steps).queue == [Entry(2, true, 1)]
  {
    var s := Init<nat, nat>().(pushes := 1, waking := 1, monitored := multiset{1}, consumer := Yielding(1));
    var rest: seq<Step<nat, nat>> := [CallService] + ([RespondFound(1, 7)] + ([Monitor(2)] + []));
    SecondRequestWaits(s);
    FirstRequestPopped(s, rest);
    steps := [Monitor(1)] + ([StartPoll] + ([Check] + ([Pop] + rest)));
  }

  lemma Nested<T>(a: seq<T>, b: seq<T>, c: seq<T>, d: seq<T>, e: seq<T>)
    ensures a + (b + c + d) + e == (a + b) + c + (d + e)
  {}

  /**
   * New requests go first, the latest of them; only without any is a retry polled, the one that has
   * been waiting longest.
   */
  lemma PopPriority<ID, Res>(s: State<ID, Res>, e: Entry<ID>)
    requires InOrder(s) && s.queue != [] && e in s.queue[1..]
    ensures e.fresh' ==> s.queue[0].fresh' && e.stamp < s.queue[0].stamp
    ensures !e.fresh' && !s.queue[0].fresh' ==> s.queue[0].stamp < e.stamp
  {
    var n: nat :| Ordered(s.queue, s.pushes, n);
    var i :| 0 <= i < |s.queue[1..]| && s.queue[1..][i] == e;
    assert s.queue[i + 1] == e;
  }

  /**
   * A new request goes before all that is queued, and a retry after it: at once if the object was not
   * found, and only once its backoff has expired if polling failed.
   */
  lemma WhereIdsGo<ID, Res>(s: State<ID, Res>, step: Step<ID, Res>)
    requires Enabled(s, step)
    ensures step.Monitor? ==> Next(s, step).queue == [Entry(step.id, true, s.pushes)] + s.queue
    ensures step.RespondMissing? || step.BackoffExpires? ==>
      Next(s, step).queue == s.queue + [Entry(step.id, false, s.pushes)]
    ensures step.RespondError? ==>
      Next(s, step).queue == s.queue && Next(s, step).backingOff == s.backingOff + multiset{step.id}
    ensures step.BackoffExpires? ==> Next(s, step).backingOff == s.backingOff - multiset{step.id}
  {}

  ghost function Calls<ID, Res>(steps: seq<Step<ID, Res>>): nat {
    if steps == [] then 0 else (if steps[0].CallService? then 1 else 0) + Calls(steps[1..])
  }

  /** After cancellation at most one more id reaches the service, and nothing more is delivered. */
  lemma {:induction false} CancellationStops<ID, Res>(s: State<ID, Res>, steps: seq<Step<ID, Res>>)
    requires s.closed && IsRun(s, steps)
    ensures Calls(steps) <= if s.consumer.Popping? || s.consumer.Yielding? then 1 else 0
    ensures After(s, steps).delivered == s.delivered
    decreases steps
  {
    if steps != [] {
      CancellationStops(Next(s, steps[0]), steps[1..]);
    }
  }

  // ----- what a schedule asks for and what the service answers in it -----

  ghost function Requests<ID, Res>(steps: seq<Step<ID, Res>>, x: ID): nat {
    if steps == [] then 0 else (if steps[0] == Monitor(x) then 1 else 0) + Requests(steps[1..], x)
  }

  /** How often the service breaks and leaves the id as its default. */
  ghost function Breaks<ID, Res>(steps: seq<Step<ID, Res>>, x: ID): nat {
    if steps == [] then 0 else (if steps[0] == PollReadyFails(x) then 1 else 0) + Breaks(steps[1..], x)
  }

  lemma {:induction false} Counted<ID, Res>(s: State<ID, Res>, steps: seq<Step<ID, Res>>, x: ID)
    requires IsRun(s, steps)
    ensures After(s, steps).monitored[x] == s.monitored[x] + Requests(steps, x)
    ensures After(s, steps).phantoms[x] == s.phantoms[x] + Breaks(steps, x)
    decreases steps
  {
    if steps != [] {
      Counted(Next(s, steps[0]), steps[1..], x);
    }
  }

  lemma {:induction false} Answered<ID, Res>(s: State<ID, Res>, steps: seq<Step<ID, Res>>, d: (ID, Res))
    requires IsRun(s, steps) && d in After(s, steps).answers
    ensures d in s.answers || RespondFound(d.0, d.1) in steps
    decreases steps
  {
    if steps != [] {
      Answered(Next(s, steps[0]), steps[1..], d);
    }
  }

  /** The responses of the service, in the order in which it gave them. */
  ghost function Founds<ID, Res>(steps: seq<Step<ID, Res>>): seq<(ID, Res)> {
    if steps == [] then [] else Found(steps[0]) + Founds(steps[1..])
  }

  ghost function Pending<ID, Res>(s: State<ID, Res>): seq<(ID, Res)> {
    if s.handler.Sending? then [(s.handler.id, s.handler.response)] else []
  }

  /** From what was delivered or being sent and the responses since, all but the last is delivered. */
  ghost predicate DeliversUpToLast<ID, Res>(all: seq<(ID, Res)>, t: State<ID, Res>) {
    if t.handler.Stopped? then all != [] && t.delivered == all[..|all| - 1]
    else all == t.delivered + Pending(t)
  }

  lemma SameDelivery<ID, Res>(s: State<ID, Res>, step: Step<ID, Res>)
    requires Enabled(s, step) && !step.RespondFound? && !step.Deliver? && !step.SendFails?
    ensures Next(s, step).handler == s.handler && Next(s, step).delivered == s.delivered
  {}

  ghost function Found<ID, Res>(step: Step<ID, Res>): seq<(ID, Res)> {
    if step.RespondFound? then [(step.id, step.response)] else []
  }

  lemma FoundStep<ID, Res>(s: State<ID, Res>, step: Step<ID, Res>)
    requires Enabled(s, step) && !s.handler.Stopped?
    ensures DeliversUpToLast(s.delivered + Pending(s) + Found(step), Next(s, step))
  {
    var t := Next(s, step);
    if step.RespondFound? {
      assert t.delivered == s.delivered && Pending(s) == [] && Pending(t) == Found(step);
      assert s.delivered + [] + Pending(t) == s.delivered + Pending(t);
    } else {
      assert s.delivered + Pending(s) + [] == s.delivered + Pending(s);
      if step.Deliver? {
        assert t.delivered == s.delivered + Pending(s) && Pending(t) == [];
        assert t.delivered + [] == t.delivered;
      } else if step.SendFails? {
        assert t.handler.Stopped? && t.delivered == s.delivered && |Pending(s)| == 1;
      } else {
        SameDelivery(s, step);
      }
    }
  }

  lemma Regroup<T>(a: seq<T>, b: seq<T>, c: seq<T>, d: seq<T>)
    ensures a + b + (c + d) == (a + b + c) + d
  {}

  /** Responses are delivered in the order in which the service gave them. */
  lemma {:induction false} DeliveredInOrder<ID, Res>(s: State<ID, Res>, steps: seq<Step<ID, Res>>)
    requires IsRun(s, steps) && !s.handler.Stopped?
    ensures DeliversUpToLast(s.delivered + Pending(s) + Founds(steps), After(s, steps))
    decreases steps
  {
    if steps == [] {
      assert s.delivered + Pending(s) + [] == s.delivered + Pending(s);
    } else {
      var next := Next(s, steps[0]);
      var all := s.delivered + Pending(s) + Found(steps[0]);
      FoundStep(s, steps[0]);
      Regroup(s.delivered, Pending(s), Found(steps[0]), Founds(steps[1..]));
      assert s.delivered + Pending(s) + Founds(steps) == all + Founds(steps[1..]);
      if next.handler.Stopped? {
        NothingAfterStop(next, steps[1..]);
        assert all + [] == all;
      } else {
        DeliveredInOrder(next, steps[1..]);
      }
    }
  }

  lemma {:induction false} NothingAfterStop<ID, Res>(s: State<ID, Res>, steps: seq<Step<ID, Res>>)
    requires IsRun(s, steps) && s.handler.Stopped?
    ensures Founds(steps) == [] && After(s, steps).handler.Stopped? && After(s, steps).delivered == s.delivered
    decreases steps
  {
    if steps != [] {
      NothingAfterStop(Next(s, steps[0]), steps[1..]);
    }
  }

  /** How often polling an id has failed since it was last found, starting from `before`. */
  ghost function Failures<ID, Res>(before: nat, steps: seq<Step<ID, Res>>, x: ID): nat
    decreases steps
  {
    if steps == [] then before
    else
      var now :=
        if steps[0].RespondFound? && steps[0].id == x then 0
        else if steps[0] == RespondError(x) || steps[0] == PollReadyFails(x) then before + 1
        else before;
      Failures(now, steps[1..], x)
  }

  /** The backoff of an id is at the failures since it was last found. */
  lemma {:induction false} AttemptsCount<ID, Res>(s: State<ID, Res>, steps: seq<Step<ID, Res>>, x: ID)
    requires IsRun(s, steps)
    ensures Attempts(After(s, steps).attempts, x) == Failures(Attempts(s.attempts, x), steps, x)
    decreases steps
  {
    if steps != [] {
      AttemptsStep(s, steps[0], x);
      AttemptsCount(Next(s, steps[0]), steps[1..], x);
    }
  }

  lemma AttemptsStep<ID, Res>(s: State<ID, Res>, step: Step<ID, Res>, x: ID)
    requires Enabled(s, step)
    ensures Attempts(Next(s, step).attempts, x) ==
      if step.RespondFound? && step.id == x then 0
      else if step == RespondError(x) || step == PollReadyFails(x) then Attempts(s.attempts, x) + 1
      else Attempts(s.attempts, x)
  {
    if step.RespondFound? {
      assert Next(s, step).attempts == s.attempts - {step.id};
    } else if step.RespondError? {
      assert Next(s, step).attempts == s.attempts[step.id := Attempts(s.attempts, step.id) + 1];
    } else if step.PollReadyFails? {
      assert Next(s, step).attempts == s.attempts[step.default' := Attempts(s.attempts, step.default') + 1];
    } else {
      SameAttempts(s, step);
    }
  }

  lemma SameAttempts<ID, Res>(s: State<ID, Res>, step: Step<ID, Res>)
    requires Enabled(s, step) && !step.RespondFound? && !step.RespondError? && !step.PollReadyFails?
    ensures Next(s, step).attempts == s.attempts
  {
    if step.StartPoll? || step.Check? || step.Pop? || step.Woken? || step.WokenByClose? || step.CallService? {
      assert Next(s, step) == Advanced(s, step.Woken?);
      AdvancedKeepsAttempts(s, step.Woken?);
    } else if step.Monitor? {
      assert Next(s, step).attempts == PushFront(s, step.id).attempts;
    } else if step.RespondMissing? {
      assert Next(s, step).attempts == s.attempts;
    } else if step.BackoffExpires? {
      assert Next(s, step).attempts == s.attempts;
    } else {
      assert step.Wake? || step.Deliver? || step.SendFails? || step.Close?;
    }
  }

  lemma AdvancedKeepsAttempts<ID, Res>(s: State<ID, Res>, woken: bool)
    requires !s.consumer.Ended?
    ensures Advanced(s, woken).attempts == s.attempts
  {}

  // ----- what the consumer sees -----

  /** Each time it is polled the consumer has a receiver that has seen nothing yet, so it wakes up at once. */
  lemma ReceiverStartsOver<ID, Res>(s: State<ID, Res>)
    requires s.handler.Ready? && s.consumer.Idle? && !s.closed && s.queue == [] && s.version > 0
    ensures var steps: seq<Step<ID, Res>> := [StartPoll] + ([Check] + ([Pop] + []));
      IsRun(s, steps) && Enabled(After(s, steps), Woken)
  {
    var s1 := Next(s, StartPoll);
    var s2 := Next(s1, Check);
    RunFirst(s2, Pop, []);
    RunFirst(s1, Check, [Pop] + []);
    RunFirst(s, StartPoll, [Check] + ([Pop] + []));
  }

  /** A wake-up is seen once: with nothing on the queue the consumer waits for the next one. */
  lemma WokenOnce<ID, Res>(s: State<ID, Res>)
    requires Enabled(s, Woken) && !s.closed && s.queue == []
    ensures var steps: seq<Step<ID, Res>> := [Woken] + ([Check] + ([Pop] + []));
      IsRun(s, steps) && After(s, steps).consumer.Waiting? && !Enabled(After(s, steps), Woken)
  {
    var s1 := Next(s, Woken);
    var s2 := Next(s1, Check);
    RunFirst(s2, Pop, []);
    RunFirst(s1, Check, [Pop] + []);
    RunFirst(s, Woken, [Check] + ([Pop] + []));
  }

  /** A consumer that waits when the receiver of responses is dropped ends. */
  lemma CloseEnds<ID, Res>(s: State<ID, Res>)
    requires Enabled(s, WokenByClose)
    ensures var steps: seq<Step<ID, Res>> := [WokenByClose] + ([Check] + []);
      IsRun(s, steps) && After(s, steps).consumer.Ended?
  {
    RunFirst(Next(s, WokenByClose), Check, []);
    RunFirst(s, WokenByClose, [Check] + []);
  }

  // ----- the monitor as an object -----

  /** Every id has as many places more as `ids` has copies of it. */
  ghost predicate Adds<ID(!new), Res>(s: State<ID, Res>, t: State<ID, Res>, ids: multiset<ID>) {
    forall x: ID :: Places(t, x) == Places(s, x) + ids[x]
  }

  ghost function NewIds<ID, Res>(step: Step<ID, Res>): multiset<ID> {
    match step
    case Monitor(id) => multiset{id}
    case PollReadyFails(id) => multiset{id}
    case _ => multiset{}
  }

  lemma StepKeeps<ID(!new), Res>(s: State<ID, Res>, step: Step<ID, Res>)
    requires Inv(s) && Enabled(s, step)
    ensures Inv(Next(s, step)) && Adds(s, Next(s, step), NewIds(step))
  {
    InvStep(s, step);
    forall x: ID ensures Places(Next(s, step), x) == Places(s, x) + NewIds(step)[x] {
      PlacesStep(s, step, x);
    }
  }

  /**
   * The shared queue, the wake-up channel and the two loops, one method per atomic action. Each keeps
   * the invariant, and each says which ids it adds to those the monitor has to account for.
   */
  class PollingMonitor<ID(==,!new), Res(==)> {
    var queue: seq<Entry<ID>>
    var pushes: nat
    var version: nat
    var waking: nat
    var consumer: Consumer<ID>
    var inFlight: multiset<ID>
    var handler: Handler<ID, Res>
    var backingOff: multiset<ID>
    var attempts: map<ID, nat>
    var delivered: seq<(ID, Res)>
    var closed: bool
    ghost var monitored: multiset<ID>
    ghost var answers: set<(ID, Res)>
    ghost var lost: multiset<ID>
    ghost var phantoms: multiset<ID>

    ghost function Snapshot(): State<ID, Res> reads this {
      State(queue, pushes, version, waking, consumer, inFlight, handler, backingOff, attempts, delivered, closed,
            monitored, answers, lost, phantoms)
    }

    ghost predicate Valid() reads this {
      Inv(Snapshot())
    }

    constructor ()
      ensures Valid() && Snapshot() == Init<ID, Res>()
    {
      queue, pushes, version, waking, consumer := [], 0, 0, 0, Idle;
      inFlight, handler, backingOff, attempts := multiset{}, Ready, multiset{}, map[];
      delivered, closed := [], false;
      monitored, answers, lost, phantoms := multiset{}, {}, multiset{}, multiset{};
      new;
      InitInv<ID, Res>();
    }

    /** `Queue::push_front`, up to the push. */
    method PushToFront(id: ID)
      modifies this`queue, this`pushes, this`waking
      ensures Snapshot() == PushFront(old(Snapshot()), id)
    {
      queue, pushes, waking := [Entry(id, true, pushes)] + queue, pushes + 1, waking + 1;
    }

    /** `Queue::push_back`, up to the push. */
    method PushToBack(id: ID)
      modifies this`queue, this`pushes, this`waking
      ensures Snapshot() == PushBack(old(Snapshot()), id)
    {
      queue, pushes, waking := queue + [Entry(id, false, pushes)], pushes + 1, waking + 1;
    }

    /** `Backoffs::next_backoff`, and the task that awaits it. */
    method StartBackoff(id: ID)
      modifies this`attempts, this`backingOff
      ensures Snapshot() == BackOff(old(Snapshot()), id)
    {
      attempts := attempts[id := Attempts(attempts, id) + 1];
      backingOff := backingOff + multiset{id};
    }

    /** `Backoffs::remove`, and the start of the send. */
    method StartSend(id: ID, response: Res)
      modifies this`attempts, this`handler
      ensures Snapshot() == old(Snapshot()).(attempts := old(attempts) - {id}, handler := Sending(id, response))
    {
      attempts := attempts - {id};
      handler := Sending(id, response);
    }

    /** The loop body of the stream that feeds the service, cut at its awaits. */
    method Advance(woken: bool)
      requires !consumer.Ended?
      modifies this`consumer, this`queue, this`inFlight
      ensures Snapshot() == Advanced(old(Snapshot()), woken)
    {
      match consumer
      case Idle => consumer := Checking(0);
      case Checking(seen) => consumer := if closed then Ended else Popping(seen);
      case Popping(seen) =>
        if queue == [] {
          consumer := Waiting(seen);
        } else {
          consumer, queue := Yielding(queue[0].id), queue[1..];
        }
      case Waiting(seen) => consumer := Checking(if woken then version else seen);
      case Yielding(id) => consumer, inFlight := Idle, inFlight + multiset{id};
    }

    /** `monitor`, up to the push: one more id to account for, the next to be polled. */
    method Push(id: ID)
      requires Valid()
      modifies this`queue, this`pushes, this`waking, this`monitored
      ensures Valid() && Snapshot() == Next(old(Snapshot()), Monitor(id))
      ensures Adds(old(Snapshot()), Snapshot(), multiset{id}) && queue[0].id == id
    {
      ghost var before := Snapshot();
      PushToFront(id);
      monitored := monitored + multiset{id};
      assert Snapshot() == Next(before, Monitor(id));
      StepKeeps(before, Monitor(id));
    }

    /** The send that follows every push: a consumer that waits has something to wake up for. */
    method SendWake()
      requires Valid() && Enabled(Snapshot(), Wake)
      modifies this`version, this`waking
      ensures Valid() && Snapshot() == Next(old(Snapshot()), Wake)
      ensures consumer.Waiting? ==> version != consumer.seen
    {
      ghost var before := Snapshot();
      version, waking := version + 1, waking - 1;
      assert Snapshot() == Next(before, Wake);
      StepKeeps(before, Wake);
    }

    /** One action of the stream that feeds the service; an id it pops is kept track of. */
    method ConsumerStep(step: Step<ID, Res>)
      requires step.StartPoll? || step.Check? || step.Pop? || step.Woken? || step.WokenByClose? || step.CallService?
      requires Valid() && Enabled(Snapshot(), step)
      modifies this`consumer, this`queue, this`inFlight
      ensures Valid() && Snapshot() == Next(old(Snapshot()), step)
      ensures Adds(old(Snapshot()), Snapshot(), multiset{})
    {
      ghost var before := Snapshot();
      Advance(step.Woken?);
      assert Snapshot() == Next(before, step);
      StepKeeps(before, step);
    }

    /** The loop over responses: the object was found, so the response is sent. */
    method HandleFound(id: ID, response: Res)
      requires Valid() && Enabled(Snapshot(), RespondFound(id, response))
      modifies this`inFlight, this`attempts, this`handler, this`answers
      ensures Valid() && Snapshot() == Next(old(Snapshot()), RespondFound(id, response))
      ensures Adds(old(Snapshot()), Snapshot(), multiset{})
    {
      ghost var before := Snapshot();
      inFlight, answers := inFlight - multiset{id}, answers + {(id, response)};
      StartSend(id, response);
      assert Snapshot() == Next(before, RespondFound(id, response));
      StepKeeps(before, RespondFound(id, response));
    }

    /** The object was not found: to the back of the queue, up to the push. */
    method HandleMissing(id: ID)
      requires Valid() && Enabled(Snapshot(), RespondMissing(id))
      modifies this`inFlight, this`queue, this`pushes, this`waking
      ensures Valid() && Snapshot() == Next(old(Snapshot()), RespondMissing(id))
      ensures Adds(old(Snapshot()), Snapshot(), multiset{})
    {
      ghost var before := Snapshot();
      inFlight := inFlight - multiset{id};
      PushToBack(id);
      assert Snapshot() == Next(before, RespondMissing(id));
      StepKeeps(before, RespondMissing(id));
    }

    /** Polling failed: the id waits for its next backoff. */
    method HandleError(id: ID)
      requires Valid() && Enabled(Snapshot(), RespondError(id))
      modifies this`inFlight, this`backingOff, this`attempts
      ensures Valid() && Snapshot() == Next(old(Snapshot()), RespondError(id))
      ensures Adds(old(Snapshot()), Snapshot(), multiset{})
    {
      ghost var before := Snapshot();
      inFlight := inFlight - multiset{id};
      StartBackoff(id);
      assert Snapshot() == Next(before, RespondError(id));
      StepKeeps(before, RespondError(id));
    }

    /** `poll_ready` failed: the default id backs off although nobody asked for it. */
    method HandleBroken(id: ID)
      requires Valid() && Enabled(Snapshot(), PollReadyFails(id))
      modifies this`backingOff, this`attempts, this`phantoms
      ensures Valid() && Snapshot() == Next(old(Snapshot()), PollReadyFails(id))
      ensures Adds(old(Snapshot()), Snapshot(), multiset{id})
    {
      ghost var before := Snapshot();
      StartBackoff(id);
      phantoms := phantoms + multiset{id};
      assert Snapshot() == Next(before, PollReadyFails(id));
      StepKeeps(before, PollReadyFails(id));
    }

    /** The end of the send: a response the service gave is delivered, or the receiver is gone. */
    method FinishSend()
      requires Valid() && handler.Sending?
      modifies this`handler, this`delivered, this`lost
      ensures Valid() && Snapshot() == Next(old(Snapshot()), if old(closed) then SendFails else Deliver)
      ensures Adds(old(Snapshot()), Snapshot(), multiset{})
      ensures !closed ==> |delivered| == |old(delivered)| + 1 && delivered[|delivered| - 1] in answers
    {
      ghost var before := Snapshot();
      if closed {
        lost, handler := lost + multiset{handler.id}, Stopped;
      } else {
        delivered, handler := delivered + [(handler.id, handler.response)], Ready;
      }
      assert Snapshot() == Next(before, if closed then SendFails else Deliver);
      StepKeeps(before, if closed then SendFails else Deliver);
    }

    /** The task spawned for a backoff, up to the push. */
    method ExpireBackoff(id: ID)
      requires Valid() && Enabled(Snapshot(), BackoffExpires(id))
      modifies this`backingOff, this`queue, this`pushes, this`waking
      ensures Valid() && Snapshot() == Next(old(Snapshot()), BackoffExpires(id))
      ensures Adds(old(Snapshot()), Snapshot(), multiset{})
    {
      ghost var before := Snapshot();
      backingOff := backingOff - multiset{id};
      PushToBack(id);
      assert Snapshot() == Next(before, BackoffExpires(id));
      StepKeeps(before, BackoffExpires(id));
    }

    /** The receiver of responses is dropped. */
    method DropReceiver()
      requires Valid()
      modifies this`closed
      ensures Valid() && Snapshot() == Next(old(Snapshot()), Close)
    {
      StepKeeps(Snapshot(), Close);
      closed := true;
    }

    /** Whichever action is next. */
    method Take(step: Step<ID, Res>)
      requires Valid() && Enabled(Snapshot(), step)
      modifies this
      ensures Valid() && Snapshot() == Next(old(Snapshot()), step)
    {
      match step
      case Monitor(id) => Push(id);
      case Wake => SendWake();
      case RespondFound(id, response) => HandleFound(id, response);
      case RespondMissing(id) => HandleMissing(id);
      case RespondError(id) => HandleError(id);
      case Deliver => FinishSend();
      case SendFails => FinishSend();
      case BackoffExpires(id) => ExpireBackoff(id);
      case Close => DropReceiver();
      case PollReadyFails(id) => HandleBroken(id);
      case _ => ConsumerStep(step);
    }
  }

  lemma EveryDelivery<ID(!new), Res>(schedule: seq<Step<ID, Res>>)
    requires IsRun(Init<ID, Res>(), schedule)
    ensures var delivered := After(Init<ID, Res>(), schedule).delivered;
      && (forall d :: d in delivered ==> RespondFound(d.0, d.1) in schedule)
      && (forall x: ID :: Delivered(delivered, x) <= Requests(schedule, x) + Breaks(schedule, x))
      && delivered <= Founds(schedule) && |Founds(schedule)| <= |delivered| + 1
  {
    var end := After(Init<ID, Res>(), schedule);
    EveryRun(schedule);
    forall d | d in end.delivered ensures RespondFound(d.0, d.1) in schedule {
      Answered(Init<ID, Res>(), schedule, d);
    }
    forall x: ID ensures Delivered(end.delivered, x) <= Requests(schedule, x) + Breaks(schedule, x) {
      Counted(Init<ID, Res>(), schedule, x);
      assert Places(end, x) == end.monitored[x] + end.phantoms[x];
    }
    DeliveredInOrder(Init<ID, Res>(), schedule);
    assert [] + [] + Founds(schedule) == Founds(schedule);
  }

  /**
   * A monitor under any schedule of its tasks and its service: every response it delivers is one the
   * service gave for that id, in the order in which it gave them and all but possibly the last, and
   * no id is delivered more often than it was asked for, default ids of a broken service aside.
   */
  method Drive<ID(==,!new), Res(==)>(schedule: seq<Step<ID, Res>>) returns (delivered: seq<(ID, Res)>)
    requires IsRun(Init<ID, Res>(), schedule)
    ensures delivered == After(Init<ID, Res>(), schedule).delivered
    ensures forall d :: d in delivered ==> RespondFound(d.0, d.1) in schedule
    ensures forall x: ID :: Delivered(delivered, x) <= Requests(schedule, x) + Breaks(schedule, x)
    ensures delivered <= Founds(schedule) && |Founds(schedule)| <= |delivered| + 1
  {
    var monitor := new PollingMonitor<ID, Res>();
    for i := 0 to |schedule|
      invariant fresh(monitor) && monitor.Valid()
      invariant IsRun(monitor.Snapshot(), schedule[i..])
      invariant After(monitor.Snapshot(), schedule[i..]) == After(Init<ID, Res>(), schedule)
    {
      assert schedule[i..][1..] == schedule[i + 1..];
      monitor.Take(schedule[i]);
    }
    delivered := monitor.delivered;
    EveryDelivery<ID, Res>(schedule);
  }
}
