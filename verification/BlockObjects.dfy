/**
 The coroutine semaphore: its lock-protected regions as methods, and a transition system over any
 number of tasks, objects and timers whose steps are those regions and the single writes between them.
 */
module BlockObjects {
  import opened Bytes

  type Tid = nat
  type Oid = nat

  /** The state that lock_ protects: the signal count and the FIFO queue of waiting tasks. */
  datatype Block = Block(wakeup: nat, maxWakeup: nat, queue: seq<Tid>)

  // ---------------------------------------------------------------- the locked regions

  /** TryBlockWait, and the fast path of CoBlockWait: take a signal if there is one. */
  function Take(b: Block): Option<Block> {
    if b.wakeup > 0 then Some(b.(wakeup := b.wakeup - 1)) else None
  }

  /** AddWaitTask: a late signal is taken instead of queueing; the bool says whether `t` was queued. */
  function Enqueue(b: Block, t: Tid): (Block, bool) {
    if b.wakeup > 0 then (b.(wakeup := b.wakeup - 1), false) else (b.(queue := b.queue + [t]), true)
  }

  datatype Posted = Popped(t: Tid, b: Block) | Stored(b: Block) | Refused

  /** Wakeup: the longest waiting task is popped; without one the signal is stored, up to the limit. */
  function Post(b: Block): Posted {
    if b.queue != [] then Popped(b.queue[0], b.(queue := b.queue[1..]))
    else if b.wakeup >= b.maxWakeup then Refused
    else Stored(b.(wakeup := b.wakeup + 1))
  }

  function Without(q: seq<Tid>, t: Tid): (r: seq<Tid>)
    ensures forall u :: u in r ==> u in q
    ensures forall u :: u in q && u != t ==> u in r
  {
    if q == [] then [] else if q[0] == t then q[1..] else [q[0]] + Without(q[1..], t)
  }

  /** wait_queue_.erase(t) */
  function Erase(b: Block, t: Tid): Option<Block> {
    if t in b.queue then Some(b.(queue := Without(b.queue, t))) else None
  }

  class BlockObject {
    var wakeup: nat
    const maxWakeup: nat
    var waitQueue: seq<Tid>

    ghost function State(): Block
      reads this
    {
      Block(wakeup, maxWakeup, waitQueue)
    }

    constructor (initWakeup: nat, maxWakeup: nat)
      ensures State() == Block(initWakeup, maxWakeup, [])
    {
      wakeup := initWakeup;
      this.maxWakeup := maxWakeup;
      waitQueue := [];
    }

    method TryBlockWait() returns (taken: bool)
      modifies this
      ensures taken <==> Take(old(State())).Some?
      ensures State() == if taken then Take(old(State())).value else old(State())
    {
      if wakeup == 0 {
        return false;
      }
      wakeup := wakeup - 1;
      return true;
    }

    method IsWakeup() returns (r: bool)
      ensures r <==> Take(State()).Some?
    {
      return wakeup > 0;
    }

    method AddWaitTask(t: Tid) returns (queued: bool)
      modifies this
      ensures (State(), queued) == Enqueue(old(State()), t)
    {
      if wakeup > 0 {
        wakeup := wakeup - 1;
        return false;
      }
      waitQueue := waitQueue + [t];
      return true;
    }

    /** The locked region of Wakeup; what follows it concerns the popped task only. */
    method Wakeup() returns (ok: bool, popped: Option<Tid>)
      modifies this
      ensures match Post(old(State()))
              case Popped(t, b) => ok && popped == Some(t) && State() == b
              case Stored(b) => ok && popped == None && State() == b
              case Refused => !ok && popped == None && State() == old(State())
    {
      if waitQueue == [] {
        if wakeup >= maxWakeup {
          return false, None;
        }
        wakeup := wakeup + 1;
        return true, None;
      }
      popped := Some(waitQueue[0]);
      waitQueue := waitQueue[1..];
      return true, popped;
    }

    /** The locked region of CancelWait, after its checks of the task's fields. */
    method EraseWaiter(t: Tid) returns (erased: bool)
      modifies this
      ensures erased <==> Erase(old(State()), t).Some?
      ensures State() == if erased then Erase(old(State()), t).value else old(State())
    {
      if t !in waitQueue {
        return false;
      }
      waitQueue := Without(waitQueue, t);
      return true;
    }
  }

  // ---------------------------------------------------------------- tasks, timers, the whole state

  /**
   Where a task is in a wait call. Deciding: the fast path found no signal. Placed: block_ is set.
   Yielded: the other fields are set. Queued: in the wait queue. Leaving: popped by Wakeup or erased
   by CancelWait, which have `done` of their two writes behind them. Resuming: made runnable.
   */
  datatype Phase =
    | Idle
    | Deciding(o: Oid, timeo: nat)
    | Placed(o: Oid, timeo: nat)
    | Yielded(o: Oid)
    | Queued(o: Oid)
    | Leaving(o: Oid, woken: bool, done: nat)
    | Resuming(o: Oid)

  /** `consumed`: the current or last call took a signal. `returned`: the last call's result. */
  datatype Task = Task(phase: Phase, block: Option<Oid>, sequence: nat, timeout: nat, timedOut: bool,
                       consumed: bool, returned: Option<bool>)

  datatype Timer = Timer(t: Tid, o: Oid, sequence: nat)

  /** One wait of a task: its block sequence number tells it from the task's other waits. */
  datatype Episode = Episode(t: Tid, sequence: nat)

  /** An episode made runnable, by Wakeup (`woken`) or by CancelWait. */
  datatype Event = Event(episode: Episode, woken: bool)

  /**
   A block object with the signals it was given and granted so far, and the tasks that hold one of
   them: a grant makes its task a holder, a Wakeup takes back what the caller holds.
   */
  datatype Object = Object(block: Block, initial: nat, posts: nat, grants: nat, holders: multiset<Tid>)

  /** `episodes` are the waits that were ever queued, `log` the waits made runnable again. */
  datatype State = State(objects: map<Oid, Object>, tasks: map<Tid, Task>,
                         armed: set<Timer>, firing: set<Timer>,
                         episodes: set<Episode>, log: seq<Event>)

  datatype Action =
    | Call(t: Tid, o: Oid, timeo: nat)
    | TryTake(t: Tid, o: Oid)
    | SetBlock(t: Tid)
    | SetFields(t: Tid)
    | AddWait(t: Tid)
    | Wakeup(poster: Tid, o: Oid)
    | WriteOne(t: Tid)
    | MakeRunnable(t: Tid)
    | Resume(t: Tid)
    | TimerStart(timer: Timer)
    | Cancel(timer: Timer)

  predicate Init(s: State) {
    && (forall t | t in s.tasks :: s.tasks[t].phase == Idle && s.tasks[t].returned == None)
    && (forall o | o in s.objects :: var b := s.objects[o];
          b.block.queue == [] && b.block.wakeup == b.initial && b.posts == 0 && b.grants == 0
            && b.holders == multiset{})
    && s.armed == {} && s.firing == {} && s.episodes == {} && s.log == []
  }

  predicate Enabled(s: State, a: Action) {
    match a
    case Call(t, o, _) => t in s.tasks && o in s.objects && s.tasks[t].phase == Idle
    case TryTake(t, o) => t in s.tasks && o in s.objects && s.tasks[t].phase == Idle
    case SetBlock(t) => t in s.tasks && s.tasks[t].phase.Deciding?
    case SetFields(t) => t in s.tasks && s.tasks[t].phase.Placed?
    case AddWait(t) => t in s.tasks && s.tasks[t].phase.Yielded? && s.tasks[t].phase.o in s.objects
    case Wakeup(_, o) => o in s.objects && forall t :: t in s.objects[o].block.queue ==> t in s.tasks
    case WriteOne(t) => t in s.tasks && s.tasks[t].phase.Leaving? && s.tasks[t].phase.done < 2
    case MakeRunnable(t) => t in s.tasks && s.tasks[t].phase.Leaving? && s.tasks[t].phase.done == 2
    case Resume(t) => t in s.tasks && s.tasks[t].phase.Resuming?
    case TimerStart(timer) => timer in s.armed && timer.t in s.tasks
    case Cancel(timer) => timer in s.firing && timer.t in s.tasks && timer.o in s.objects
  }

  function Grant(b: Object, block: Block, t: Tid): Object {
    b.(block := block, grants := b.grants + 1, holders := Added(b.holders, t))
  }

  function Added(holders: multiset<Tid>, t: Tid): multiset<Tid> {
    holders + multiset{t}
  }

  function Removed(holders: multiset<Tid>, t: Tid): multiset<Tid> {
    holders - multiset{t}
  }

  function GivenBack(b: Object, poster: Tid): Object {
    b.(posts := b.posts + 1, holders := Removed(b.holders, poster))
  }

  function Step(s: State, a: Action): State
    requires Enabled(s, a)
  {
    match a
    case Call(t, o, timeo) =>
      (match Take(s.objects[o].block)
       case Some(block) =>
         s.(objects := s.objects[o := Grant(s.objects[o], block, t)],
            tasks := s.tasks[t := s.tasks[t].(consumed := true, returned := Some(true))])
       case None =>
         s.(tasks := s.tasks[t := s.tasks[t].(phase := Deciding(o, timeo), consumed := false, returned := None)]))
    case TryTake(t, o) =>
      (match Take(s.objects[o].block)
       case Some(block) =>
         s.(objects := s.objects[o := Grant(s.objects[o], block, t)],
            tasks := s.tasks[t := s.tasks[t].(consumed := true, returned := Some(true))])
       case None =>
         s.(tasks := s.tasks[t := s.tasks[t].(consumed := false, returned := Some(false))]))
    case SetBlock(t) =>
      var k := s.tasks[t];
      s.(tasks := s.tasks[t := k.(phase := Placed(k.phase.o, k.phase.timeo), block := Some(k.phase.o))])
    case SetFields(t) =>
      var k := s.tasks[t];
      s.(tasks := s.tasks[t := k.(phase := Yielded(k.phase.o), sequence := k.sequence + 1,
                                  timeout := k.phase.timeo, timedOut := false)])
    case AddWait(t) =>
      var k := s.tasks[t];
      var o := k.phase.o;
      var (block, queued) := Enqueue(s.objects[o].block, t);
      if queued then
        s.(objects := s.objects[o := s.objects[o].(block := block)],
           tasks := s.tasks[t := k.(phase := Queued(o))],
           episodes := s.episodes + {Episode(t, k.sequence)},
           armed := if k.timeout == 0 then s.armed else s.armed + {Timer(t, o, k.sequence)})
      else
        s.(objects := s.objects[o := Grant(s.objects[o], block, t)],
           tasks := s.tasks[t := k.(phase := Resuming(o), consumed := true)])
    case Wakeup(poster, o) =>
      var b := GivenBack(s.objects[o], poster);
      (match Post(s.objects[o].block)
       case Popped(t, block) =>
         s.(objects := s.objects[o := Grant(b, block, t)],
            tasks := s.tasks[t := s.tasks[t].(phase := Leaving(o, true, 0), consumed := true)])
       case Stored(block) => s.(objects := s.objects[o := b.(block := block)])
       case Refused => s)
    case WriteOne(t) =>
      var k := s.tasks[t];
      var next := k.(phase := k.phase.(done := k.phase.done + 1));
      if k.phase.done == 0 then s.(tasks := s.tasks[t := next.(block := None)])
      else if k.phase.woken then
        s.(tasks := s.tasks[t := next], armed := s.armed - {Timer(t, k.phase.o, k.sequence)})
      else s.(tasks := s.tasks[t := next.(timedOut := true)])
    case MakeRunnable(t) =>
      var k := s.tasks[t];
      s.(tasks := s.tasks[t := k.(phase := Resuming(k.phase.o))],
         log := s.log + [Event(Episode(t, k.sequence), k.phase.woken)])
    case Resume(t) =>
      var k := s.tasks[t];
      s.(tasks := s.tasks[t := k.(phase := Idle, returned := Some(!k.timedOut))])
    case TimerStart(timer) =>
      var rest := s.(armed := s.armed - {timer});
      if s.tasks[timer.t].sequence == timer.sequence then rest.(firing := s.firing + {timer}) else rest
    case Cancel(timer) =>
      var rest, k, b := s.(firing := s.firing - {timer}), s.tasks[timer.t], s.objects[timer.o];
      if k.block != Some(timer.o) || k.sequence != timer.sequence then rest
      else match Erase(b.block, timer.t)
      case None => rest
      case Some(block) =>
        rest.(objects := s.objects[timer.o := b.(block := block)],
              tasks := s.tasks[timer.t := k.(phase := Leaving(timer.o, false, 0))])
  }

  // ---------------------------------------------------------------- what every step keeps

  predicate Distinct(q: seq<Tid>) {
    forall i, j :: 0 <= i < j < |q| ==> q[i] != q[j]
  }

  predicate Waits(s: State, t: Tid, o: Oid) {
    o in s.objects && t in s.objects[o].block.queue
  }

  predicate HasPhase(s: State, t: Tid, p: Phase) {
    t in s.tasks && s.tasks[t].phase == p
  }

  /** A task waits in an object's queue exactly when its phase says so, and only once. */
  ghost predicate Queues(s: State) {
    && (forall o | o in s.objects :: Distinct(s.objects[o].block.queue))
    && (forall o: Oid, t: Tid :: Waits(s, t, o) <==> o in s.objects && HasPhase(s, t, Queued(o)))
    && (forall o: Oid, t: Tid :: HasPhase(s, t, Queued(o)) ==> o in s.objects)
  }

  predicate KnownObject(s: State, p: Phase) {
    (p.Deciding? || p.Placed? || p.Yielded?) ==> p.o in s.objects
  }

  /** The calls' view of a task: whether a signal was consumed, and what will be returned. */
  predicate TaskInv(k: Task) {
    match k.phase
    case Idle => k.returned.Some? ==> k.returned.value == k.consumed
    case Deciding(_, _) => !k.consumed
    case Placed(o, _) => !k.consumed && k.block == Some(o)
    case Yielded(o) => !k.consumed && !k.timedOut && k.block == Some(o)
    case Queued(o) => !k.consumed && !k.timedOut && k.block == Some(o)
    case Leaving(_, woken, done) =>
      && k.consumed == woken && done <= 2 && (k.timedOut <==> !woken && done == 2)
      && (done > 0 ==> k.block == None)
    case Resuming(_) => k.consumed == !k.timedOut
  }

  ghost predicate Tasks(s: State) {
    forall t | t in s.tasks :: KnownObject(s, s.tasks[t].phase) && TaskInv(s.tasks[t])
  }

  /** Signals are conserved, and stored only while nobody waits. */
  predicate ObjectInv(b: Object) {
    b.initial + b.posts == b.block.wakeup + b.grants && (b.block.wakeup > 0 ==> b.block.queue == [])
  }

  ghost predicate Objects(s: State) {
    forall o | o in s.objects :: ObjectInv(s.objects[o])
  }

  function Times(log: seq<Event>, e: Episode): nat {
    if log == [] then 0
    else Times(log[..|log| - 1], e) + (if log[|log| - 1].episode == e then 1 else 0)
  }

  /** The episode is the task's current one and has not been made runnable yet. */
  predicate Open(s: State, e: Episode) {
    && e.t in s.tasks && s.tasks[e.t].sequence == e.sequence
    && (s.tasks[e.t].phase.Queued? || s.tasks[e.t].phase.Leaving?)
  }

  /** A queued episode is made runnable exactly once, when it ends; no other episode ever is. */
  predicate Once(s: State, e: Episode) {
    && Times(s.log, e) == (if e in s.episodes && !Open(s, e) then 1 else 0)
    && (Open(s, e) ==> e in s.episodes)
  }

  predicate Past(s: State, e: Episode) {
    && e.t in s.tasks && e.sequence <= s.tasks[e.t].sequence
    && (s.tasks[e.t].phase.Yielded? ==> e.sequence < s.tasks[e.t].sequence)
  }

  ghost predicate Episodes(s: State) {
    && (forall e: Episode :: Once(s, e))
    && (forall e | e in s.episodes :: Past(s, e))
  }

  predicate TimerInv(s: State, timer: Timer) {
    timer.o in s.objects && timer.t in s.tasks && Episode(timer.t, timer.sequence) in s.episodes
  }

  ghost predicate Timers(s: State) {
    forall timer | timer in s.armed + s.firing :: TimerInv(s, timer)
  }

  predicate TimerPending(s: State, t: Tid) {
    t in s.tasks && s.tasks[t].phase.Queued? && s.tasks[t].timeout != 0 ==>
      Timer(t, s.tasks[t].phase.o, s.tasks[t].sequence) in s.armed + s.firing
  }

  /** A task that waits with a timeout has its timer before it. */
  ghost predicate TimedWaits(s: State) {
    forall t: Tid :: TimerPending(s, t)
  }

  ghost predicate Inv(s: State) {
    Queues(s) && Tasks(s) && Objects(s) && Episodes(s) && Timers(s) && TimedWaits(s)
  }

  lemma InitInv(s: State)
    requires Init(s)
    ensures Inv(s)
  {
    forall e: Episode ensures Once(s, e) {
      assert !Open(s, e);
    }
  }

  // ---------------------------------------------------------------- queues

  lemma {:induction false} WithoutDistinct(q: seq<Tid>, t: Tid)
    requires Distinct(q)
    ensures Distinct(Without(q, t)) && t !in Without(q, t)
  {
    if q != [] {
      if q[0] == t {
        forall i | 0 <= i < |q[1..]| ensures q[1..][i] != t {
          assert q[i + 1] != q[0];
        }
      } else {
        WithoutDistinct(q[1..], t);
        var r := Without(q[1..], t);
        forall i | 0 <= i < |r| ensures r[i] != q[0] {
          assert r[i] in q[1..];
          var j :| 0 <= j < |q[1..]| && q[1..][j] == r[i];
          assert q[j + 1] != q[0];
        }
      }
    }
  }

  predicate SameQueues(s: State, s': State) {
    s'.objects.Keys == s.objects.Keys
      && forall o | o in s.objects :: s'.objects[o].block.queue == s.objects[o].block.queue
  }

  lemma QueuesUntouched(s: State, s': State, t: Tid)
    requires Queues(s) && SameQueues(s, s')
    requires t in s.tasks && t in s'.tasks && s'.tasks == s.tasks[t := s'.tasks[t]]
    requires !s.tasks[t].phase.Queued? && !s'.tasks[t].phase.Queued?
    ensures Queues(s')
  {
    forall o: Oid, u: Tid
      ensures Waits(s', u, o) <==> o in s'.objects && HasPhase(s', u, Queued(o))
      ensures HasPhase(s', u, Queued(o)) ==> o in s'.objects
    {
      assert Waits(s', u, o) == Waits(s, u, o);
      assert HasPhase(s', u, Queued(o)) == HasPhase(s, u, Queued(o));
    }
  }

  /** Task `t` joins (`q` is the queue with it) or leaves (`q` is the queue without it) `o`'s queue. */
  lemma QueuesChanged(s: State, s': State, t: Tid, o: Oid, joins: bool)
    requires Queues(s) && t in s.tasks && o in s.objects
    requires s'.tasks.Keys == s.tasks.Keys && s'.tasks == s.tasks[t := s'.tasks[t]]
    requires s'.objects.Keys == s.objects.Keys && s'.objects == s.objects[o := s'.objects[o]]
    requires joins <==> !s.tasks[t].phase.Queued?
    requires joins ==> s'.tasks[t].phase == Queued(o) && s'.objects[o].block.queue == s.objects[o].block.queue + [t]
    requires !joins ==> s.tasks[t].phase == Queued(o) && !s'.tasks[t].phase.Queued?
    requires !joins ==> s'.objects[o].block.queue == Without(s.objects[o].block.queue, t)
    ensures Queues(s')
  {
    if joins {
      assert !Waits(s, t, o);
    } else {
      WithoutDistinct(s.objects[o].block.queue, t);
    }
    forall p: Oid, u: Tid
      ensures Waits(s', u, p) <==> p in s'.objects && HasPhase(s', u, Queued(p))
      ensures HasPhase(s', u, Queued(p)) ==> p in s'.objects
    {
      assert u != t ==> Waits(s', u, p) == Waits(s, u, p) && HasPhase(s', u, Queued(p)) == HasPhase(s, u, Queued(p));
      assert p != o ==> Waits(s', t, p) == Waits(s, t, p) && !Waits(s, t, p);
    }
  }

  lemma QueuesKept(s: State, s': State)
    requires Queues(s) && SameQueues(s, s') && s'.tasks == s.tasks
    ensures Queues(s')
  {
    forall o: Oid, u: Tid
      ensures Waits(s', u, o) <==> o in s'.objects && HasPhase(s', u, Queued(o))
      ensures HasPhase(s', u, Queued(o)) ==> o in s'.objects
    {
      assert Waits(s', u, o) == Waits(s, u, o);
      assert HasPhase(s', u, Queued(o)) == HasPhase(s, u, Queued(o));
    }
  }

  lemma StepKeepsQueues(s: State, a: Action)
    requires Queues(s) && Enabled(s, a)
    ensures Queues(Step(s, a))
  {
    var s' := Step(s, a);
    match a {
      case Call(t, _, _) => StepAside(s, a, t);
      case TryTake(t, _) => StepAside(s, a, t);
      case SetBlock(t) => StepAside(s, a, t);
      case SetFields(t) => StepAside(s, a, t);
      case AddWait(t) => StepAddWait(s, a);
      case Wakeup(_, _) => StepWakeup(s, a);
      case WriteOne(t) => StepAside(s, a, t);
      case MakeRunnable(t) => StepAside(s, a, t);
      case Resume(t) => StepAside(s, a, t);
      case TimerStart(timer) => QueuesKept(s, s');
      case Cancel(timer) => StepCancel(s, a);
    }
  }

  lemma StepAside(s: State, a: Action, t: Tid)
    requires Queues(s) && Enabled(s, a) && !a.AddWait? && !a.Wakeup? && !a.TimerStart? && !a.Cancel? && a.t == t
    ensures Queues(Step(s, a))
  {
    hide Queues;
    var s' := Step(s, a);
    QueuesUntouched(s, s', t);
  }

  lemma StepAddWait(s: State, a: Action)
    requires Queues(s) && Enabled(s, a) && a.AddWait?
    ensures Queues(Step(s, a))
  {
    hide Queues;
    var s', o := Step(s, a), s.tasks[a.t].phase.o;
    if s.objects[o].block.wakeup > 0 {
      QueuesUntouched(s, s', a.t);
    } else {
      QueuesChanged(s, s', a.t, o, true);
    }
  }

  lemma FrontIsQueued(s: State, o: Oid, t: Tid)
    requires Queues(s) && o in s.objects && t in s.objects[o].block.queue
    ensures t in s.tasks && s.tasks[t].phase == Queued(o)
  {
    assert Waits(s, t, o);
  }

  lemma WithoutFront(q: seq<Tid>)
    requires q != []
    ensures Without(q, q[0]) == q[1..]
  {
  }

  lemma StepWakeup(s: State, a: Action)
    requires Queues(s) && Enabled(s, a) && a.Wakeup?
    ensures Queues(Step(s, a))
  {
    hide Queues, Without, Distinct;
    var s', q := Step(s, a), s.objects[a.o].block.queue;
    if q != [] {
      FrontIsQueued(s, a.o, q[0]);
      WithoutFront(q);
      QueuesChanged(s, s', q[0], a.o, false);
    } else {
      QueuesKept(s, s');
    }
  }

  lemma StepCancel(s: State, a: Action)
    requires Queues(s) && Enabled(s, a) && a.Cancel?
    ensures Queues(Step(s, a))
  {
    hide Queues;
    var s', timer := Step(s, a), a.timer;
    var k := s.tasks[timer.t];
    if k.block == Some(timer.o) && k.sequence == timer.sequence && timer.t in s.objects[timer.o].block.queue {
      FrontIsQueued(s, timer.o, timer.t);
      QueuesChanged(s, s', timer.t, timer.o, false);
    } else {
      QueuesKept(s, s');
    }
  }

  // ---------------------------------------------------------------- tasks and objects

  /** The one task whose record a step may change. */
  function Subject(s: State, a: Action): Tid
    requires Enabled(s, a)
  {
    match a
    case Wakeup(_, o) => if s.objects[o].block.queue == [] then 0 else s.objects[o].block.queue[0]
    case TimerStart(timer) => timer.t
    case Cancel(timer) => timer.t
    case _ => a.t
  }

  lemma OnlySubjectChanges(s: State, a: Action, t: Tid)
    requires Enabled(s, a) && t in s.tasks && t != Subject(s, a)
    ensures t in Step(s, a).tasks && Step(s, a).tasks[t] == s.tasks[t]
  {
    hide Distinct, Without;
  }

  lemma StepKeepsSubject(s: State, a: Action, t: Tid)
    requires Queues(s) && Enabled(s, a) && t == Subject(s, a) && t in s.tasks
    requires KnownObject(s, s.tasks[t].phase) && TaskInv(s.tasks[t])
    ensures t in Step(s, a).tasks && KnownObject(s, Step(s, a).tasks[t].phase) && TaskInv(Step(s, a).tasks[t])
  {
    hide Queues, Distinct, Without;
    match a {
      case Wakeup(_, o) =>
        if s.objects[o].block.queue != [] {
          FrontIsQueued(s, o, t);
        }
      case Cancel(timer) =>
        if t in s.objects[timer.o].block.queue {
          FrontIsQueued(s, timer.o, t);
        }
      case _ =>
    }
  }

  lemma NothingAppears(s: State, a: Action)
    requires Enabled(s, a)
    ensures Step(s, a).tasks.Keys == s.tasks.Keys && Step(s, a).objects.Keys == s.objects.Keys
  {
    hide Distinct, Without;
  }

  lemma StepKeepsTasks(s: State, a: Action)
    requires Queues(s) && Tasks(s) && Enabled(s, a)
    ensures Tasks(Step(s, a))
  {
    NothingAppears(s, a);
    hide Queues, TaskInv, Step, Subject;
    var s' := Step(s, a);
    forall t | t in s'.tasks ensures KnownObject(s', s'.tasks[t].phase) && TaskInv(s'.tasks[t]) {
      if t == Subject(s, a) {
        StepKeepsSubject(s, a, t);
      } else {
        OnlySubjectChanges(s, a, t);
      }
    }
  }

  predicate Posts(a: Action, o: Oid) {
    a.Wakeup? && a.o == o
  }

  predicate QueueChanges(b: Object, b': Object) {
    b' == b.(block := b.block.(queue := b'.block.queue)) && (b.block.queue == [] && b.block.wakeup > 0 ==> b' == b)
  }

  predicate IsGranted(b: Object, b': Object, t: Tid) {
    b.block.wakeup > 0 && b' == Grant(b, b.block.(wakeup := b.block.wakeup - 1), t)
  }

  predicate IsPosted(b: Object, b': Object, poster: Tid) {
    match Post(b.block)
    case Popped(t, block) => b' == Grant(GivenBack(b, poster), block, t)
    case Stored(block) => b' == GivenBack(b, poster).(block := block)
    case Refused => b' == b
  }

  /** What a step does to an object. */
  lemma ObjectMoves(s: State, a: Action, o: Oid)
    requires Enabled(s, a) && o in s.objects
    ensures o in Step(s, a).objects
    ensures var (b, b') := (s.objects[o], Step(s, a).objects[o]);
            if Posts(a, o) then IsPosted(b, b', a.poster) else QueueChanges(b, b') || exists t :: IsGranted(b, b', t)
  {
    hide Added, Removed, Distinct, Without;
    var b' := Step(s, a).objects[o];
    if (a.Call? || a.TryTake? || a.AddWait?) && b' != s.objects[o] && b'.block.queue == s.objects[o].block.queue {
      assert IsGranted(s.objects[o], b', a.t);
    }
  }

  lemma StepKeepsObjects(s: State, a: Action)
    requires Objects(s) && Enabled(s, a)
    ensures Objects(Step(s, a))
  {
    NothingAppears(s, a);
    hide Step, Enabled;
    forall o | o in s.objects ensures ObjectInv(Step(s, a).objects[o]) {
      ObjectMoves(s, a, o);
    }
  }

  // ---------------------------------------------------------------- episodes

  lemma TimesSnoc(log: seq<Event>, x: Event, e: Episode)
    ensures Times(log + [x], e) == Times(log, e) + (if x.episode == e then 1 else 0)
  {
    assert (log + [x])[..|log|] == log;
  }

  /** Only the start of a wait, joining a queue and being made runnable matter to the episodes. */
  lemma StepKeepsEpisodes(s: State, a: Action)
    requires Queues(s) && Tasks(s) && Episodes(s) && Enabled(s, a)
    ensures Episodes(Step(s, a))
  {
    match a {
      case AddWait(t) => AddWaitKeepsEpisodes(s, a);
      case MakeRunnable(t) => MakeRunnableKeepsEpisodes(s, a);
      case _ => OthersKeepEpisodes(s, a);
    }
  }

  lemma OthersKeepEpisodes(s: State, a: Action)
    requires Queues(s) && Episodes(s) && Enabled(s, a) && !a.AddWait? && !a.MakeRunnable?
    ensures Episodes(Step(s, a))
  {
    hide Queues, Times;
    var s' := Step(s, a);
    match a {
      case Wakeup(_, o) =>
        if s.objects[o].block.queue != [] {
          FrontIsQueued(s, o, s.objects[o].block.queue[0]);
        }
      case Cancel(timer) =>
        if timer.t in s.objects[timer.o].block.queue {
          FrontIsQueued(s, timer.o, timer.t);
        }
      case _ =>
    }
    forall e: Episode ensures Once(s', e) {
      assert Once(s, e);
      assert e in s.episodes ==> Past(s, e);
    }
    forall e | e in s'.episodes ensures Past(s', e) {
      assert Past(s, e);
    }
  }

  lemma AddWaitKeepsEpisodes(s: State, a: Action)
    requires Episodes(s) && Enabled(s, a) && a.AddWait?
    ensures Episodes(Step(s, a))
  {
    hide Times;
    var s' := Step(s, a);
    forall e: Episode ensures Once(s', e) {
      assert Once(s, e);
      assert e in s.episodes ==> Past(s, e);
    }
    forall e | e in s'.episodes ensures Past(s', e) {
      assert e in s.episodes ==> Past(s, e);
    }
  }

  lemma MakeRunnableKeepsEpisodes(s: State, a: Action)
    requires Episodes(s) && Enabled(s, a) && a.MakeRunnable?
    ensures Episodes(Step(s, a))
  {
    hide Times;
    var s', k := Step(s, a), s.tasks[a.t];
    forall e: Episode ensures Once(s', e) {
      assert Once(s, e);
      TimesSnoc(s.log, Event(Episode(a.t, k.sequence), k.phase.woken), e);
    }
    forall e | e in s'.episodes ensures Past(s', e) {
      assert Past(s, e);
    }
  }

  lemma StepKeepsTimers(s: State, a: Action)
    requires Timers(s) && Enabled(s, a)
    ensures Timers(Step(s, a))
  {
    hide Times, Distinct, Without;
    var s' := Step(s, a);
    forall timer | timer in s'.armed + s'.firing ensures TimerInv(s', timer) {
      assert timer in s.armed + s.firing ==> TimerInv(s, timer);
    }
  }

  lemma StepKeepsTimedWaits(s: State, a: Action)
    requires Queues(s) && Tasks(s) && TimedWaits(s) && Enabled(s, a)
    ensures TimedWaits(Step(s, a))
  {
    forall t: Tid ensures TimerPending(Step(s, a), t) {
      assert TimerPending(s, t);
      StepKeepsTimerPending(s, a, t);
    }
  }

  lemma StepKeepsTimerPending(s: State, a: Action, t: Tid)
    requires Queues(s) && Tasks(s) && TimerPending(s, t) && Enabled(s, a)
    ensures TimerPending(Step(s, a), t)
  {
    hide Distinct, Without, Times;
    match a {
      case Wakeup(_, o) =>
        if s.objects[o].block.queue != [] {
          FrontIsQueued(s, o, s.objects[o].block.queue[0]);
        }
      case Cancel(timer) =>
        assert Waits(s, timer.t, timer.o) <==> HasPhase(s, timer.t, Queued(timer.o));
        assert TaskInv(s.tasks[timer.t]);
      case _ =>
    }
  }

  lemma StepKeepsInv(s: State, a: Action)
    requires Inv(s) && Enabled(s, a)
    ensures Inv(Step(s, a))
  {
    hide Queues, Tasks, Objects, Episodes, Timers, TimedWaits, Step;
    StepKeepsQueues(s, a);
    StepKeepsTasks(s, a);
    StepKeepsObjects(s, a);
    StepKeepsEpisodes(s, a);
    StepKeepsTimers(s, a);
    StepKeepsTimedWaits(s, a);
  }

  // ---------------------------------------------------------------- runs

  /** States of a run and the actions between them: any interleaving of the steps of any tasks. */
  datatype Run = Run(states: seq<State>, actions: seq<Action>)

  ghost predicate IsRun(r: Run) {
    && |r.states| == |r.actions| + 1 && Init(r.states[0])
    && forall i | 0 <= i < |r.actions| :: StepsAt(r, i)
  }

  predicate StepsAt(r: Run, i: nat)
    requires i < |r.actions| && i + 1 < |r.states|
  {
    Enabled(r.states[i], r.actions[i]) && r.states[i + 1] == Step(r.states[i], r.actions[i])
  }

  lemma {:induction false} RunKeepsInv(r: Run, n: nat)
    requires IsRun(r) && n < |r.states|
    ensures Inv(r.states[n])
  {
    hide Init, Inv, Step, Enabled;
    if n == 0 {
      InitInv(r.states[0]);
    } else {
      RunKeepsInv(r, n - 1);
      assert StepsAt(r, n - 1);
      StepKeepsInv(r.states[n - 1], r.actions[n - 1]);
    }
  }

  /** Every queued wait that is over was made runnable exactly once, by one of the two ways. */
  lemma EpisodesEndOnce(r: Run, n: nat, e: Episode)
    requires IsRun(r) && n < |r.states|
    ensures Times(r.states[n].log, e) == (if e in r.states[n].episodes && !Open(r.states[n], e) then 1 else 0)
  {
    RunKeepsInv(r, n);
    assert Once(r.states[n], e);
  }

  /** A finished call's result says whether it consumed a signal, timed or not. */
  lemma ResultTellsConsumption(r: Run, n: nat, t: Tid)
    requires IsRun(r) && n < |r.states| && t in r.states[n].tasks
    requires r.states[n].tasks[t].phase == Idle && r.states[n].tasks[t].returned.Some?
    ensures r.states[n].tasks[t].returned.value == r.states[n].tasks[t].consumed
  {
    RunKeepsInv(r, n);
    assert TaskInv(r.states[n].tasks[t]);
  }

  // ---------------------------------------------------------------- the call behind a wait

  /** What the last call of `t` was, a call being Call or TryTake, after one more action. */
  function Asked(call: Option<Action>, a: Action, t: Tid): Option<Action> {
    if (a.Call? || a.TryTake?) && a.t == t then Some(a) else call
  }

  /** The last call of `t` in a run. */
  function LastCall(actions: seq<Action>, t: Tid): Option<Action> {
    if actions == [] then None
    else Asked(LastCall(actions[..|actions| - 1], t), actions[|actions| - 1], t)
  }

  predicate Untimed(call: Option<Action>) {
    call.Some? && call.value.Call? && call.value.timeo == 0
  }

  /** A task is where its last call has brought it, with the timeout that was asked for. */
  predicate Answers(k: Task, t: Tid, call: Option<Action>) {
    match k.phase
    case Idle => (k.returned.Some? <==> call.Some?) && (Untimed(call) ==> k.returned == Some(true))
    case Deciding(o, timeo) => call == Some(Call(t, o, timeo))
    case Placed(o, timeo) => call == Some(Call(t, o, timeo))
    case Yielded(o) => call == Some(Call(t, o, k.timeout))
    case Queued(o) => call == Some(Call(t, o, k.timeout))
    case Leaving(o, woken, _) => call == Some(Call(t, o, k.timeout)) && (k.timeout == 0 ==> woken)
    case Resuming(o) => call == Some(Call(t, o, k.timeout)) && (k.timeout == 0 ==> !k.timedOut)
  }

  /** A timer of a task's present wait is there because the wait has a timeout. */
  predicate TimerAsked(s: State, timer: Timer) {
    timer.t in s.tasks && s.tasks[timer.t].sequence == timer.sequence ==> s.tasks[timer.t].timeout != 0
  }

  ghost predicate AskedTimers(s: State) {
    forall timer | timer in s.armed + s.firing :: TimerAsked(s, timer)
  }

  lemma StepKeepsAskedTimers(s: State, a: Action)
    requires Timers(s) && Episodes(s) && AskedTimers(s) && Enabled(s, a)
    ensures AskedTimers(Step(s, a))
  {
    hide Times, Distinct, Without, Once;
    var s' := Step(s, a);
    forall timer | timer in s'.armed + s'.firing ensures TimerAsked(s', timer) {
      if timer in s.armed + s.firing {
        assert TimerInv(s, timer) && TimerAsked(s, timer);
        assert Past(s, Episode(timer.t, timer.sequence));
      }
    }
  }

  lemma StepKeepsAnswers(s: State, a: Action, t: Tid, call: Option<Action>)
    requires Queues(s) && Tasks(s) && AskedTimers(s) && Enabled(s, a) && t in s.tasks
    requires Answers(s.tasks[t], t, call)
    ensures t in Step(s, a).tasks && Answers(Step(s, a).tasks[t], t, Asked(call, a, t))
  {
    if t == Subject(s, a) {
      SubjectAnswers(s, a, t, call);
    } else {
      hide Queues, Tasks, AskedTimers;
      OnlySubjectChanges(s, a, t);
    }
  }

  lemma SubjectAnswers(s: State, a: Action, t: Tid, call: Option<Action>)
    requires Queues(s) && Tasks(s) && AskedTimers(s) && Enabled(s, a) && t in s.tasks && t == Subject(s, a)
    requires Answers(s.tasks[t], t, call)
    ensures t in Step(s, a).tasks && Answers(Step(s, a).tasks[t], t, Asked(call, a, t))
  {
    assert TaskInv(s.tasks[t]);
    match a {
      case Wakeup(_, o) =>
        if s.objects[o].block.queue != [] {
          FrontIsQueued(s, o, t);
        }
      case Cancel(timer) =>
        assert TimerAsked(s, timer);
        if t in s.objects[timer.o].block.queue {
          FrontIsQueued(s, timer.o, t);
        }
      case _ =>
    }
    hide Queues, Tasks, AskedTimers, Distinct, Without;
  }

  /** A timer ends a wait exactly when its task is still queued in the very episode it was set for. */
  lemma TimerEndsOnlyItsEpisode(r: Run, n: nat, timer: Timer)
    requires IsRun(r) && n < |r.states| && Enabled(r.states[n], Cancel(timer))
    ensures var s := r.states[n];
            var s' := Step(s, Cancel(timer));
            if s.tasks[timer.t].phase == Queued(timer.o) && s.tasks[timer.t].sequence == timer.sequence
            then s'.tasks[timer.t].phase == Leaving(timer.o, false, 0) && timer.t !in s'.objects[timer.o].block.queue
            else s' == s.(firing := s.firing - {timer})
  {
    RunKeepsInv(r, n);
    var s := r.states[n];
    assert Waits(s, timer.t, timer.o) <==> HasPhase(s, timer.t, Queued(timer.o));
    assert TaskInv(s.tasks[timer.t]);
    WithoutDistinct(s.objects[timer.o].block.queue, timer.t);
  }

  lemma {:induction false} RunAnswers(r: Run, n: nat, t: Tid)
    requires IsRun(r) && n < |r.states| && t in r.states[n].tasks
    ensures AskedTimers(r.states[n]) && Answers(r.states[n].tasks[t], t, LastCall(r.actions[..n], t))
  {
    hide Inv, Enabled, Step, Answers, AskedTimers;
    if n == 0 {
      NothingAsked(r.states[0], t);
    } else {
      var (s, a) := (r.states[n - 1], r.actions[n - 1]);
      RunKeepsInv(r, n - 1);
      InvParts(s);
      assert StepsAt(r, n - 1);
      NothingAppears(s, a);
      RunAnswers(r, n - 1, t);
      StepKeepsAskedTimers(s, a);
      StepKeepsAnswers(s, a, t, LastCall(r.actions[..n - 1], t));
      assert r.actions[..n][..n - 1] == r.actions[..n - 1];
    }
  }

  lemma NothingAsked(s: State, t: Tid)
    requires Init(s) && t in s.tasks
    ensures AskedTimers(s) && Answers(s.tasks[t], t, None)
  {
  }

  lemma InvParts(s: State)
    requires Inv(s)
    ensures Queues(s) && Tasks(s) && Episodes(s) && Timers(s)
  {
  }

  /** The timer of a queued wait. */
  function OwnTimer(k: Task, t: Tid): Timer
    requires k.phase.Queued?
  {
    Timer(t, k.phase.o, k.sequence)
  }

  /**
   A queued wait was called for on this very object, and it has its own timer, armed or already firing,
   exactly when the call asked for a timeout.
   */
  lemma TimedWaitHasTimer(r: Run, n: nat, t: Tid)
    requires IsRun(r) && n < |r.states| && t in r.states[n].tasks && r.states[n].tasks[t].phase.Queued?
    ensures var (s, k) := (r.states[n], r.states[n].tasks[t]);
            match LastCall(r.actions[..n], t)
            case Some(Call(u, o, timeo)) =>
              u == t && k.phase == Queued(o) && (Timer(t, o, k.sequence) in s.armed + s.firing <==> timeo != 0)
            case _ => false
  {
    RunKeepsInv(r, n);
    RunAnswers(r, n, t);
    var (s, k) := (r.states[n], r.states[n].tasks[t]);
    assert TimerPending(s, t);
    var timer := Timer(t, k.phase.o, k.sequence);
    assert timer in s.armed + s.firing ==> TimerAsked(s, timer);
    hide Inv, AskedTimers;
  }

  /** Such a timer has a next step, and after at most two of them the wait is over. */
  lemma TimedWaitCanEnd(r: Run, n: nat, t: Tid, o: Oid, timeo: nat)
    requires IsRun(r) && n < |r.states| && t in r.states[n].tasks && r.states[n].tasks[t].phase.Queued?
    requires LastCall(r.actions[..n], t) == Some(Call(t, o, timeo)) && timeo != 0
    ensures var (s, timer) := (r.states[n], Timer(t, o, r.states[n].tasks[t].sequence));
            timer in s.firing || Enabled(s, TimerStart(timer))
    ensures var (s, timer) := (r.states[n], Timer(t, o, r.states[n].tasks[t].sequence));
            var fired := if timer in s.firing then s else Step(s, TimerStart(timer));
            && Enabled(fired, Cancel(timer))
            && t in Step(fired, Cancel(timer)).tasks
            && Step(fired, Cancel(timer)).tasks[t].phase == Leaving(o, false, 0)
  {
    TimedWaitHasTimer(r, n, t);
    RunKeepsInv(r, n);
    InvParts(r.states[n]);
    hide Inv, Tasks, Episodes, Timers, Without, Distinct, LastCall;
    assert TaskInv(r.states[n].tasks[t]);
    assert Waits(r.states[n], t, o) <==> HasPhase(r.states[n], t, Queued(o));
  }

  /** A wait without a timeout is ended by Wakeup alone: no timer moves it, and its result is true. */
  lemma UntimedWaitIsWoken(r: Run, n: nat, t: Tid, o: Oid)
    requires IsRun(r) && n < |r.states| && t in r.states[n].tasks
    requires LastCall(r.actions[..n], t) == Some(Call(t, o, 0))
    ensures var k := r.states[n].tasks[t];
            && (k.phase.Leaving? ==> k.phase.woken)
            && (k.phase.Resuming? ==> k.consumed)
            && (k.phase.Idle? ==> k.returned == Some(true) && k.consumed)
    ensures forall timer: Timer | Enabled(r.states[n], Cancel(timer)) && timer.t == t ::
              Step(r.states[n], Cancel(timer)) == r.states[n].(firing := r.states[n].firing - {timer})
  {
    RunKeepsInv(r, n);
    RunAnswers(r, n, t);
    InvParts(r.states[n]);
    assert TaskInv(r.states[n].tasks[t]);
    forall timer: Timer | Enabled(r.states[n], Cancel(timer)) && timer.t == t
      ensures Step(r.states[n], Cancel(timer)) == r.states[n].(firing := r.states[n].firing - {timer})
    {
      assert TimerAsked(r.states[n], timer);
      TimerEndsOnlyItsEpisode(r, n, timer);
    }
  }

  /** Nothing is lost or invented: signals stored and granted are those given at first and posted. */
  lemma SignalsAreConserved(r: Run, n: nat, o: Oid)
    requires IsRun(r) && n < |r.states| && o in r.states[n].objects
    ensures var b := r.states[n].objects[o];
            b.initial + b.posts == b.block.wakeup + b.grants && (b.block.wakeup > 0 ==> b.block.queue == [])
  {
    RunKeepsInv(r, n);
  }

  /** While tasks wait, nobody else is granted a signal, and the next post serves the first of them. */
  lemma NoBarging(r: Run, n: nat, o: Oid)
    requires IsRun(r) && n + 1 < |r.states| && o in r.states[n].objects
    requires r.states[n].objects[o].block.queue != []
    ensures o in r.states[n + 1].objects
    ensures var (s, s') := (r.states[n], r.states[n + 1]);
            if Posts(r.actions[n], o) then
              var t := s.objects[o].block.queue[0];
              && s'.objects[o].block.queue == s.objects[o].block.queue[1..] && t in s'.tasks
              && s'.objects[o].grants == s.objects[o].grants + 1 && s'.tasks[t].phase == Leaving(o, true, 0)
            else s'.objects[o].grants == s.objects[o].grants
  {
    RunKeepsInv(r, n);
    var s := r.states[n];
    assert ObjectInv(s.objects[o]);
    assert StepsAt(r, n);
    FrontIsQueued(s, o, s.objects[o].block.queue[0]);
    hide Inv, Queues, Distinct, Without;
  }

  /** A task that joins or asks is granted a signal exactly when more were given than were granted. */
  lemma GrantedIffSignalsLeft(r: Run, n: nat, t: Tid, o: Oid)
    requires IsRun(r) && n + 1 < |r.states| && o in r.states[n].objects && t in r.states[n].tasks
    requires var (a, p) := (r.actions[n], r.states[n].tasks[t].phase);
             a == TryTake(t, o) || (a.Call? && a.t == t && a.o == o) || (a == AddWait(t) && p == Yielded(o))
    ensures o in r.states[n + 1].objects && t in r.states[n + 1].tasks
    ensures var (b, b', k') := (r.states[n].objects[o], r.states[n + 1].objects[o], r.states[n + 1].tasks[t]);
            if b.initial + b.posts > b.grants then
              && b' == b.(block := b'.block, grants := b.grants + 1, holders := b.holders + multiset{t})
              && k'.consumed && if r.actions[n].AddWait? then k'.phase == Resuming(o)
                                else k'.phase == Idle && k'.returned == Some(true)
            else
              && b' == b.(block := b'.block) && !k'.consumed
              && match r.actions[n]
                 case Call(_, _, timeo) => k'.phase == Deciding(o, timeo) && b' == b
                 case TryTake(_, _) => k'.phase == Idle && k'.returned == Some(false) && b' == b
                 case _ => k'.phase == Queued(o) && b'.block.queue == b.block.queue + [t]
  {
    RunKeepsInv(r, n);
    assert ObjectInv(r.states[n].objects[o]) && TaskInv(r.states[n].tasks[t]);
    assert StepsAt(r, n);
    hide Inv, Queues, Distinct, Without;
  }

  /** A Wakeup for which nobody waits leaves one signal more, up to the limit, and then changes nothing. */
  lemma WakeupStoresUpToLimit(r: Run, n: nat, o: Oid, poster: Tid)
    requires IsRun(r) && n + 1 < |r.states| && o in r.states[n].objects && r.actions[n] == Wakeup(poster, o)
    requires forall t: Tid :: !HasPhase(r.states[n], t, Queued(o))
    ensures var b := r.states[n].objects[o];
            if b.initial + b.posts < b.grants + b.block.maxWakeup then
              && o in r.states[n + 1].objects && r.states[n + 1].objects[o].posts == b.posts + 1
              && r.states[n + 1].objects[o].grants == b.grants && r.states[n + 1].tasks == r.states[n].tasks
            else r.states[n + 1] == r.states[n]
  {
    RunKeepsInv(r, n);
    var q := r.states[n].objects[o].block.queue;
    assert ObjectInv(r.states[n].objects[o]);
    assert StepsAt(r, n);
    assert q != [] ==> HasPhase(r.states[n], q[0], Queued(o)) by {
      if q != [] {
        FrontIsQueued(r.states[n], o, q[0]);
      }
    }
    hide Inv, Queues, Distinct, Without;
  }

  // ---------------------------------------------------------------- nobody is stuck

  /** How many steps of its own a task inside a call has before it at most, when it does not wait. */
  function StepsLeft(p: Phase): nat {
    match p
    case Idle => 0
    case Resuming(_) => 1
    case Leaving(_, _, done) => if done <= 2 then 4 - done else 2
    case Queued(_) => 5
    case Yielded(_) => 6
    case Placed(_, _) => 7
    case Deciding(_, _) => 8
  }

  /** The next step of a task inside a call. */
  function NextOf(p: Phase, t: Tid): Action
    requires !p.Idle? && !p.Queued?
  {
    match p
    case Deciding(_, _) => SetBlock(t)
    case Placed(_, _) => SetFields(t)
    case Yielded(_) => AddWait(t)
    case Leaving(_, _, done) => if done < 2 then WriteOne(t) else MakeRunnable(t)
    case Resuming(_) => Resume(t)
  }

  /** A task inside a call that is not queued has a step, which brings it nearer to the end of the call. */
  lemma NobodyIsStuck(r: Run, n: nat, t: Tid)
    requires IsRun(r) && n < |r.states| && t in r.states[n].tasks
    requires !r.states[n].tasks[t].phase.Idle? && !r.states[n].tasks[t].phase.Queued?
    ensures var (s, a) := (r.states[n], NextOf(r.states[n].tasks[t].phase, t));
            Enabled(s, a) && t in Step(s, a).tasks && StepsLeft(Step(s, a).tasks[t].phase) < StepsLeft(s.tasks[t].phase)
  {
    RunKeepsInv(r, n);
    InvParts(r.states[n]);
    assert KnownObject(r.states[n], r.states[n].tasks[t].phase) && TaskInv(r.states[n].tasks[t]);
    hide Inv, Queues, Tasks, Episodes, Timers, Distinct, Without;
  }

  // ---------------------------------------------------------------- no timer outlives its wait

  /** An armed timer belongs to a wait that is queued, or popped with the timer's cancellation still to come. */
  predicate Live(s: State, timer: Timer) {
    && timer.t in s.tasks && s.tasks[timer.t].sequence == timer.sequence && timer !in s.firing
    && match s.tasks[timer.t].phase
       case Queued(o) => o == timer.o
       case Leaving(o, woken, done) => o == timer.o && woken && done < 2
       case _ => false
  }

  ghost predicate LiveTimers(s: State) {
    forall timer | timer in s.armed :: Live(s, timer)
  }

  lemma StepKeepsLiveTimers(s: State, a: Action)
    requires Queues(s) && Tasks(s) && Episodes(s) && Timers(s) && LiveTimers(s) && Enabled(s, a)
    ensures LiveTimers(Step(s, a))
  {
    var s' := Step(s, a);
    forall timer | timer in s'.armed ensures Live(s', timer) {
      StepKeepsLive(s, a, timer);
    }
  }

  lemma StepKeepsLive(s: State, a: Action, timer: Timer)
    requires Queues(s) && Tasks(s) && Episodes(s) && Timers(s) && Enabled(s, a) && timer in Step(s, a).armed
    requires timer in s.armed ==> Live(s, timer)
    ensures Live(Step(s, a), timer)
  {
    if timer in s.armed + s.firing {
      assert TimerInv(s, timer) && Past(s, Episode(timer.t, timer.sequence));
    }
    if timer.t in s.tasks && timer.t != Subject(s, a) {
      OtherTimerStays(s, a, timer);
    } else {
      SubjectTimerLives(s, a, timer);
    }
  }

  lemma OtherTimerStays(s: State, a: Action, timer: Timer)
    requires Enabled(s, a) && timer in Step(s, a).armed && timer.t in s.tasks && timer.t != Subject(s, a)
    requires timer in s.armed ==> Live(s, timer)
    ensures Live(Step(s, a), timer)
  {
    OnlySubjectChanges(s, a, timer.t);
    hide Distinct, Without;
  }

  lemma SubjectTimerLives(s: State, a: Action, timer: Timer)
    requires Queues(s) && Enabled(s, a) && timer in Step(s, a).armed
    requires timer.t in s.tasks ==> timer.t == Subject(s, a) && TaskInv(s.tasks[timer.t])
    requires timer in s.armed + s.firing ==> TimerInv(s, timer) && Past(s, Episode(timer.t, timer.sequence))
    requires timer in s.armed ==> Live(s, timer)
    ensures Live(Step(s, a), timer)
  {
    match a {
      case Wakeup(_, o) =>
        if s.objects[o].block.queue != [] {
          FrontIsQueued(s, o, s.objects[o].block.queue[0]);
        }
      case Cancel(c) =>
        if c.t in s.objects[c.o].block.queue {
          FrontIsQueued(s, c.o, c.t);
        }
      case _ =>
    }
    hide Queues, Distinct, Without;
  }

  lemma {:induction false} RunKeepsLiveTimers(r: Run, n: nat)
    requires IsRun(r) && n < |r.states|
    ensures LiveTimers(r.states[n])
  {
    hide Inv, Step, Enabled, Live;
    if n > 0 {
      RunKeepsLiveTimers(r, n - 1);
      RunKeepsInv(r, n - 1);
      InvParts(r.states[n - 1]);
      assert StepsAt(r, n - 1);
      StepKeepsLiveTimers(r.states[n - 1], r.actions[n - 1]);
    }
  }

  /** A task that runs has no armed timer: each was cancelled, or went off, before its wait ended. */
  lemma NoTimerOutlivesItsWait(r: Run, n: nat, timer: Timer)
    requires IsRun(r) && n < |r.states| && timer in r.states[n].armed
    ensures var s := r.states[n];
            && timer.t in s.tasks && s.tasks[timer.t].sequence == timer.sequence && timer !in s.firing
            && (s.tasks[timer.t].phase == Queued(timer.o)
                || s.tasks[timer.t].phase in {Leaving(timer.o, true, 0), Leaving(timer.o, true, 1)})
  {
    RunKeepsLiveTimers(r, n);
    assert Live(r.states[n], timer);
  }

  // ---------------------------------------------------------------- service in arrival order

  predicate Ahead(q: seq<Tid>, t: Tid, u: Tid) {
    exists i, j :: 0 <= i < j < |q| && q[i] == t && q[j] == u
  }

  lemma AheadBehind(p: seq<Tid>, q: seq<Tid>, t: Tid, u: Tid)
    requires Ahead(q, t, u)
    ensures Ahead(p + q, t, u)
  {
    var i, j :| 0 <= i < j < |q| && q[i] == t && q[j] == u;
    assert (p + q)[|p| + i] == t && (p + q)[|p| + j] == u;
  }

  lemma {:induction false} WithoutKeepsOrder(q: seq<Tid>, v: Tid, t: Tid, u: Tid)
    requires Ahead(q, t, u) && v != t && v != u
    ensures Ahead(Without(q, v), t, u)
  {
    var i, j :| 0 <= i < j < |q| && q[i] == t && q[j] == u;
    if i > 0 {
      assert q[1..][i - 1] == t && q[1..][j - 1] == u;
      if q[0] != v {
        WithoutKeepsOrder(q[1..], v, t, u);
        AheadBehind([q[0]], Without(q[1..], v), t, u);
      }
    } else {
      var rest := Without(q[1..], v);
      assert q[1..][j - 1] == u && u in rest;
      var k :| 0 <= k < |rest| && rest[k] == u;
      assert Without(q, v)[0] == t && Without(q, v)[k + 1] == u;
    }
  }

  lemma StepKeepsOrder(s: State, a: Action, o: Oid, t: Tid, u: Tid)
    requires Queues(s) && Enabled(s, a) && o in s.objects && Ahead(s.objects[o].block.queue, t, u)
    requires o in Step(s, a).objects
    requires t in Step(s, a).objects[o].block.queue && u in Step(s, a).objects[o].block.queue
    ensures Ahead(Step(s, a).objects[o].block.queue, t, u)
  {
    var q, q' := s.objects[o].block.queue, Step(s, a).objects[o].block.queue;
    QueueSteps(s, a, o);
    assert Distinct(q);
    hide Step, Enabled, Queues;
    if q <= q' {
      var i, j :| 0 <= i < j < |q| && q[i] == t && q[j] == u;
      assert q'[i] == t && q'[j] == u;
    } else {
      var v :| v in q && q' == Without(q, v);
      WithoutDistinct(q, v);
      WithoutKeepsOrder(q, v, t, u);
    }
  }

  /** Queues grow at the back and otherwise only lose one task. */
  lemma QueueSteps(s: State, a: Action, o: Oid)
    requires Enabled(s, a) && o in s.objects && o in Step(s, a).objects
    ensures var (q, q') := (s.objects[o].block.queue, Step(s, a).objects[o].block.queue);
            q <= q' || exists v :: v in q && q' == Without(q, v)
  {
    var q, q' := s.objects[o].block.queue, Step(s, a).objects[o].block.queue;
    if Posts(a, o) && q != [] {
      assert q[0] in q && q' == Without(q, q[0]);
    } else if a.Cancel? && a.timer.o == o && q' != q {
      assert a.timer.t in q && q' == Without(q, a.timer.t);
    }
  }

  /** First come, first served: `u` is not served while `t`, who queued before it, still waits. */
  lemma {:induction false} ServedInOrder(r: Run, m: nat, n: nat, o: Oid, t: Tid, u: Tid)
    requires IsRun(r) && m <= n && n + 1 < |r.states| && o in r.states[m].objects
    requires Ahead(r.states[m].objects[o].block.queue, t, u)
    requires forall k | m <= k <= n :: Waits(r.states[k], t, o) && Waits(r.states[k], u, o)
    requires Posts(r.actions[n], o)
    ensures Waits(r.states[n], u, o) && r.states[n].objects[o].block.queue[0] != u && Waits(r.states[n + 1], u, o)
    decreases n - m
  {
    hide Inv, Init;
    var s := r.states[m];
    InvHasQueues(r, m);
    assert StepsAt(r, m) && Waits(s, t, o);
    if m < n {
      hide Step, Enabled, Queues;
      assert Waits(r.states[m + 1], t, o) && Waits(r.states[m + 1], u, o);
      StepKeepsOrder(s, r.actions[m], o, t, u);
      ServedInOrder(r, m + 1, n, o, t, u);
    } else {
      var q := s.objects[o].block.queue;
      var i, j :| 0 <= i < j < |q| && q[i] == t && q[j] == u;
      assert Distinct(q) && q[0] != q[j];
      assert q[1..][j - 1] == u;
    }
  }

  lemma InvHasQueues(r: Run, n: nat)
    requires IsRun(r) && n < |r.states|
    ensures Queues(r.states[n])
  {
    RunKeepsInv(r, n);
  }

  // ---------------------------------------------------------------- signals as locks

  predicate Holds(s: State, t: Tid, o: Oid) {
    o in s.objects && t in s.objects[o].holders
  }

  /** Unless it is refused, a Wakeup of `o` gives back a signal that its caller holds. */
  predicate GivesOwn(s: State, a: Action, o: Oid) {
    Posts(a, o) && o in s.objects && !Post(s.objects[o].block).Refused? ==> Holds(s, a.poster, o)
  }

  ghost predicate Disciplined(r: Run, n: nat, o: Oid)
    requires IsRun(r) && n < |r.states|
  {
    forall i | 0 <= i < n :: GivesOwn(r.states[i], r.actions[i], o)
  }

  /** Every signal is stored or held. */
  predicate Accounted(s: State, o: Oid) {
    o in s.objects && |s.objects[o].holders| + s.objects[o].block.wakeup == s.objects[o].initial
  }

  lemma GrantKeepsAccount(b: Object, b': Object, t: Tid)
    requires IsGranted(b, b', t)
    ensures |b'.holders| + b'.block.wakeup == |b.holders| + b.block.wakeup && b'.initial == b.initial
  {
  }

  lemma PostKeepsAccount(b: Object, b': Object, poster: Tid)
    requires IsPosted(b, b', poster)
    ensures b'.initial == b.initial
    ensures |b'.holders| + b'.block.wakeup == |b.holders| + b.block.wakeup <==>
            Post(b.block).Refused? || poster in b.holders
  {
    assert poster in b.holders ==> |Removed(b.holders, poster)| == |b.holders| - 1;
    assert poster !in b.holders ==> Removed(b.holders, poster) == b.holders;
  }

  /** A step keeps the account of an object, unless it gives back a signal its caller does not hold. */
  lemma StepKeepsAccount(s: State, a: Action, o: Oid)
    requires Enabled(s, a) && Accounted(s, o)
    ensures Accounted(Step(s, a), o) <==> GivesOwn(s, a, o)
  {
    ObjectMoves(s, a, o);
    hide Step, Enabled, Post, IsPosted, IsGranted;
    var (b, b') := (s.objects[o], Step(s, a).objects[o]);
    if Posts(a, o) {
      PostKeepsAccount(b, b', a.poster);
    } else if t :| IsGranted(b, b', t) {
      GrantKeepsAccount(b, b', t);
    }
  }

  lemma {:induction false} RunKeepsAccount(r: Run, n: nat, o: Oid)
    requires IsRun(r) && n < |r.states| && o in r.states[0].objects && Disciplined(r, n, o)
    ensures Accounted(r.states[n], o)
  {
    hide Step, Enabled;
    if n > 0 {
      RunKeepsAccount(r, n - 1, o);
      assert StepsAt(r, n - 1);
      StepKeepsAccount(r.states[n - 1], r.actions[n - 1], o);
    }
  }

  /** Every signal is stored or held all along a run if and only if nobody gives back one it does not hold. */
  lemma AccountedIffDisciplined(r: Run, n: nat, o: Oid)
    requires IsRun(r) && n < |r.states| && o in r.states[0].objects
    ensures (forall i | 0 <= i <= n :: Accounted(r.states[i], o)) <==> Disciplined(r, n, o)
  {
    hide Step, Enabled;
    if Disciplined(r, n, o) {
      forall i | 0 <= i <= n ensures Accounted(r.states[i], o) {
        RunKeepsAccount(r, i, o);
      }
    } else {
      var i :| 0 <= i < n && !GivesOwn(r.states[i], r.actions[i], o);
      assert StepsAt(r, i);
      if Accounted(r.states[i], o) {
        StepKeepsAccount(r.states[i], r.actions[i], o);
        assert !Accounted(r.states[i + 1], o);
      }
    }
  }

  lemma {:induction false} LimitsStay(r: Run, n: nat, o: Oid)
    requires IsRun(r) && n < |r.states| && o in r.states[0].objects
    ensures o in r.states[n].objects
    ensures r.states[n].objects[o].initial == r.states[0].objects[o].initial
    ensures r.states[n].objects[o].block.maxWakeup == r.states[0].objects[o].block.maxWakeup
  {
    hide Step, Enabled;
    if n > 0 {
      LimitsStay(r, n - 1, o);
      assert StepsAt(r, n - 1);
      ObjectMoves(r.states[n - 1], r.actions[n - 1], o);
    }
  }

  /** Then no holder is ever refused. */
  lemma HoldersAreNotRefused(r: Run, n: nat, o: Oid, t: Tid)
    requires IsRun(r) && n < |r.states| && o in r.states[0].objects && Disciplined(r, n, o)
    requires r.states[0].objects[o].initial <= r.states[0].objects[o].block.maxWakeup && Holds(r.states[n], t, o)
    ensures !Post(r.states[n].objects[o].block).Refused?
  {
    RunKeepsAccount(r, n, o);
    LimitsStay(r, n, o);
    assert |r.states[n].objects[o].holders - multiset{t}| + 1 == |r.states[n].objects[o].holders|;
  }

  /** CoMutex is a BlockObject(1, 1): lock is a granted wait and unlock a Wakeup. */
  predicate IsMutex(b: Object) {
    b.initial == 1 && b.block.maxWakeup == 1
  }

  /**
   If only holders unlock, a mutex has one holder or its signal is stored, and never both; then an
   unlock by the holder is not refused, and one of a free mutex is.
   */
  lemma MutexHasOneHolder(r: Run, n: nat, o: Oid)
    requires IsRun(r) && n < |r.states| && o in r.states[0].objects && IsMutex(r.states[0].objects[o])
    requires Disciplined(r, n, o)
    ensures o in r.states[n].objects
    ensures var b := r.states[n].objects[o];
            if b.block.wakeup == 0 then
              && (exists t :: b.holders == multiset{t})
              && !Post(b.block).Refused?
            else b.block.wakeup == 1 && b.holders == multiset{} && Post(b.block).Refused?
  {
    LimitsStay(r, n, o);
    RunKeepsAccount(r, n, o);
    SignalsAreConserved(r, n, o);
    var b := r.states[n].objects[o];
    if b.block.wakeup == 0 {
      var t :| t in b.holders;
      assert |b.holders - multiset{t}| == 0;
      assert b.holders == multiset{t};
    }
  }

  /** A mutex that a task holds is granted to nobody until that task unlocks it. */
  lemma HeldUntilUnlocked(r: Run, n: nat, o: Oid, t: Tid)
    requires IsRun(r) && n + 1 < |r.states| && o in r.states[0].objects && IsMutex(r.states[0].objects[o])
    requires Disciplined(r, n + 1, o) && Holds(r.states[n], t, o) && r.actions[n] != Wakeup(t, o)
    ensures o in r.states[n + 1].objects && r.states[n + 1].objects[o].holders == multiset{t}
  {
    MutexHasOneHolder(r, n, o);
    MutexHasOneHolder(r, n + 1, o);
    assert StepsAt(r, n);
    HolderStays(r.states[n], r.actions[n], o, t);
    var u :| r.states[n + 1].objects[o].holders == multiset{u};
    assert r.states[n + 1].objects[o].holders[t] > 0;
  }

  lemma HolderStays(s: State, a: Action, o: Oid, t: Tid)
    requires Enabled(s, a) && Holds(s, t, o) && a != Wakeup(t, o)
    ensures Holds(Step(s, a), t, o)
  {
    ObjectMoves(s, a, o);
    hide Step, Enabled, Post;
  }
}
