/**
 CoMutex and the reader/writer lock on top of it, as a transition system over any number of tasks.
 A step is one atomic operation on the reader count or one locked region of the mutex; a task uses
 one side of the lock at a time and unlocks only what it has locked.
 */
module RWMutex {
  import opened Bytes
  import opened BlockObjects

  /**
   Readers: Counted has added itself to the count, TurnedAway has seen the mutex held, Sleeping is between
   two rounds of r_lock. Writers: Undecided has found no signal, InLine waits, Holding has the mutex and
   reads the count, GivingUp is a w_try_lock that saw readers. `forever` tells lock from try_lock.
   */
  datatype Role =
    | Free
    | Counted(forever: bool)
    | TurnedAway(forever: bool)
    | Sleeping
    | Reading
    | Undecided
    | InLine
    | Holding(forever: bool)
    | GivingUp
    | Writing

  datatype Lock = Lock(mutex: Block, readers: int, roles: map<Tid, Role>)

  datatype Move =
    | Count(t: Tid, forever: bool)
    | CheckMutex(t: Tid)
    | CountBack(t: Tid)
    | ReadUnlock(t: Tid)
    | WriteLock(t: Tid)
    | WriteWait(t: Tid)
    | WriteTryLock(t: Tid)
    | CheckReaders(t: Tid)
    | WriteUnlock(t: Tid)

  predicate Start(l: Lock) {
    l.mutex == Block(1, 1, []) && l.readers == 0 && forall t | t in l.roles :: l.roles[t] == Free
  }

  predicate Can(l: Lock, m: Move) {
    m.t in l.roles &&
    var r := l.roles[m.t];
    match m
    case Count(_, forever) => r == Free || (r == Sleeping && forever)
    case CheckMutex(_) => r.Counted?
    case CountBack(_) => r.TurnedAway?
    case ReadUnlock(_) => r == Reading
    case WriteLock(_) => r == Free
    case WriteWait(_) => r == Undecided
    case WriteTryLock(_) => r == Free
    case CheckReaders(_) => r.Holding?
    case WriteUnlock(_) => r == Writing || r == GivingUp
  }

  function Become(l: Lock, t: Tid, r: Role): Lock {
    l.(roles := l.roles[t := r])
  }

  /** CoMutex::unlock, which hands the mutex to the longest waiting task; None is the exception. */
  function Unlock(l: Lock): Option<Lock> {
    match Post(l.mutex)
    case Popped(u, b) => Some(Become(l.(mutex := b), u, Holding(true)))
    case Stored(b) => Some(l.(mutex := b))
    case Refused => None
  }

  /** The state after a move; None when the source's assertion fails or unlock throws. */
  function Moved(l: Lock, m: Move): Option<Lock>
    requires Can(l, m)
  {
    var t := m.t;
    match m
    case Count(_, forever) => Some(Become(l.(readers := l.readers + 1), t, Counted(forever)))
    case CheckMutex(_) =>
      Some(Become(l, t, if l.mutex.wakeup > 0 then Reading else TurnedAway(l.roles[t].forever)))
    case CountBack(_) =>
      Some(Become(l.(readers := l.readers - 1), t, if l.roles[t].forever then Sleeping else Free))
    case ReadUnlock(_) =>
      if l.readers - 1 >= 0 then Some(Become(l.(readers := l.readers - 1), t, Free)) else None
    case WriteLock(_) =>
      (match Take(l.mutex)
       case Some(b) => Some(Become(l.(mutex := b), t, Holding(true)))
       case None => Some(Become(l, t, Undecided)))
    case WriteWait(_) =>
      var (b, queued) := Enqueue(l.mutex, t);
      Some(Become(l.(mutex := b), t, if queued then InLine else Holding(true)))
    case WriteTryLock(_) =>
      (match Take(l.mutex)
       case Some(b) => Some(Become(l.(mutex := b), t, Holding(false)))
       case None => Some(l))
    case CheckReaders(_) =>
      Some(Become(l, t, if l.readers == 0 then Writing else if l.roles[t].forever then Holding(true) else GivingUp))
    case WriteUnlock(_) => Unlock(Become(l, t, Free))
  }

  /** What becomes of a lock when moves are made one after the other; None when one cannot be, or fails. */
  function Performed(l: Lock, moves: seq<Move>): Option<Lock>
    decreases |moves|
  {
    if moves == [] then Some(l)
    else if !Can(l, moves[0]) then None
    else match Moved(l, moves[0])
         case None => None
         case Some(l') => Performed(l', moves[1..])
  }

  /** w_try_lock: the mutex is tried, then the readers are looked at, then the mutex is given back. */
  function TryLockMoves(t: Tid, held: bool, readers: int): seq<Move> {
    if held then [WriteTryLock(t)]
    else if readers == 0 then [WriteTryLock(t), CheckReaders(t)]
    else [WriteTryLock(t), CheckReaders(t), WriteUnlock(t)]
  }

  /** The lock as one task alone sees it. */
  function Alone(mutex: Block, readers: int, t: Tid, r: Role): Lock {
    Lock(mutex, readers, map[t := r])
  }

  lemma BecomeAlone(l: Lock, t: Tid, r: Role)
    requires l.roles.Keys == {t}
    ensures Become(l, t, r) == Alone(l.mutex, l.readers, t, r)
  {
    assert l.roles[t := r] == map[t := r];
  }

  lemma PerformedFirst(l: Lock, m: Move, moves: seq<Move>)
    requires Can(l, m) && Moved(l, m).Some?
    ensures Performed(l, [m] + moves) == Performed(Moved(l, m).value, moves)
  {
    assert ([m] + moves)[1..] == moves;
  }

  lemma ReadTryMoves(mutex: Block, readers: int, t: Tid)
    ensures var free := mutex.wakeup > 0;
            Performed(Alone(mutex, readers, t, Free),
                      [Count(t, false), CheckMutex(t)] + if free then [] else [CountBack(t)])
              == Some(if free then Alone(mutex, readers + 1, t, Reading) else Alone(mutex, readers, t, Free))
  {
    var (free, l0) := (mutex.wakeup > 0, Alone(mutex, readers, t, Free));
    var l1 := Alone(mutex, readers + 1, t, Counted(false));
    var l2 := Alone(mutex, readers + 1, t, if free then Reading else TurnedAway(false));
    var rest := if free then [] else [CountBack(t)];
    BecomeAlone(l0.(readers := readers + 1), t, Counted(false));
    BecomeAlone(l1, t, l2.roles[t]);
    BecomeAlone(l2.(readers := readers), t, Free);
    PerformedFirst(l0, Count(t, false), [CheckMutex(t)] + rest);
    PerformedFirst(l1, CheckMutex(t), rest);
    assert [Count(t, false)] + ([CheckMutex(t)] + rest) == [Count(t, false), CheckMutex(t)] + rest;
    if !free {
      PerformedFirst(l2, CountBack(t), []);
    }
  }

  lemma WriteTryMoves(mutex: Block, readers: int, t: Tid)
    requires mutex.maxWakeup == 1 >= mutex.wakeup && (mutex.wakeup == 1 ==> mutex.queue == [])
    ensures var (held, taken) := (mutex.wakeup == 0, mutex.(wakeup := 0));
            Performed(Alone(mutex, readers, t, Free), TryLockMoves(t, held, readers))
              == Some(if !held && readers == 0 then Alone(taken, readers, t, Writing)
                      else Alone(mutex, readers, t, Free))
  {
    hide Performed;
    var (l0, taken) := (Alone(mutex, readers, t, Free), mutex.(wakeup := 0));
    if mutex.wakeup == 0 {
      PerformedFirst(l0, WriteTryLock(t), []);
      NothingPerformed(l0);
      assert [WriteTryLock(t)] + [] == TryLockMoves(t, true, readers);
    } else {
      var l1 := Alone(taken, readers, t, Holding(false));
      var rest := [CheckReaders(t)] + if readers == 0 then [] else [WriteUnlock(t)];
      BecomeAlone(l0.(mutex := taken), t, Holding(false));
      PerformedFirst(l0, WriteTryLock(t), rest);
      assert [WriteTryLock(t)] + rest == TryLockMoves(t, false, readers);
      CheckMoves(taken, readers, t);
    }
  }

  /** What follows when w_try_lock has the mutex. */
  lemma CheckMoves(taken: Block, readers: int, t: Tid)
    requires taken.wakeup == 0 && taken.queue == [] && taken.maxWakeup == 1
    ensures Performed(Alone(taken, readers, t, Holding(false)),
                      [CheckReaders(t)] + if readers == 0 then [] else [WriteUnlock(t)])
              == Some(if readers == 0 then Alone(taken, readers, t, Writing)
                      else Alone(taken.(wakeup := 1), readers, t, Free))
  {
    hide Performed;
    var l1 := Alone(taken, readers, t, Holding(false));
    var l2 := Alone(taken, readers, t, if readers == 0 then Writing else GivingUp);
    var rest := if readers == 0 then [] else [WriteUnlock(t)];
    BecomeAlone(l1, t, l2.roles[t]);
    PerformedFirst(l1, CheckReaders(t), rest);
    NothingPerformed(l2);
    if readers != 0 {
      var l3 := Alone(taken.(wakeup := 1), readers, t, Free);
      BecomeAlone(l2, t, Free);
      PerformedFirst(l2, WriteUnlock(t), []);
      NothingPerformed(l3);
      assert [WriteUnlock(t)] + [] == rest;
    }
  }

  lemma NothingPerformed(l: Lock)
    ensures Performed(l, []) == Some(l)
  {
  }

  lemma UnlockMoves(mutex: Block, readers: int, t: Tid)
    ensures Performed(Alone(mutex, readers, t, Reading), [ReadUnlock(t)])
         == if readers > 0 then Some(Alone(mutex, readers - 1, t, Free)) else None
    ensures Performed(Alone(mutex, readers, t, Writing), [WriteUnlock(t)]) == Unlock(Alone(mutex, readers, t, Free))
  {
    var reading, writing := Alone(mutex, readers, t, Reading), Alone(mutex, readers, t, Writing);
    assert Become(reading.(readers := readers - 1), t, Free) == Alone(mutex, readers - 1, t, Free);
    assert Become(writing, t, Free) == Alone(mutex, readers, t, Free);
    assert [ReadUnlock(t)][1..] == [] && [WriteUnlock(t)][1..] == [];
  }

  // ---------------------------------------------------------------- the calls that do not wait

  /** CoMutex and the count, with the calls that return at once, as they run undisturbed. */
  class CoRWMutex {
    const mtx: BlockObject
    var readersC: int

    /** The mutex is free or held, and nobody waits for a free one. */
    ghost predicate Valid()
      reads this, mtx
    {
      mtx.maxWakeup == 1 >= mtx.wakeup && (mtx.wakeup == 1 ==> mtx.waitQueue == [])
    }

    ghost predicate Held()
      reads mtx
    {
      mtx.wakeup == 0
    }

    /** The lock as one task sees it. */
    ghost function View(t: Tid, r: Role): Lock
      reads this, mtx
    {
      Alone(mtx.State(), readersC, t, r)
    }

    constructor ()
      ensures Valid() && !Held() && readersC == 0 && mtx.waitQueue == [] && fresh(mtx)
    {
      mtx := new BlockObject(1, 1);
      readersC := 0;
    }

    method ReadTryLock() returns (ok: bool)
      requires Valid()
      modifies this
      ensures Valid() && (ok <==> !Held()) && readersC == old(readersC) + (if ok then 1 else 0)
      ensures forall t: Tid ::
                Performed(old(View(t, Free)), [Count(t, false), CheckMutex(t)] + if ok then [] else [CountBack(t)])
                  == Some(View(t, if ok then Reading else Free))
    {
      forall t: Tid {
        ReadTryMoves(mtx.State(), readersC, t);
      }
      readersC := readersC + 1;
      var free := mtx.IsWakeup();
      if !free {
        readersC := readersC - 1;
        return false;
      }
      return true;
    }

    /** false is the failed assertion. */
    method ReadUnlock() returns (ok: bool)
      requires Valid()
      modifies this
      ensures Valid() && readersC == old(readersC) - 1 && (ok <==> old(readersC) > 0)
      ensures forall t: Tid ::
                Performed(old(View(t, Reading)), [Move.ReadUnlock(t)]) == if ok then Some(View(t, Free)) else None
    {
      forall t: Tid {
        UnlockMoves(mtx.State(), readersC, t);
      }
      readersC := readersC - 1;
      return readersC >= 0;
    }

    /** Either the writer is alone inside, or nothing has changed. */
    method WriteTryLock() returns (ok: bool)
      requires Valid()
      modifies mtx
      ensures Valid() && (ok <==> !old(Held()) && readersC == 0)
      ensures mtx.State() == if ok then old(mtx.State()).(wakeup := 0) else old(mtx.State())
      ensures forall t: Tid ::
                Performed(old(View(t, Free)), TryLockMoves(t, old(Held()), readersC))
                  == Some(View(t, if ok then Writing else Free))
    {
      forall t: Tid {
        WriteTryMoves(mtx.State(), readersC, t);
      }
      var locked := mtx.TryBlockWait();
      if !locked {
        return false;
      }
      if readersC != 0 {
        var _, _ := mtx.Wakeup();
        return false;
      }
      return true;
    }

    /** The mutex goes to the first task that waits for it; false is the exception of a double unlock. */
    method WriteUnlock() returns (ok: bool, next: Option<Tid>)
      requires Valid()
      modifies mtx
      ensures Valid() && (ok <==> old(Held()))
      ensures next == if old(Held()) && old(mtx.waitQueue) != [] then Some(old(mtx.waitQueue)[0]) else None
      ensures Held() <==> next.Some?
      ensures forall t: Tid ::
                Performed(old(View(t, Writing)), [Move.WriteUnlock(t)])
                  == if !ok then None
                     else if next == None then Some(View(t, Free))
                     else Some(Become(View(t, Free), next.value, Holding(true)))
    {
      forall t: Tid {
        UnlockMoves(mtx.State(), readersC, t);
      }
      ok, next := mtx.Wakeup();
    }
  }

  // ---------------------------------------------------------------- invariants

  predicate HasCounted(r: Role) {
    r.Counted? || r.TurnedAway? || r.Reading?
  }

  predicate Holds(r: Role) {
    r.Holding? || r.GivingUp? || r.Writing?
  }

  function Counting(roles: map<Tid, Role>): set<Tid> {
    set t | t in roles && HasCounted(roles[t])
  }

  function Readers(roles: map<Tid, Role>): set<Tid> {
    set t | t in roles && roles[t].Reading?
  }

  function Holders(roles: map<Tid, Role>): set<Tid> {
    set t | t in roles && Holds(roles[t])
  }

  /** Nobody but `t` is inside when `t` writes. */
  ghost predicate Exclusive(roles: map<Tid, Role>) {
    forall t, u | t in roles && roles[t].Writing? && u in roles && u != t :: !roles[u].Writing? && !roles[u].Reading?
  }

  predicate QueueInv(l: Lock) {
    && Distinct(l.mutex.queue)
    && (forall t | t in l.mutex.queue :: t in l.roles && l.roles[t].InLine?)
    && (forall t | t in l.roles && l.roles[t].InLine? :: t in l.mutex.queue)
    && (l.mutex.wakeup > 0 ==> l.mutex.queue == [])
  }

  ghost predicate Safe(l: Lock) {
    && l.readers == |Counting(l.roles)|
    && |Holders(l.roles)| + l.mutex.wakeup == 1 == l.mutex.maxWakeup
    && QueueInv(l)
    && Exclusive(l.roles)
  }

  /** How one task's new role changes the two head counts. */
  lemma RoleChange(roles: map<Tid, Role>, t: Tid, r: Role)
    requires t in roles
    ensures |Counting(roles[t := r])|
         == |Counting(roles)| - (if HasCounted(roles[t]) then 1 else 0) + (if HasCounted(r) then 1 else 0)
    ensures |Holders(roles[t := r])|
         == |Holders(roles)| - (if Holds(roles[t]) then 1 else 0) + (if Holds(r) then 1 else 0)
  {
    Resize(Counting(roles), Counting(roles[t := r]), t);
    Resize(Holders(roles), Holders(roles[t := r]), t);
  }

  lemma Resize(s: set<Tid>, s': set<Tid>, t: Tid)
    requires forall u | u != t :: u in s <==> u in s'
    ensures |s'| == |s| - (if t in s then 1 else 0) + (if t in s' then 1 else 0)
  {
    assert s - {t} == s' - {t};
    assert |s - {t}| == |s| - (if t in s then 1 else 0);
    assert |s' - {t}| == |s'| - (if t in s' then 1 else 0);
  }

  lemma OnlyHolder(roles: map<Tid, Role>, t: Tid, u: Tid)
    requires |Holders(roles)| <= 1 && t in roles && u in roles && Holds(roles[t]) && Holds(roles[u])
    ensures t == u
  {
    var h := Holders(roles);
    assert {t, u} <= h;
    Subset({t, u}, h);
  }

  lemma {:induction false} Subset(a: set<Tid>, b: set<Tid>)
    requires a <= b
    ensures |a| <= |b|
  {
    assert b == a + (b - a);
  }

  lemma NoneCounts(roles: map<Tid, Role>, t: Tid)
    requires |Counting(roles)| == 0 && t in roles
    ensures !HasCounted(roles[t])
  {
    assert t in Counting(roles) <==> HasCounted(roles[t]);
  }

  lemma CountedIsCounted(roles: map<Tid, Role>, t: Tid)
    requires t in roles && HasCounted(roles[t])
    ensures |Counting(roles)| > 0
  {
    assert t in Counting(roles);
  }

  lemma StartSafe(l: Lock)
    requires Start(l)
    ensures Safe(l)
  {
    assert Counting(l.roles) == {} && Holders(l.roles) == {};
  }

  lemma HolderExcludes(l: Lock, t: Tid)
    requires Safe(l) && t in l.roles && Holds(l.roles[t])
    ensures l.mutex.wakeup == 0 && forall u | u in l.roles && u != t :: !Holds(l.roles[u])
  {
    assert t in Holders(l.roles);
    forall u | u in l.roles && u != t ensures !Holds(l.roles[u]) {
      if Holds(l.roles[u]) {
        OnlyHolder(l.roles, t, u);
      }
    }
  }

  /** The readers' four moves touch the count and their own role only. */
  lemma ReaderKeepsSafe(l: Lock, m: Move)
    requires Safe(l) && Can(l, m) && (m.Count? || m.CheckMutex? || m.CountBack? || m.ReadUnlock?)
    ensures Moved(l, m).Some? && Safe(Moved(l, m).value)
  {
    if HasCounted(l.roles[m.t]) {
      CountedIsCounted(l.roles, m.t);
    }
    hide Counting, Holders;
    var l' := Moved(l, m).value;
    RoleChange(l.roles, m.t, l'.roles[m.t]);
    if m.CheckMutex? && l.mutex.wakeup > 0 {
      forall t | t in l.roles ensures !l.roles[t].Writing? {
        if l.roles[t].Writing? {
          HolderExcludes(l, t);
        }
      }
    }
  }

  lemma WriterKeepsSafe(l: Lock, m: Move)
    requires Safe(l) && Can(l, m) && (m.WriteLock? || m.WriteWait? || m.WriteTryLock?)
    ensures Moved(l, m).Some? && Safe(Moved(l, m).value)
  {
    hide Counting, Holders;
    var l' := Moved(l, m).value;
    RoleChange(l.roles, m.t, l'.roles[m.t]);
    assert l'.roles == l.roles[m.t := l'.roles[m.t]];
  }

  lemma EntryKeepsSafe(l: Lock, m: Move)
    requires Safe(l) && Can(l, m) && m.CheckReaders?
    ensures Moved(l, m).Some? && Safe(Moved(l, m).value)
  {
    hide Counting, Holders;
    var l' := Moved(l, m).value;
    RoleChange(l.roles, m.t, l'.roles[m.t]);
    HolderExcludes(l, m.t);
    if l.readers == 0 {
      forall t | t in l.roles ensures !HasCounted(l.roles[t]) {
        NoneCounts(l.roles, t);
      }
    }
  }

  lemma UnlockKeepsSafe(l: Lock, m: Move)
    requires Safe(l) && Can(l, m) && m.WriteUnlock?
    ensures Moved(l, m).Some? && Safe(Moved(l, m).value)
  {
    hide Counting, Holders;
    HolderExcludes(l, m.t);
    var freed := Become(l, m.t, Free);
    RoleChange(l.roles, m.t, Free);
    assert freed.mutex == l.mutex;
    var q := l.mutex.queue;
    if q != [] {
      QueueAfterFront(q);
      assert q[0] in l.roles && l.roles[q[0]].InLine?;
      RoleChange(freed.roles, q[0], Holding(true));
    }
  }

  lemma QueueAfterFront(q: seq<Tid>)
    requires q != [] && Distinct(q)
    ensures Distinct(q[1..]) && q[0] !in q[1..] && forall t | t in q[1..] :: t in q
  {
    WithoutDistinct(q, q[0]);
  }

  lemma MoveKeepsSafe(l: Lock, m: Move)
    requires Safe(l) && Can(l, m)
    ensures Moved(l, m).Some? && Safe(Moved(l, m).value)
  {
    hide Safe, Moved;
    match m {
      case Count(_, _) => ReaderKeepsSafe(l, m);
      case CheckMutex(_) => ReaderKeepsSafe(l, m);
      case CountBack(_) => ReaderKeepsSafe(l, m);
      case ReadUnlock(_) => ReaderKeepsSafe(l, m);
      case WriteLock(_) => WriterKeepsSafe(l, m);
      case WriteWait(_) => WriterKeepsSafe(l, m);
      case WriteTryLock(_) => WriterKeepsSafe(l, m);
      case CheckReaders(_) => EntryKeepsSafe(l, m);
      case WriteUnlock(_) => UnlockKeepsSafe(l, m);
    }
  }

  // ---------------------------------------------------------------- over whole runs

  datatype History = History(locks: seq<Lock>, moves: seq<Move>)

  ghost predicate IsHistory(h: History) {
    && |h.locks| == |h.moves| + 1 && Start(h.locks[0])
    && forall i | 0 <= i < |h.moves| :: MovesAt(h, i)
  }

  predicate MovesAt(h: History, i: nat)
    requires i < |h.moves| && i + 1 < |h.locks|
  {
    Can(h.locks[i], h.moves[i]) && Moved(h.locks[i], h.moves[i]) == Some(h.locks[i + 1])
  }

  lemma {:induction false} HistoryIsSafe(h: History, n: nat)
    requires IsHistory(h) && n < |h.locks|
    ensures Safe(h.locks[n])
  {
    hide Start, Safe, Can, Moved;
    if n == 0 {
      StartSafe(h.locks[0]);
    } else {
      HistoryIsSafe(h, n - 1);
      assert MovesAt(h, n - 1);
      MoveKeepsSafe(h.locks[n - 1], h.moves[n - 1]);
    }
  }

  /** Never a writer inside with a reader or another writer inside. */
  lemma WritersAreAlone(h: History, n: nat, t: Tid, u: Tid)
    requires IsHistory(h) && n < |h.locks|
    requires t in h.locks[n].roles && u in h.locks[n].roles && t != u && h.locks[n].roles[t].Writing?
    ensures !h.locks[n].roles[u].Writing? && !h.locks[n].roles[u].Reading?
  {
    HistoryIsSafe(h, n);
  }

  /** The count is exact, so the assertion of r_unlock holds, and the mutex has one holder or one signal. */
  lemma CountsAreExact(h: History, n: nat)
    requires IsHistory(h) && n < |h.locks|
    ensures h.locks[n].readers == |Counting(h.locks[n].roles)|
    ensures |Holders(h.locks[n].roles)| + h.locks[n].mutex.wakeup == 1
  {
    HistoryIsSafe(h, n);
  }

  /** No move of any task ever fails: r_unlock's assertion holds and unlock does not throw. */
  lemma NoMoveFails(h: History, n: nat, m: Move)
    requires IsHistory(h) && n < |h.locks| && Can(h.locks[n], m)
    ensures Moved(h.locks[n], m).Some?
  {
    HistoryIsSafe(h, n);
    MoveKeepsSafe(h.locks[n], m);
  }

  /** While some task holds the mutex no reader gets in. */
  lemma NoReaderEnters(h: History, n: nat, t: Tid)
    requires IsHistory(h) && n + 1 < |h.locks| && t in h.locks[n].roles && Holds(h.locks[n].roles[t])
    ensures Readers(h.locks[n + 1].roles) <= Readers(h.locks[n].roles)
  {
    HistoryIsSafe(h, n);
    HolderExcludes(h.locks[n], t);
    assert MovesAt(h, n);
    hide Safe;
  }

  /** So a waiting writer's readers only drain: over any stretch it holds the mutex, none is added. */
  lemma {:induction false} ReadersDrain(h: History, m: nat, n: nat, t: Tid)
    requires IsHistory(h) && m <= n < |h.locks|
    requires forall k | m <= k < n :: t in h.locks[k].roles && Holds(h.locks[k].roles[t])
    ensures Readers(h.locks[n].roles) <= Readers(h.locks[m].roles)
    decreases n - m
  {
    if m < n {
      hide IsHistory, Readers;
      ReadersDrain(h, m, n - 1, t);
      NoReaderEnters(h, n - 1, t);
    }
  }

  // ---------------------------------------------------------------- who gets in

  function InLineTasks(roles: map<Tid, Role>): set<Tid> {
    set t | t in roles && roles[t].InLine?
  }

  /** Task `t` plays `r` now, and nobody else's role has changed. */
  predicate Becomes(roles: map<Tid, Role>, roles': map<Tid, Role>, t: Tid, r: Role) {
    roles' == roles[t := r]
  }

  /**
   What each move makes of the tasks, told by who holds the mutex, who has counted itself and who stands in
   line: a reader gets in exactly when nobody holds the mutex, a writer exactly when in addition no reader
   has counted itself, and the mutex is never left free while a task stands in line for it.
   */
  predicate Outcome(roles: map<Tid, Role>, roles': map<Tid, Role>, m: Move)
    requires m.t in roles
  {
    var (t, unheld, unread) := (m.t, Holders(roles) == {}, Counting(roles) == {});
    match m
    case Count(_, forever) => Becomes(roles, roles', t, Counted(forever))
    case CheckMutex(_) =>
      roles[t].Counted? && Becomes(roles, roles', t, if unheld then Reading else TurnedAway(roles[t].forever))
    case CountBack(_) =>
      roles[t].TurnedAway? && Becomes(roles, roles', t, if roles[t].forever then Sleeping else Free)
    case ReadUnlock(_) => Becomes(roles, roles', t, Free)
    case WriteLock(_) => Becomes(roles, roles', t, if unheld then Holding(true) else Undecided)
    case WriteWait(_) => Becomes(roles, roles', t, if unheld then Holding(true) else InLine)
    case WriteTryLock(_) => Becomes(roles, roles', t, if unheld then Holding(false) else Free)
    case CheckReaders(_) =>
      roles[t].Holding?
        && Becomes(roles, roles', t, if unread then Writing else if roles[t].forever then Holding(true) else GivingUp)
    case WriteUnlock(_) =>
      if InLineTasks(roles) == {} then Becomes(roles, roles', t, Free)
      else exists u :: u in InLineTasks(roles) && Becomes(roles[t := Free], roles', u, Holding(true))
  }

  lemma FreeIffUnheld(l: Lock)
    requires Safe(l)
    ensures l.mutex.wakeup > 0 <==> Holders(l.roles) == {}
    ensures l.readers == 0 <==> Counting(l.roles) == {}
    ensures l.mutex.queue == [] <==> InLineTasks(l.roles) == {}
  {
    assert l.mutex.queue != [] ==> l.mutex.queue[0] in InLineTasks(l.roles);
  }

  lemma MoveHasOutcome(l: Lock, m: Move)
    requires Safe(l) && Can(l, m) && Moved(l, m).Some?
    ensures Outcome(l.roles, Moved(l, m).value.roles, m)
  {
    FreeIffUnheld(l);
    var l' := Moved(l, m).value;
    if m.WriteUnlock? && l.mutex.queue != [] {
      var u := l.mutex.queue[0];
      assert u in InLineTasks(l.roles) && Becomes(l.roles[m.t := Free], l'.roles, u, Holding(true));
    } else if m.WriteTryLock? && l.mutex.wakeup == 0 {
      assert l.roles[m.t := Free] == l.roles;
    }
    hide Safe, Counting, Holders, InLineTasks;
  }

  /** Along every history each move has the outcome that the roles of the tasks call for. */
  lemma MovesHaveOutcomes(h: History, n: nat)
    requires IsHistory(h) && n < |h.moves|
    ensures h.moves[n].t in h.locks[n].roles && Outcome(h.locks[n].roles, h.locks[n + 1].roles, h.moves[n])
  {
    HistoryIsSafe(h, n);
    assert MovesAt(h, n);
    MoveHasOutcome(h.locks[n], h.moves[n]);
    hide Safe, Moved, Outcome;
  }

  /** Nobody stands in line for a free mutex, and a task that does not stand in line has a move. */
  lemma NobodyWaitsForNothing(h: History, n: nat, t: Tid)
    requires IsHistory(h) && n < |h.locks| && t in h.locks[n].roles
    ensures h.locks[n].roles[t].InLine? ==> |Holders(h.locks[n].roles)| == 1
    ensures !h.locks[n].roles[t].InLine? ==> exists m: Move :: m.t == t && Can(h.locks[n], m)
  {
    HistoryIsSafe(h, n);
    var l := h.locks[n];
    FreeIffUnheld(l);
    assert l.roles[t].InLine? ==> t in InLineTasks(l.roles);
    hide Safe, Holders, IsHistory;
    match l.roles[t] {
      case Free => assert Can(l, WriteLock(t));
      case Counted(_) => assert Can(l, CheckMutex(t));
      case TurnedAway(_) => assert Can(l, CountBack(t));
      case Sleeping => assert Can(l, Count(t, true));
      case Reading => assert Can(l, ReadUnlock(t));
      case Undecided => assert Can(l, WriteWait(t));
      case InLine =>
      case Holding(_) => assert Can(l, CheckReaders(t));
      case GivingUp => assert Can(l, WriteUnlock(t));
      case Writing => assert Can(l, WriteUnlock(t));
    }
  }

  // ---------------------------------------------------------------- the line is served in order

  /** When `t` made its last move; -1 when it has made none. */
  function LastMove(moves: seq<Move>, t: Tid): (i: int)
    ensures -1 <= i < |moves|
    ensures i >= 0 ==> moves[i].t == t
  {
    if moves == [] then -1
    else if moves[|moves| - 1].t == t then |moves| - 1
    else LastMove(moves[..|moves| - 1], t)
  }

  lemma LastMoveSnoc(moves: seq<Move>, m: Move, t: Tid)
    ensures LastMove(moves + [m], t) == if m.t == t then |moves| else LastMove(moves, t)
  {
    assert (moves + [m])[..|moves|] == moves;
  }

  /** The queue holds the tasks in line in the order in which they joined it. */
  ghost predicate InOrder(q: seq<Tid>, moves: seq<Move>) {
    forall i, j | 0 <= i < j < |q| :: LastMove(moves, q[i]) < LastMove(moves, q[j])
  }

  lemma MoveKeepsOrder(l: Lock, m: Move, moves: seq<Move>)
    requires Safe(l) && Can(l, m) && Moved(l, m).Some? && InOrder(l.mutex.queue, moves)
    ensures InOrder(Moved(l, m).value.mutex.queue, moves + [m])
  {
    var (q, q') := (l.mutex.queue, Moved(l, m).value.mutex.queue);
    assert m.t !in q;
    assert q' == q || q' == q + [m.t] || (q != [] && q' == q[1..]);
    hide Safe, Moved, Can;
    forall i, j | 0 <= i < j < |q'| ensures LastMove(moves + [m], q'[i]) < LastMove(moves + [m], q'[j]) {
      LastMoveSnoc(moves, m, q'[i]);
      LastMoveSnoc(moves, m, q'[j]);
    }
  }

  lemma {:induction false} LineIsInOrder(h: History, n: nat)
    requires IsHistory(h) && n < |h.locks|
    ensures InOrder(h.locks[n].mutex.queue, h.moves[..n])
  {
    if n > 0 {
      LineIsInOrder(h, n - 1);
      HistoryIsSafe(h, n - 1);
      assert MovesAt(h, n - 1);
      MoveKeepsOrder(h.locks[n - 1], h.moves[n - 1], h.moves[..n - 1]);
      assert h.moves[..n - 1] + [h.moves[n - 1]] == h.moves[..n];
    }
    hide Safe, Moved, Can, InOrder;
  }

  /** A task in line that is handed the mutex joined the line before all others in it. */
  lemma LineIsServedInOrder(h: History, n: nat, u: Tid, v: Tid)
    requires IsHistory(h) && n < |h.moves| && u != v
    requires u in h.locks[n].roles && v in h.locks[n].roles
    requires h.locks[n].roles[u].InLine? && h.locks[n].roles[v].InLine?
    requires u in h.locks[n + 1].roles && !h.locks[n + 1].roles[u].InLine?
    ensures LastMove(h.moves[..n], u) < LastMove(h.moves[..n], v)
  {
    HistoryIsSafe(h, n);
    HistoryIsSafe(h, n + 1);
    LineIsInOrder(h, n);
    assert MovesAt(h, n);
    var q := h.locks[n].mutex.queue;
    assert u in q && v in q && u !in h.locks[n + 1].mutex.queue;
    assert q[0] == u;
    var j :| 0 <= j < |q| && q[j] == v;
    hide Safe;
  }

  lemma Extended(h: History, m: Move) returns (h': History)
    requires IsHistory(h) && Can(h.locks[|h.moves|], m) && Moved(h.locks[|h.moves|], m).Some?
    ensures IsHistory(h') && h'.moves == h.moves + [m]
    ensures h'.locks == h.locks + [Moved(h.locks[|h.moves|], m).value]
  {
    h' := History(h.locks + [Moved(h.locks[|h.moves|], m).value], h.moves + [m]);
    forall i | 0 <= i < |h'.moves| ensures MovesAt(h', i) {
      assert i < |h.moves| ==> MovesAt(h, i);
    }
  }

  /** The lock can be taken on either side: a history in which a reader has left and a writer is inside. */
  lemma ReaderThenWriter() returns (h: History)
    ensures IsHistory(h) && |h.locks| == 7
    ensures 0 in h.locks[2].roles && h.locks[2].roles[0] == Reading
    ensures 1 in h.locks[6].roles && h.locks[6].roles[1] == Writing
  {
    h := History([Lock(Block(1, 1, []), 0, map[0 := Free, 1 := Free])], []);
    h := Extended(h, Count(0, true));
    h := Extended(h, CheckMutex(0));
    h := Extended(h, WriteLock(1));
    h := Extended(h, CheckReaders(1));
    h := Extended(h, ReadUnlock(0));
    h := Extended(h, CheckReaders(1));
  }
}
