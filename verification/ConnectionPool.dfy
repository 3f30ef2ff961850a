/**
 The pool of cluster connections that threads share: ten connections for each range of slots and for
 each redirect host, leased and given back under one lock that every wait gives up.
 */
module ConnectionPool {
  import opened Bytes

  type Con = nat
  type Tid = nat

  const POOL_SIZE: nat := 10

  /** The pools of the initial nodes, by first slot, and those made for redirects, by host and port. */
  datatype PoolId = Slots(first: nat) | Host(name: Str)

  /** A queue of idle connections; the pool was made with the connections from `base` on. */
  datatype Pool = Pool(base: nat, idle: seq<Con>)

  function FreshPool(base: nat): (p: Pool)
    ensures p.base == base && |p.idle| == POOL_SIZE == 10 && forall k :: 0 <= k < 10 ==> p.idle[k] == base + k
  {
    Pool(base, seq(POOL_SIZE, k requires 0 <= k => base + k))
  }

  predicate Owns(p: Pool, c: Con) {
    p.base <= c < p.base + POOL_SIZE
  }

  /** pullConnection, once the queue is not empty. */
  function Pulled(p: Pool): Pool
    requires p.idle != []
  {
    p.(idle := p.idle[1..])
  }

  function Pushed(p: Pool, c: Con): Pool {
    p.(idle := p.idle + [c])
  }

  // ---------------------------------------------------------------- as one thread sees it

  /** What comes of a command: Broken throws after the redirect was leased, and Failed before that. */
  datatype Outcome = Ready | Ask(host: Str) | Moved(host: Str) | Broken(host: Str) | Failed

  predicate Redirects(outcome: Outcome) {
    outcome.Ask? || outcome.Moved? || outcome.Broken?
  }

  /** How far a call of process() gets: to its end, to an exception, or to a pull that waits. */
  datatype Progress = Returned | Thrown | Waits(p: PoolId)

  class ThreadedPool {
    var pools: map<PoolId, Pool>
    /** How many connections have been made; the next one is named by this number. */
    var made: nat
    var isMoved: bool

    constructor ()
      ensures pools == map[] && made == 0 && !isMoved
    {
      pools := map[];
      made := 0;
      isMoved := false;
    }

    method FillPool() returns (pool: Pool)
      modifies this`made
      ensures pool == FreshPool(old(made)) && made == old(made) + POOL_SIZE
    {
      var base := made;
      var idle := [];
      for i := 0 to POOL_SIZE
        invariant made == base + i && idle == FreshPool(base).idle[..i]
      {
        var conn := made;
        made := made + 1;
        assert FreshPool(base).idle[..i + 1] == FreshPool(base).idle[..i] + [conn];
        idle := idle + [conn];
      }
      assert idle == FreshPool(base).idle;
      return Pool(base, idle);
    }

    /** With an empty queue the thread waits, and others go on. */
    method PullConnection(p: PoolId) returns (con: Option<Con>)
      requires p in pools
      modifies this`pools
      ensures old(pools)[p].idle == [] ==> con == None && pools == old(pools)
      ensures old(pools)[p].idle != [] ==>
                con == Some(old(pools)[p].idle[0]) && pools == old(pools)[p := Pulled(old(pools)[p])]
    {
      if pools[p].idle == [] {
        return None;
      }
      con := Some(pools[p].idle[0]);
      pools := pools[p := pools[p].(idle := pools[p].idle[1..])];
    }

    method PushConnection(p: PoolId, con: Con)
      requires p in pools
      modifies this`pools
      ensures pools == old(pools)[p := Pushed(old(pools)[p], con)]
    {
      pools := pools[p := pools[p].(idle := pools[p].idle + [con])];
    }

    method InsertNode(first: nat)
      modifies this`pools, this`made
      ensures pools == old(pools)[Slots(first) := FreshPool(old(made))] && made == old(made) + POOL_SIZE
    {
      var pool := FillPool();
      pools := pools[Slots(first) := pool];
    }

    /** The connection for a redirect: from the host's pool, which is made if there is none. */
    method InsertHost(host: Str) returns (con: Option<Con>)
      modifies this`pools, this`made
      ensures var before := HostPool(old(pools), host, old(made));
              if before.idle == [] then con == None && pools == old(pools)
              else con == Some(before.idle[0]) && pools == old(pools)[Host(host) := Pulled(before)]
      ensures made == old(made) + (if Host(host) in old(pools) then 0 else POOL_SIZE)
    {
      if Host(host) !in pools {
        var pool := FillPool();
        pools := pools[Host(host) := pool];
      }
      con := PullConnection(Host(host));
    }

    /**
     HiredisCommand::process. It gives back every connection it takes, each to the pool it came from, whose
     queue is turned round by one place; only if it throws after a redirect is that connection lost.
     */
    method Process(first: nat, outcome: Outcome) returns (r: Progress)
      requires Slots(first) in pools
      modifies this
      ensures old(pools)[Slots(first)].idle == [] ==>
                r == Waits(Slots(first)) && pools == old(pools) && made == old(made) && isMoved == old(isMoved)
      ensures old(pools)[Slots(first)].idle != [] ==>
                var once := old(pools)[Slots(first) := Turned(old(pools)[Slots(first)])];
                if !Redirects(outcome) then
                  && r == (if outcome.Ready? then Returned else Thrown)
                  && pools == once && made == old(made) && isMoved == old(isMoved)
                else
                  var h, pool := Host(outcome.host), HostPool(once, outcome.host, old(made));
                  && made == old(made) + (if h in once then 0 else POOL_SIZE)
                  && isMoved == (old(isMoved) || (outcome.Moved? && pool.idle != []))
                  && (if pool.idle == [] then r == Waits(h) && pools == once
                      else if outcome.Broken? then r == Thrown && pools == once[h := Pulled(pool)]
                      else r == Returned && pools == once[h := Turned(pool)])
    {
      var con := PullConnection(Slots(first));
      if con == None {
        return Waits(Slots(first));
      }
      PushConnection(Slots(first), con.value);
      if outcome.Ready? {
        return Returned;
      } else if outcome.Failed? {
        return Thrown;
      }
      var hcon := InsertHost(outcome.host);
      if hcon == None {
        return Waits(Host(outcome.host));
      }
      if outcome.Broken? {
        return Thrown;
      }
      isMoved := isMoved || outcome.Moved?;
      PushConnection(Host(outcome.host), hcon.value);
      return Returned;
    }

    /** disconnect() of one pool, after `pulls` of its pulls: it goes on until the queue is empty or ten are freed. */
    method DisconnectPool(p: PoolId, pulls: nat) returns (freed: seq<Con>, done: bool)
      requires p in pools && pulls <= POOL_SIZE
      modifies this`pools
      ensures var idle := old(pools)[p].idle;
              && done == (pulls + |idle| >= POOL_SIZE)
              && freed == (if done then idle[..POOL_SIZE - pulls] else idle)
              && pools == (if done then old(pools) - {p} else old(pools)[p := old(pools)[p].(idle := [])])
    {
      ghost var before := pools[p];
      freed := [];
      for i := pulls to POOL_SIZE
        invariant i - pulls <= |before.idle| && freed == before.idle[..i - pulls]
        invariant p in pools && pools == old(pools)[p := before.(idle := before.idle[i - pulls..])]
      {
        var con := PullConnection(p);
        if con == None {
          return freed, false;
        }
        freed := freed + [con.value];
      }
      pools := pools - {p};
      return freed, true;
    }
  }

  function HostPool(pools: map<PoolId, Pool>, host: Str, made: nat): Pool {
    if Host(host) in pools then pools[Host(host)] else FreshPool(made)
  }

  function Turned(p: Pool): Pool
    requires p.idle != []
  {
    Pushed(Pulled(p), p.idle[0])
  }

  /** A turned queue holds the same connections. */
  lemma TurnedKeeps(p: Pool)
    requires p.idle != []
    ensures multiset(Turned(p).idle) == multiset(p.idle) && Turned(p).base == p.base
  {
    assert p.idle == [p.idle[0]] + p.idle[1..];
  }

  /** The queue of a pool after `k` commands, each of which has turned it. */
  function AfterTurns(p: Pool, k: nat): (q: Pool)
    requires p.idle != []
    ensures |q.idle| == |p.idle|
  {
    if k == 0 then p else Turned(AfterTurns(p, k - 1))
  }

  /** Commands take the connections of a pool in turn, and after as many as it has the first is next again. */
  lemma {:induction false} RoundRobin(p: Pool, k: nat)
    requires k <= |p.idle| && p.idle != []
    ensures AfterTurns(p, k).idle == p.idle[k..] + p.idle[..k]
    ensures AfterTurns(p, k).idle[0] == p.idle[if k == |p.idle| then 0 else k]
  {
    if k > 0 {
      RoundRobin(p, k - 1);
      var q := AfterTurns(p, k - 1).idle;
      assert q[1..] == p.idle[k..] + p.idle[..k - 1];
      assert q[1..] + [q[0]] == p.idle[k..] + (p.idle[..k - 1] + [p.idle[k - 1]]);
      assert p.idle[..k] == p.idle[..k - 1] + [p.idle[k - 1]];
    }
  }

  // ---------------------------------------------------------------- as the threads interleave

  /** Where a thread is in process(); Pulling may have to wait. `redirect` marks the second lease. */
  datatype Thread =
    | Outside
    | Pulling(p: PoolId, redirect: bool)
    | Leasing(p: PoolId, con: Con, redirect: bool)
    | Redirected(host: Str)

  /** disconnect() takes one pool after the other, with `pulls` pulls of the current one behind it. */
  datatype Disconnecting = NoPool | Emptying(p: PoolId, pulls: nat)

  /** `freed` are the connections disconnect() has freed, `lost` those never given back after an exception. */
  datatype State = State(pools: map<PoolId, Pool>, threads: map<Tid, Thread>, made: nat,
                         disconnecting: Disconnecting, freed: seq<Con>, lost: set<Con>)

  datatype Action =
    | AddNode(first: nat)
    | Start(t: Tid, p: PoolId)
    | Pull(t: Tid)
    | Return(t: Tid)
    | Redirect(t: Tid, host: Str)
    | Enter(t: Tid)
    | Throw(t: Tid)
    | Disconnect(p: PoolId)
    | FreeOne
    | Delete

  predicate Init(s: State) {
    && s.pools == map[] && s.made == 0 && s.disconnecting == NoPool && s.freed == [] && s.lost == {}
    && forall t | t in s.threads :: s.threads[t] == Outside
  }

  /** Ranges have distinct first slots. */
  predicate Enabled(s: State, a: Action) {
    match a
    case AddNode(first) => Slots(first) !in s.pools
    case Start(t, p) => t in s.threads && s.threads[t] == Outside && p.Slots? && p in s.pools
    case Pull(t) =>
      t in s.threads && s.threads[t].Pulling? && s.threads[t].p in s.pools && s.pools[s.threads[t].p].idle != []
    case Return(t) => t in s.threads && s.threads[t].Leasing? && s.threads[t].p in s.pools
    case Redirect(t, _) =>
      t in s.threads && s.threads[t].Leasing? && !s.threads[t].redirect && s.threads[t].p in s.pools
    case Enter(t) => t in s.threads && s.threads[t].Redirected?
    case Throw(t) => t in s.threads && s.threads[t].Leasing? && s.threads[t].redirect
    case Disconnect(p) => s.disconnecting == NoPool && p in s.pools
    case FreeOne =>
      var d := s.disconnecting;
      d.Emptying? && d.pulls < POOL_SIZE && d.p in s.pools && s.pools[d.p].idle != []
    case Delete => s.disconnecting.Emptying? && s.disconnecting.pulls == POOL_SIZE
  }

  function Step(s: State, a: Action): State
    requires Enabled(s, a)
  {
    match a
    case AddNode(first) =>
      s.(pools := s.pools[Slots(first) := FreshPool(s.made)], made := s.made + POOL_SIZE)
    case Start(t, p) => s.(threads := s.threads[t := Pulling(p, false)])
    case Pull(t) =>
      var k := s.threads[t];
      var pool := s.pools[k.p];
      s.(pools := s.pools[k.p := Pulled(pool)], threads := s.threads[t := Leasing(k.p, pool.idle[0], k.redirect)])
    case Return(t) =>
      var k := s.threads[t];
      s.(pools := s.pools[k.p := Pushed(s.pools[k.p], k.con)], threads := s.threads[t := Outside])
    case Redirect(t, host) =>
      var k := s.threads[t];
      s.(pools := s.pools[k.p := Pushed(s.pools[k.p], k.con)], threads := s.threads[t := Redirected(host)])
    case Enter(t) =>
      var p := Host(s.threads[t].host);
      if p in s.pools then s.(threads := s.threads[t := Pulling(p, true)])
      else
        s.(pools := s.pools[p := Pulled(FreshPool(s.made))], made := s.made + POOL_SIZE,
           threads := s.threads[t := Leasing(p, FreshPool(s.made).idle[0], true)])
    case Throw(t) => s.(threads := s.threads[t := Outside], lost := s.lost + {s.threads[t].con})
    case Disconnect(p) => s.(disconnecting := Emptying(p, 0))
    case FreeOne =>
      var p := s.disconnecting.p;
      s.(pools := s.pools[p := Pulled(s.pools[p])], freed := s.freed + [s.pools[p].idle[0]],
         disconnecting := Emptying(p, s.disconnecting.pulls + 1))
    case Delete => s.(pools := s.pools - {s.disconnecting.p}, disconnecting := NoPool)
  }

  // ---------------------------------------------------------------- what every step keeps

  predicate NoRepeats(q: seq<Con>) {
    forall i, j :: 0 <= i < j < |q| ==> q[i] != q[j]
  }

  predicate Leases(k: Thread, p: PoolId, c: Con) {
    k.Leasing? && k.p == p && k.con == c
  }

  predicate LeasedBy(s: State, t: Tid, p: PoolId, c: Con) {
    t in s.threads && Leases(s.threads[t], p, c)
  }

  ghost predicate Leased(s: State, p: PoolId, c: Con) {
    exists t: Tid :: LeasedBy(s, t, p, c)
  }

  predicate InQueue(s: State, p: PoolId, c: Con) {
    p in s.pools && c in s.pools[p].idle
  }

  predicate OwnedBy(s: State, p: PoolId, c: Con) {
    p in s.pools && Owns(s.pools[p], c)
  }

  predicate Gone(s: State, c: Con) {
    c in s.freed || c in s.lost
  }

  /** Pools own different connections, all of them made before. */
  ghost predicate Apart(s: State) {
    && (forall p: PoolId, c: Con :: OwnedBy(s, p, c) ==> c < s.made)
    && (forall p: PoolId, q: PoolId, c: Con :: OwnedBy(s, p, c) && OwnedBy(s, q, c) ==> p == q)
    && (forall c: Con :: Gone(s, c) ==> c < s.made)
  }

  /** A pool's connection is idle, leased, freed or lost: at least one of these, and never two. */
  ghost predicate Placed(s: State) {
    && (forall p: PoolId, c: Con :: OwnedBy(s, p, c) ==> InQueue(s, p, c) || Leased(s, p, c) || Gone(s, c))
    && (forall p: PoolId, c: Con :: InQueue(s, p, c) ==> OwnedBy(s, p, c) && !Gone(s, c))
    && (forall t: Tid, p: PoolId, c: Con :: LeasedBy(s, t, p, c) ==>
          OwnedBy(s, p, c) && !Gone(s, c) && !InQueue(s, p, c))
    && (forall t: Tid, u: Tid, p: PoolId, c: Con :: LeasedBy(s, t, p, c) && LeasedBy(s, u, p, c) ==> t == u)
  }

  ghost predicate InPlace(s: State) {
    && Apart(s) && Placed(s) && NoRepeats(s.freed) && (forall c :: c in s.freed ==> c !in s.lost)
    && (forall p | p in s.pools :: NoRepeats(s.pools[p].idle))
  }

  /** The connections of a pool that have been freed. */
  function FreedOf(base: nat, freed: seq<Con>): set<Con> {
    set c: Con | base <= c < base + POOL_SIZE && c in freed
  }

  function Pulls(s: State, p: PoolId): nat {
    if s.disconnecting.Emptying? && s.disconnecting.p == p then s.disconnecting.pulls else 0
  }

  /** As many connections of a pool have been freed as disconnect() has pulled out of it. */
  ghost predicate Counted(s: State) {
    && (s.disconnecting.Emptying? ==> s.disconnecting.p in s.pools)
    && (forall p | p in s.pools :: |FreedOf(s.pools[p].base, s.freed)| == Pulls(s, p))
  }

  ghost predicate Inv(s: State) {
    InPlace(s) && Counted(s)
  }

  lemma InitInv(s: State)
    requires Init(s)
    ensures Inv(s)
  {
  }

  // ---------------------------------------------------------------- the kinds of step

  predicate SameGone(s: State, s': State) {
    s'.freed == s.freed && s'.lost == s.lost
  }

  predicate SameLease(s: State, s': State, t: Tid) {
    s'.threads.Keys == s.threads.Keys && t in s.threads &&
    s'.threads == s.threads[t := s'.threads[t]] && !s.threads[t].Leasing? && !s'.threads[t].Leasing?
  }

  /** No connection moves. */
  lemma NothingMoves(s: State, s': State, t: Tid)
    requires InPlace(s) && s'.pools == s.pools && s'.made == s.made && SameGone(s, s')
    requires s'.threads == s.threads || SameLease(s, s', t)
    ensures InPlace(s')
  {
    forall c: Con ensures Gone(s', c) == Gone(s, c) {
    }
    forall u: Tid, p: PoolId, c: Con ensures LeasedBy(s', u, p, c) == LeasedBy(s, u, p, c) {
    }
    forall p: PoolId, c: Con ensures InQueue(s', p, c) == InQueue(s, p, c) && OwnedBy(s', p, c) == OwnedBy(s, p, c) {
    }
    forall p: PoolId, c: Con ensures Leased(s, p, c) ==> Leased(s', p, c) {
      if Leased(s, p, c) {
        var u :| LeasedBy(s, u, p, c);
        assert LeasedBy(s', u, p, c);
      }
    }
  }

  lemma QueueFront(q: seq<Con>)
    requires q != [] && NoRepeats(q)
    ensures NoRepeats(q[1..]) && q[0] !in q[1..] && forall c :: c in q && c != q[0] ==> c in q[1..]
  {
    forall c | c in q && c != q[0] ensures c in q[1..] {
      var i :| 0 <= i < |q| && q[i] == c;
      assert q[1..][i - 1] == c;
    }
  }

  /** The front of a queue goes to a thread, or is freed. */
  predicate Takes(s: State, s': State, p: PoolId, t: Tid, freeing: bool) {
    && p in s.pools && s.pools[p].idle != [] && s'.pools == s.pools[p := Pulled(s.pools[p])] && s'.made == s.made
    && (if freeing then s'.threads == s.threads && s'.freed == s.freed + [s.pools[p].idle[0]] && s'.lost == s.lost
        else
          && t in s.threads && !s.threads[t].Leasing? && SameGone(s, s')
          && exists r :: s'.threads == s.threads[t := Leasing(p, s.pools[p].idle[0], r)])
  }

  lemma TakingMoves(s: State, s': State, p: PoolId, t: Tid, freeing: bool)
    requires InPlace(s) && Takes(s, s', p, t, freeing)
    ensures InPlace(s')
  {
    var con := s.pools[p].idle[0];
    QueueFront(s.pools[p].idle);
    assert InQueue(s, p, con) && OwnedBy(s, p, con);
    forall c: Con ensures Gone(s', c) == (Gone(s, c) || (freeing && c == con)) {
    }
    forall u: Tid, q: PoolId, c: Con
      ensures LeasedBy(s', u, q, c) == (LeasedBy(s, u, q, c) || (!freeing && u == t && q == p && c == con))
    {
    }
    forall q: PoolId, c: Con ensures OwnedBy(s', q, c) == OwnedBy(s, q, c) {
    }
    forall q: PoolId, c: Con ensures InQueue(s', q, c) == (InQueue(s, q, c) && !(q == p && c == con)) {
    }
    forall q: PoolId, c: Con ensures Leased(s, q, c) ==> Leased(s', q, c) {
      if Leased(s, q, c) {
        var u :| LeasedBy(s, u, q, c);
        assert LeasedBy(s', u, q, c);
      }
    }
    assert !freeing ==> LeasedBy(s', t, p, con);
    assert freeing ==> con in s'.freed;
    forall q: PoolId, c: Con | OwnedBy(s', q, c) ensures InQueue(s', q, c) || Leased(s', q, c) || Gone(s', c) {
      assert OwnedBy(s, q, c);
    }
  }

  /** A leased connection goes to the back of its pool's queue. */
  predicate Gives(s: State, s': State, p: PoolId, t: Tid) {
    && t in s.threads && s.threads[t].Leasing? && s.threads[t].p == p && p in s.pools
    && s'.pools == s.pools[p := Pushed(s.pools[p], s.threads[t].con)] && s'.made == s.made && SameGone(s, s')
    && s'.threads.Keys == s.threads.Keys && s'.threads == s.threads[t := s'.threads[t]] && !s'.threads[t].Leasing?
  }

  lemma QueueBack(q: seq<Con>, c: Con)
    requires NoRepeats(q) && c !in q
    ensures NoRepeats(q + [c])
  {
  }

  lemma GivingMoves(s: State, s': State, p: PoolId, t: Tid)
    requires InPlace(s) && Gives(s, s', p, t)
    ensures InPlace(s')
  {
    forall c: Con ensures Gone(s', c) == Gone(s, c) {
    }
    var con := s.threads[t].con;
    assert LeasedBy(s, t, p, con);
    assert !InQueue(s, p, con);
    QueueBack(s.pools[p].idle, con);
    forall u: Tid, q: PoolId, c: Con ensures LeasedBy(s', u, q, c) == (LeasedBy(s, u, q, c) && u != t) {
    }
    forall q: PoolId, c: Con ensures OwnedBy(s', q, c) == OwnedBy(s, q, c) {
    }
    forall q: PoolId, c: Con ensures InQueue(s', q, c) == (InQueue(s, q, c) || (q == p && c == con)) {
    }
    forall q: PoolId, c: Con | OwnedBy(s', q, c) ensures InQueue(s', q, c) || Leased(s', q, c) || Gone(s', c) {
      assert OwnedBy(s, q, c);
      if Leased(s, q, c) {
        var u :| LeasedBy(s, u, q, c);
        if u != t {
          assert LeasedBy(s', u, q, c);
        }
      }
    }
  }

  /** A new pool, of connections that did not exist before. */
  predicate Makes(s: State, s': State, p: PoolId) {
    && p !in s.pools && s'.pools == s.pools[p := FreshPool(s.made)] && s'.made == s.made + POOL_SIZE
    && SameGone(s, s') && s'.threads == s.threads
  }

  lemma InFreshPool(base: nat)
    ensures NoRepeats(FreshPool(base).idle) && forall c: Con :: c in FreshPool(base).idle <==> Owns(FreshPool(base), c)
  {
    var q := FreshPool(base).idle;
    forall c: Con | Owns(FreshPool(base), c) ensures c in q {
      assert q[c - base] == c;
    }
  }

  lemma MakingMoves(s: State, s': State, p: PoolId)
    requires InPlace(s) && Makes(s, s', p)
    ensures InPlace(s')
  {
    forall c: Con ensures Gone(s', c) == Gone(s, c) {
    }
    InFreshPool(s.made);
    forall u: Tid, q: PoolId, c: Con ensures LeasedBy(s', u, q, c) == LeasedBy(s, u, q, c) {
    }
    forall q: PoolId, c: Con
      ensures OwnedBy(s', q, c) == (OwnedBy(s, q, c) || (q == p && s.made <= c < s.made + POOL_SIZE))
      ensures InQueue(s', q, c) == (InQueue(s, q, c) || (q == p && s.made <= c < s.made + POOL_SIZE))
    {
      assert Owns(FreshPool(s.made), c) == (s.made <= c < s.made + POOL_SIZE);
    }
    forall q: PoolId, c: Con | OwnedBy(s', q, c) ensures InQueue(s', q, c) || Leased(s', q, c) || Gone(s', c) {
      if OwnedBy(s, q, c) && Leased(s, q, c) {
        var u :| LeasedBy(s, u, q, c);
        assert LeasedBy(s', u, q, c);
      }
    }
  }

  /** A leased connection is not given back. */
  predicate Loses(s: State, s': State, t: Tid) {
    && t in s.threads && s.threads[t].Leasing? && s'.pools == s.pools && s'.made == s.made
    && s'.threads == s.threads[t := Outside] && s'.freed == s.freed && s'.lost == s.lost + {s.threads[t].con}
  }

  lemma LosingMoves(s: State, s': State, t: Tid)
    requires InPlace(s) && Loses(s, s', t)
    ensures InPlace(s')
  {
    var p, con := s.threads[t].p, s.threads[t].con;
    assert LeasedBy(s, t, p, con) && OwnedBy(s, p, con) && !Gone(s, con);
    forall c: Con ensures Gone(s', c) == (Gone(s, c) || c == con) {
    }
    forall u: Tid, q: PoolId, c: Con ensures LeasedBy(s', u, q, c) == (LeasedBy(s, u, q, c) && u != t) {
    }
    forall q: PoolId, c: Con ensures OwnedBy(s', q, c) == OwnedBy(s, q, c) && InQueue(s', q, c) == InQueue(s, q, c) {
    }
    forall q: PoolId, c: Con | OwnedBy(s', q, c) ensures InQueue(s', q, c) || Leased(s', q, c) || Gone(s', c) {
      assert OwnedBy(s, q, c);
      if Leased(s, q, c) {
        var u :| LeasedBy(s, u, q, c);
        if u != t {
          assert LeasedBy(s', u, q, c);
        }
      }
    }
    forall u: Tid, q: PoolId, c: Con | LeasedBy(s', u, q, c) ensures !Gone(s', c) {
      assert OwnedBy(s, q, c);
    }
    forall q: PoolId, c: Con | InQueue(s', q, c) ensures !Gone(s', c) {
      assert OwnedBy(s, q, c) && InQueue(s, q, c);
    }
  }

  predicate AllFreed(s: State, p: PoolId)
    requires p in s.pools
  {
    forall c: Con | s.pools[p].base <= c < s.pools[p].base + POOL_SIZE :: c in s.freed
  }

  predicate Deletes(s: State, s': State, p: PoolId) {
    && p in s.pools && s'.pools == s.pools - {p} && s'.made == s.made && SameGone(s, s') && s'.threads == s.threads
  }

  lemma DeletedIsNotLeased(s: State, p: PoolId, t: Tid, c: Con)
    requires InPlace(s) && p in s.pools && AllFreed(s, p)
    ensures !LeasedBy(s, t, p, c)
  {
  }

  lemma DeletingMoves(s: State, s': State, p: PoolId)
    requires InPlace(s) && Deletes(s, s', p) && AllFreed(s, p)
    ensures InPlace(s')
  {
    forall c: Con ensures Gone(s', c) == Gone(s, c) {
    }
    forall u: Tid, q: PoolId, c: Con ensures LeasedBy(s', u, q, c) == LeasedBy(s, u, q, c) {
    }
    forall q: PoolId, c: Con
      ensures OwnedBy(s', q, c) == (OwnedBy(s, q, c) && q != p) && InQueue(s', q, c) == (InQueue(s, q, c) && q != p)
    {
    }
    forall t: Tid, c: Con ensures !LeasedBy(s, t, p, c) {
      DeletedIsNotLeased(s, p, t, c);
    }
    forall q: PoolId, c: Con | OwnedBy(s', q, c) ensures InQueue(s', q, c) || Leased(s', q, c) || Gone(s', c) {
      assert OwnedBy(s, q, c);
      if Leased(s, q, c) {
        var u :| LeasedBy(s, u, q, c);
        assert LeasedBy(s', u, q, c);
      }
    }
  }

  // ---------------------------------------------------------------- counting what is freed

  function Numbers(base: nat, n: nat): (r: set<Con>)
    ensures |r| == n && forall c: Con :: c in r <==> base <= c < base + n
  {
    if n == 0 then {} else Numbers(base, n - 1) + {base + n - 1}
  }

  lemma {:induction false} FullSubset(a: set<Con>, b: set<Con>)
    requires a <= b && |a| == |b|
    ensures a == b
  {
    if a != {} {
      var c :| c in a;
      FullSubset(a - {c}, b - {c});
    }
  }

  /** Ten different connections freed are all the connections of the pool. */
  lemma TenPullsAreAll(s: State, p: PoolId)
    requires Counted(s) && p in s.pools && Pulls(s, p) == POOL_SIZE
    ensures AllFreed(s, p)
  {
    var base := s.pools[p].base;
    FullSubset(FreedOf(base, s.freed), Numbers(base, POOL_SIZE));
    forall c: Con | base <= c < base + POOL_SIZE ensures c in s.freed {
      assert c in Numbers(base, POOL_SIZE);
    }
  }

  /** Freeing one connection counts in its own pool only. */
  lemma FreedOfOne(s: State, p: PoolId, q: PoolId)
    requires InPlace(s) && p in s.pools && q in s.pools && s.pools[p].idle != []
    ensures var more := s.freed + [s.pools[p].idle[0]];
            |FreedOf(s.pools[q].base, more)| == |FreedOf(s.pools[q].base, s.freed)| + (if p == q then 1 else 0)
  {
    var con := s.pools[p].idle[0];
    assert InQueue(s, p, con) && OwnedBy(s, p, con) && !Gone(s, con);
    if p == q {
      assert FreedOf(s.pools[q].base, s.freed + [con]) == FreedOf(s.pools[q].base, s.freed) + {con};
    } else {
      assert !OwnedBy(s, q, con);
      assert FreedOf(s.pools[q].base, s.freed + [con]) == FreedOf(s.pools[q].base, s.freed);
    }
  }

  lemma NoneFreedYet(s: State)
    requires InPlace(s)
    ensures |FreedOf(s.made, s.freed)| == 0
  {
    forall c | c in s.freed ensures c < s.made {
      assert Gone(s, c);
    }
    assert FreedOf(s.made, s.freed) == {};
  }

  /** The pools are those of before, with their bases, or one more that is new. */
  predicate KeepsBases(s: State, s': State) {
    && s'.freed == s.freed && s'.disconnecting == s.disconnecting && s.pools.Keys <= s'.pools.Keys
    && (forall p | p in s'.pools :: s'.pools[p].base == if p in s.pools then s.pools[p].base else s.made)
  }

  lemma KeepingCounts(s: State, s': State)
    requires Inv(s) && KeepsBases(s, s')
    ensures Counted(s')
  {
    NoneFreedYet(s);
    forall p | p in s'.pools ensures |FreedOf(s'.pools[p].base, s'.freed)| == Pulls(s', p) {
      if p in s.pools {
        assert |FreedOf(s.pools[p].base, s.freed)| == Pulls(s, p);
      }
    }
  }

  lemma StepKeepsCounted(s: State, a: Action)
    requires Inv(s) && Enabled(s, a)
    ensures Counted(Step(s, a))
  {
    hide InPlace, FreedOf, FreshPool;
    var s' := Step(s, a);
    match a {
      case Disconnect(p) =>
        assert |FreedOf(s.pools[p].base, s.freed)| == Pulls(s, p);
      case FreeOne =>
        forall q | q in s'.pools ensures |FreedOf(s'.pools[q].base, s'.freed)| == Pulls(s', q) {
          FreedOfOne(s, s.disconnecting.p, q);
          assert |FreedOf(s.pools[q].base, s.freed)| == Pulls(s, q);
        }
      case Delete =>
        forall q | q in s'.pools ensures |FreedOf(s'.pools[q].base, s'.freed)| == Pulls(s', q) {
          assert |FreedOf(s.pools[q].base, s.freed)| == Pulls(s, q);
        }
      case _ => KeepingCounts(s, s');
    }
  }

  lemma StepKeepsInv(s: State, a: Action)
    requires Inv(s) && Enabled(s, a)
    ensures Inv(Step(s, a))
  {
    hide InPlace, Counted, Apart, Placed, NoRepeats, FreshPool;
    StepKeepsCounted(s, a);
    var s' := Step(s, a);
    match a {
      case AddNode(first) => MakingMoves(s, s', Slots(first));
      case Start(t, _) => NothingMoves(s, s', t);
      case Pull(t) =>
        assert s'.threads == s.threads[t := Leasing(s.threads[t].p, s.pools[s.threads[t].p].idle[0],
          s.threads[t].redirect)];
        TakingMoves(s, s', s.threads[t].p, t, false);
      case Return(t) => GivingMoves(s, s', s.threads[t].p, t);
      case Redirect(t, _) => GivingMoves(s, s', s.threads[t].p, t);
      case Enter(t) =>
        var p := Host(s.threads[t].host);
        if p in s.pools {
          NothingMoves(s, s', t);
        } else {
          var made := s.(pools := s.pools[p := FreshPool(s.made)], made := s.made + POOL_SIZE);
          MakingMoves(s, made, p);
          assert s'.pools == made.pools[p := Pulled(made.pools[p])];
          assert s'.threads == made.threads[t := Leasing(p, made.pools[p].idle[0], true)];
          TakingMoves(made, s', p, t, false);
        }
      case Throw(t) => LosingMoves(s, s', t);
      case Disconnect(_) => NothingMoves(s, s', 0);
      case FreeOne => TakingMoves(s, s', s.disconnecting.p, 0, true);
      case Delete =>
        EmptiedPool(s);
        TenPullsAreAll(s, s.disconnecting.p);
        DeletingMoves(s, s', s.disconnecting.p);
    }
  }

  lemma EmptiedPool(s: State)
    requires Counted(s) && s.disconnecting.Emptying?
    ensures s.disconnecting.p in s.pools && Pulls(s, s.disconnecting.p) == s.disconnecting.pulls
  {
  }

  // ---------------------------------------------------------------- runs

  datatype Run = Run(states: seq<State>, actions: seq<Action>)

  ghost predicate IsRun(r: Run) {
    && |r.states| == |r.actions| + 1 && Init(r.states[0])
    && forall i | 0 <= i < |r.actions| :: StepsAt(r, i)
  }

  predicate StepsAt(r: Run, i: nat)
    requires i < |r.actions| && i + 1 < |r.states|
  {
    Enabled(r.states[i], r.actions[i]) && r.states[i + 1] == Step(r.states[i], r.actions[i])
  }

  lemma {:induction false} RunKeepsInv(r: Run, n: nat)
    requires IsRun(r) && n < |r.states|
    ensures Inv(r.states[n])
  {
    hide Init, Inv, Step, Enabled;
    if n == 0 {
      InitInv(r.states[0]);
    } else {
      RunKeepsInv(r, n - 1);
      assert StepsAt(r, n - 1);
      StepKeepsInv(r.states[n - 1], r.actions[n - 1]);
    }
  }

  predicate LosesFront(q: seq<Con>, q': seq<Con>) {
    q != [] && q' == q[1..]
  }

  predicate GainsBack(q: seq<Con>, q': seq<Con>) {
    |q'| == |q| + 1 && q'[..|q|] == q
  }

  /**
   First in, first out: a step leaves a pool's queue alone, takes its front, or puts one connection behind
   it; and the front goes to the thread that pulls, or to the freed ones.
   */
  lemma QueuesAreFifo(r: Run, n: nat, p: PoolId)
    requires IsRun(r) && n + 1 < |r.states| && p in r.states[n].pools && p in r.states[n + 1].pools
    ensures var (q, q') := (r.states[n].pools[p].idle, r.states[n + 1].pools[p].idle);
            q' == q || LosesFront(q, q') || GainsBack(q, q')
    ensures var (s, s', a) := (r.states[n], r.states[n + 1], r.actions[n]);
            a.Pull? && a.t in s.threads && s.threads[a.t].Pulling? && s.threads[a.t].p == p ==>
              && LosesFront(s.pools[p].idle, s'.pools[p].idle) && a.t in s'.threads
              && s'.threads[a.t] == Leasing(p, s.pools[p].idle[0], s.threads[a.t].redirect)
    ensures var (s, s') := (r.states[n], r.states[n + 1]);
            r.actions[n] == FreeOne && s.disconnecting.Emptying? && s.disconnecting.p == p ==>
              LosesFront(s.pools[p].idle, s'.pools[p].idle) && s'.freed == s.freed + [s.pools[p].idle[0]]
  {
    assert StepsAt(r, n);
    hide IsRun, FreshPool;
  }

  /** In every interleaving a pool's connection is in exactly one place: idle, leased by one thread, freed or lost. */
  lemma ConnectionsAreConserved(r: Run, n: nat, p: PoolId, c: Con)
    requires IsRun(r) && n < |r.states| && OwnedBy(r.states[n], p, c)
    ensures var s := r.states[n];
            && (InQueue(s, p, c) || Leased(s, p, c) || c in s.freed || c in s.lost)
            && !(InQueue(s, p, c) && Leased(s, p, c)) && !(c in s.freed && c in s.lost)
            && !((InQueue(s, p, c) || Leased(s, p, c)) && (c in s.freed || c in s.lost))
    ensures forall t: Tid, u: Tid | LeasedBy(r.states[n], t, p, c) && LeasedBy(r.states[n], u, p, c) :: t == u
  {
    RunKeepsInv(r, n);
    var s := r.states[n];
    assert Gone(s, c) == (c in s.freed || c in s.lost);
    if Leased(s, p, c) {
      var t :| LeasedBy(s, t, p, c);
    }
  }

  /** A pool never holds or leases a connection of another pool, nor two copies of one. */
  lemma PoolsAreApart(r: Run, n: nat, p: PoolId, q: PoolId, c: Con)
    requires IsRun(r) && n < |r.states| && p != q && (InQueue(r.states[n], p, c) || Leased(r.states[n], p, c))
    ensures !InQueue(r.states[n], q, c) && !Leased(r.states[n], q, c)
    ensures p in r.states[n].pools ==> NoRepeats(r.states[n].pools[p].idle)
  {
    RunKeepsInv(r, n);
    hide Inv;
    UsedByItsPool(r.states[n], p, c);
    UsedByItsPool(r.states[n], q, c);
    OwnedByOne(r.states[n], p, q, c);
  }

  lemma UsedByItsPool(s: State, p: PoolId, c: Con)
    requires Inv(s)
    ensures InQueue(s, p, c) || Leased(s, p, c) ==> OwnedBy(s, p, c)
    ensures p in s.pools ==> NoRepeats(s.pools[p].idle)
  {
    if Leased(s, p, c) {
      var t :| LeasedBy(s, t, p, c);
    }
  }

  lemma OwnedByOne(s: State, p: PoolId, q: PoolId, c: Con)
    requires Inv(s) && p != q
    ensures !(OwnedBy(s, p, c) && OwnedBy(s, q, c))
  {
  }

  /** When disconnect() deletes a pool, its ten pulls have freed each of its ten connections, once. */
  lemma FreedOnce(r: Run, n: nat)
    requires IsRun(r) && n + 1 < |r.states| && r.actions[n] == Delete
    ensures r.states[n].disconnecting.Emptying?
    ensures var p := r.states[n].disconnecting.p;
            p in r.states[n].pools && p !in r.states[n + 1].pools && AllFreed(r.states[n], p)
    ensures r.states[n + 1].freed == r.states[n].freed && NoRepeats(r.states[n].freed)
  {
    RunKeepsInv(r, n);
    assert StepsAt(r, n);
    hide InPlace, Counted;
    EmptiedPool(r.states[n]);
    TenPullsAreAll(r.states[n], r.states[n].disconnecting.p);
    FreedNoRepeats(r.states[n]);
  }

  lemma FreedNoRepeats(s: State)
    requires InPlace(s)
    ensures NoRepeats(s.freed)
  {
  }

  /** A pool that has lost a connection is never deleted: disconnect() waits for it for ever. */
  lemma LostIsWaitedFor(r: Run, n: nat, p: PoolId, c: Con)
    requires IsRun(r) && n < |r.states| && OwnedBy(r.states[n], p, c) && c in r.states[n].lost
    ensures forall m | n <= m < |r.states| :: OwnedBy(r.states[m], p, c) && c in r.states[m].lost
  {
    forall m | n <= m < |r.states| ensures OwnedBy(r.states[m], p, c) && c in r.states[m].lost {
      LostStays(r, n, m, p, c);
    }
  }

  lemma {:induction false} LostStays(r: Run, n: nat, m: nat, p: PoolId, c: Con)
    requires IsRun(r) && n <= m < |r.states| && OwnedBy(r.states[n], p, c) && c in r.states[n].lost
    ensures OwnedBy(r.states[m], p, c) && c in r.states[m].lost
    decreases m - n
  {
    if n < m {
      LostStays(r, n, m - 1, p, c);
      RunKeepsInv(r, m - 1);
      assert StepsAt(r, m - 1);
      LostStep(r.states[m - 1], r.actions[m - 1], p, c);
    }
  }

  lemma LostStep(s: State, a: Action, p: PoolId, c: Con)
    requires Inv(s) && Enabled(s, a) && OwnedBy(s, p, c) && c in s.lost
    ensures OwnedBy(Step(s, a), p, c) && c in Step(s, a).lost
  {
    if a.Delete? {
      EmptiedPool(s);
      TenPullsAreAll(s, s.disconnecting.p);
    }
  }
}
