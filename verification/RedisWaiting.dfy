/**
 The commands a client still waits for: the handles whose replies nobody has begun to read, in the order
 of their commands. A client can keep this list from its own calls, and with it tell what it may do.
 */
module RedisWaiting {
  import opened RedisWire
  import opened RedisPipeline
  import opened RedisHandles

  predicate IsFresh(c: Conn, h: Hid) {
    h in c.handles && Fresh(c.handles[h])
  }

  function FreshIn(c: Conn, l: seq<Hid>): seq<Hid> {
    if l == [] then [] else (if IsFresh(c, l[0]) then [l[0]] else []) + FreshIn(c, l[1..])
  }

  function Waiting(c: Conn): seq<Hid> {
    FreshIn(c, c.list)
  }

  /** An enumerator whose header has been read, with elements still in the stream. */
  predicate IsStarted(c: Conn, h: Hid) {
    h in c.handles && c.handles[h].Enumerator? && c.handles[h].conn && c.handles[h].headerDone && c.handles[h].count > 0
  }

  /** What is listed behind `h`: reading a reply reads all those before it. */
  function Behind(w: seq<Hid>, h: Hid): seq<Hid> {
    if h in w then w[IndexOf(w, h) + 1..] else w
  }

  /** The handles of `w` are waited for, and they will get the replies of `owed`. */
  predicate Waits(c: Conn, w: seq<Hid>, owed: map<Hid, Reply>) {
    Waiting(c) == w && forall h | h in w :: h in owed && h in c.owed && c.owed[h] == owed[h]
  }

  /** No reply comes under way but that of `h`, and any other has been read if `h` was waited for. */
  ghost predicate Starts(c: Conn, c': Conn, h: Hid) {
    forall g: Hid :: IsStarted(c', g) ==> g == h || (IsStarted(c, g) && h !in Waiting(c))
  }

  /** What is waited for stays the same; at most the reply of `h` is under way besides. */
  ghost predicate Undisturbed(c: Conn, c': Conn, h: Hid) {
    Waits(c', Waiting(c), c.owed) && forall g: Hid :: IsStarted(c', g) ==> g == h || IsStarted(c, g)
  }

  /** `dst` is under way only if `src` was, and `src` no longer is. */
  ghost predicate StartsAs(c: Conn, c': Conn, dst: Hid, src: Hid) {
    forall g: Hid :: IsStarted(c', g) ==> if g == dst then IsStarted(c, src) else g != src && IsStarted(c, g)
  }

  // ---------------------------------------------------------------- the list and its fresh part

  lemma {:induction false} FreshInList(c: Conn, l: seq<Hid>, h: Hid)
    ensures h in FreshIn(c, l) <==> h in l && IsFresh(c, h)
  {
    if l != [] {
      FreshInList(c, l[1..], h);
      assert h in l <==> h == l[0] || h in l[1..];
    }
  }

  lemma {:induction false} FreshInSplit(c: Conn, a: seq<Hid>, b: seq<Hid>)
    ensures FreshIn(c, a + b) == FreshIn(c, a) + FreshIn(c, b)
  {
    hide IsFresh;
    if a == [] {
      assert a + b == b;
    } else {
      assert (a + b)[0] == a[0] && (a + b)[1..] == a[1..] + b;
      FreshInSplit(c, a[1..], b);
    }
  }

  lemma {:induction false} FreshAlike(c: Conn, l: seq<Hid>, c': Conn)
    requires forall h | h in l :: IsFresh(c, h) == IsFresh(c', h)
    ensures FreshIn(c', l) == FreshIn(c, l)
  {
    if l != [] {
      assert l[0] in l;
      FreshAlike(c, l[1..], c');
    }
  }

  lemma {:induction false} NoneFresh(c: Conn, l: seq<Hid>)
    requires forall h | h in l :: !IsFresh(c, h)
    ensures FreshIn(c, l) == []
  {
    if l != [] {
      assert l[0] in l;
      NoneFresh(c, l[1..]);
    }
  }

  lemma {:induction false} AllFresh(c: Conn, l: seq<Hid>)
    requires forall h | h in l :: IsFresh(c, h)
    ensures FreshIn(c, l) == l
  {
    if l != [] {
      assert l[0] in l;
      AllFresh(c, l[1..]);
    }
  }

  lemma FreshInOne(c: Conn, h: Hid)
    ensures FreshIn(c, [h]) == if IsFresh(c, h) then [h] else []
  {
    assert FreshIn(c, [h][1..]) == [];
  }

  /** The list around one of its places. */
  lemma FreshAround(c: Conn, l: seq<Hid>, k: nat)
    requires k < |l|
    ensures FreshIn(c, l) == FreshIn(c, l[..k]) + (if IsFresh(c, l[k]) then [l[k]] else []) + FreshIn(c, l[k + 1..])
    ensures FreshIn(c, l[..k] + l[k + 1..]) == FreshIn(c, l[..k]) + FreshIn(c, l[k + 1..])
  {
    hide FreshIn;
    assert l == l[..k] + ([l[k]] + l[k + 1..]);
    FreshInSplit(c, l[..k], [l[k]] + l[k + 1..]);
    FreshInSplit(c, [l[k]], l[k + 1..]);
    FreshInOne(c, l[k]);
    FreshInSplit(c, l[..k], l[k + 1..]);
  }

  lemma {:induction false} FreshIsDistinct(c: Conn, l: seq<Hid>)
    requires Distinct(l)
    ensures Distinct(FreshIn(c, l))
  {
    if l != [] {
      FreshIsDistinct(c, l[1..]);
      var rest := FreshIn(c, l[1..]);
      forall j | 0 <= j < |rest| ensures rest[j] != l[0] {
        FreshInList(c, l[1..], rest[j]);
        assert rest[j] in rest;
        var i :| 0 <= i < |l[1..]| && l[1..][i] == rest[j];
        assert l[i + 1] == rest[j];
      }
    }
  }

  /** What waits behind the fresh handle at place `k` of the list. */
  lemma FreshBehind(c: Conn, l: seq<Hid>, k: nat)
    requires Distinct(l) && k < |l| && IsFresh(c, l[k])
    ensures l[k] in FreshIn(c, l) && Behind(FreshIn(c, l), l[k]) == FreshIn(c, l[k + 1..])
  {
    var w, before := FreshIn(c, l), FreshIn(c, l[..k]);
    FreshAround(c, l, k);
    FreshIsDistinct(c, l);
    hide FreshIn, IsFresh, IndexOf, Distinct;
    assert w[|before|] == l[k];
    IndexIs(w, |before|);
    assert w[|before| + 1..] == FreshIn(c, l[k + 1..]);
  }

  // ---------------------------------------------------------------- what reading does

  lemma GoodDistinct(c: Conn)
    requires Good(c)
    ensures Distinct(c.list) && c.owed.Keys == c.handles.Keys && AllKnown(c, c.list)
    ensures forall h | h in c.handles && c.handles[h].conn :: h in c.list
  {
  }

  lemma DrainedIsNotFresh(h: Handle)
    requires Drained(h)
    ensures !Fresh(h) && !(h.Enumerator? && h.conn && h.headerDone && h.count > 0)
  {
  }

  /**
   The list up to place `k` has been read in `c'`: nothing there is fresh, and only the handle itself may
   be under way.
   */
  ghost predicate Passed(c: Conn, c': Conn, k: nat)
    requires k < |c.list|
  {
    var n := |c.list| - (k + 1);
    && n <= |c'.list| && c'.list[|c'.list| - n..] == c.list[k + 1..]
    && (forall h | h in c.list[k + 1..] ::
          Known(c, h) && Known(c', h) && c'.handles[h] == c.handles[h] && c'.owed[h] == c.owed[h])
    && (forall h | h in c'.list[..|c'.list| - n] :: !IsFresh(c', h) && (IsStarted(c', h) ==> h == c.list[k]))
  }

  lemma ForcedPasses(c: Conn, c': Conn, k: nat)
    requires Good(c) && k < |c.list| && Forced(c, c', k + 1)
    ensures Passed(c, c', k)
  {
    ForcedParts(c, c', k + 1);
    hide Good, Forced, Views, Closed, Drained, Fresh;
    var k' := |c'.list| - (|c.list| - (k + 1));
    forall h | h in c'.list[..k'] ensures !IsFresh(c', h) && !IsStarted(c', h) {
      DrainedIsNotFresh(c'.handles[h]);
    }
  }

  lemma EnumeratedPasses(c: Conn, c': Conn, k: nat)
    requires Good(c) && k < |c.list| && Enumerated(c, c', k)
    ensures Passed(c, c', k)
  {
    hide *;
    EnumeratedParts(c, c', k);
    PartPasses(c, c', k);
  }

  lemma PartPasses(c: Conn, c': Conn, k: nat)
    requires AllKnown(c, c.list) && AllKnown(c', c'.list) && k < |c.list| && Part(c, c', k)
    requires c'.handles[c.list[k]].Enumerator? && (c'.handles[c.list[k]].conn ==> c'.handles[c.list[k]].headerDone)
    ensures Passed(c, c', k)
  {
    var k' := |c'.list| - (|c.list| - (k + 1));
    forall h | h in c'.list[..k'] ensures !IsFresh(c', h) && (IsStarted(c', h) ==> h == c.list[k]) {
      if h != c.list[k] {
        PartDrains(c, c', k, h);
        DrainedIsNotFresh(c'.handles[h]);
      }
    }
    hide IsFresh, IsStarted, AllDrained;
    forall h | h in c.list[k + 1..]
      ensures Known(c, h) && Known(c', h) && c'.handles[h] == c.handles[h] && c'.owed[h] == c.owed[h]
    {
    }
  }

  lemma PartDrains(c: Conn, c': Conn, k: nat, h: Hid)
    requires AllKnown(c, c.list) && AllKnown(c', c'.list) && k < |c.list| && Part(c, c', k) && h != c.list[k]
    requires h in c'.list[..|c'.list| - (|c.list| - (k + 1))]
    ensures h in c'.handles && Drained(c'.handles[h])
  {
    hide Drained, Agree;
    var k' := |c'.list| - (|c.list| - (k + 1));
    var j :| 0 <= j < k' && c'.list[j] == h;
    if c'.handles[c.list[k]].conn {
      assert c'.list[..k' - 1][j] == h;
    } else {
      assert c'.list[..k'][j] == h;
    }
  }

  /** Then the client waits for what is behind that handle, and no other reply is under way. */
  lemma PassedWaiting(c: Conn, c': Conn, k: nat)
    requires Good(c) && Good(c') && k < |c.list| && Passed(c, c', k) && IsFresh(c, c.list[k])
    ensures Waits(c', Behind(Waiting(c), c.list[k]), c.owed) && Starts(c, c', c.list[k])
  {
    hide *;
    GoodDistinct(c);
    PassedTail(c, c', k);
    FreshBehind(c, c.list, k);
    WaitingIs(c);
    PassedOwed(c, c', k);
    forall h: Hid | IsStarted(c', h) ensures h == c.list[k] {
      PassedStarted(c, c', k, h);
    }
    StartsOnly(c, c', c.list[k]);
    WaitsBy(c', FreshIn(c, c.list[k + 1..]), c.owed);
  }

  lemma PassedOwed(c: Conn, c': Conn, k: nat)
    requires k < |c.list| && Passed(c, c', k)
    ensures forall h | h in FreshIn(c, c.list[k + 1..]) :: h in c.owed && h in c'.owed && c'.owed[h] == c.owed[h]
  {
    forall h | h in FreshIn(c, c.list[k + 1..]) ensures h in c.owed && h in c'.owed && c'.owed[h] == c.owed[h] {
      FreshInList(c, c.list[k + 1..], h);
      assert Known(c, h);
    }
  }

  lemma StartsOnly(c: Conn, c': Conn, h: Hid)
    requires forall g: Hid :: IsStarted(c', g) ==> g == h
    ensures Starts(c, c', h)
  {
  }

  lemma WaitsBy(c: Conn, w: seq<Hid>, owed: map<Hid, Reply>)
    requires Waiting(c) == w && forall h | h in w :: h in owed && h in c.owed && c.owed[h] == owed[h]
    ensures Waits(c, w, owed)
  {
  }

  lemma WaitingIs(c: Conn)
    ensures Waiting(c) == FreshIn(c, c.list)
  {
  }

  lemma PassedTail(c: Conn, c': Conn, k: nat)
    requires k < |c.list| && Passed(c, c', k)
    ensures Waiting(c') == FreshIn(c, c.list[k + 1..])
  {
    var k' := |c'.list| - (|c.list| - (k + 1));
    assert c'.list == c'.list[..k'] + c'.list[k'..];
    FreshInSplit(c', c'.list[..k'], c'.list[k'..]);
    NoneFresh(c', c'.list[..k']);
    FreshAlike(c, c.list[k + 1..], c');
  }

  lemma PassedStarted(c: Conn, c': Conn, k: nat, h: Hid)
    requires Good(c) && Good(c') && k < |c.list| && Passed(c, c', k) && IsFresh(c, c.list[k]) && IsStarted(c', h)
    ensures h == c.list[k]
  {
    GoodDistinct(c');
    var k' := |c'.list| - (|c.list| - (k + 1));
    var j :| 0 <= j < |c'.list| && c'.list[j] == h;
    if j < k' {
      assert c'.list[..k'][j] == h;
    } else {
      TailNotStarted(c, c', k, j);
    }
  }

  lemma TailNotStarted(c: Conn, c': Conn, k: nat, j: nat)
    requires Good(c) && k < |c.list| && Passed(c, c', k) && IsFresh(c, c.list[k])
    requires |c'.list| - (|c.list| - (k + 1)) <= j < |c'.list|
    ensures !IsStarted(c', c'.list[j])
  {
    var k' := |c'.list| - (|c.list| - (k + 1));
    assert c'.list[j] == c'.list[k'..][j - k'] == c.list[k + 1..][j - k'];
    NothingStartedBehind(c, k, k + 1 + (j - k'));
  }

  /** Nothing behind a fresh handle is under way. */
  lemma NothingStartedBehind(c: Conn, k: nat, j: nat)
    requires Good(c) && k < j < |c.list| && IsFresh(c, c.list[k])
    ensures !IsStarted(c, c.list[j])
  {
    assert InOrder(c.handles[c.list[k]], c.handles[c.list[j]]);
  }

  lemma WaitingIn(c: Conn, h: Hid)
    requires Good(c)
    ensures h in Waiting(c) <==> IsFresh(c, h)
  {
    hide *;
    WaitingIs(c);
    FreshInList(c, c.list, h);
    GoodDistinct(c);
    FreshIsConnected(c, h);
  }

  lemma FreshIsConnected(c: Conn, h: Hid)
    ensures IsFresh(c, h) ==> h in c.handles && c.handles[h].conn
  {
  }

  lemma NotWaiting(w: seq<Hid>, h: Hid)
    requires h !in w
    ensures Behind(w, h) == w
  {
  }

  /** Nobody is waited for less or more. */
  lemma StillWaits(c: Conn)
    requires Good(c)
    ensures Waits(c, Waiting(c), c.owed)
  {
    hide *;
    GoodDistinct(c);
    forall h | h in Waiting(c) ensures h in c.owed {
      WaitingIn(c, h);
      FreshIsConnected(c, h);
    }
    WaitsBy(c, Waiting(c), c.owed);
  }

  lemma StartsNone(c: Conn, c': Conn, h: Hid)
    requires h !in Waiting(c) && forall g: Hid :: IsStarted(c', g) ==> g == h || IsStarted(c, g)
    ensures Starts(c, c', h)
  {
  }

  /** Nothing changes for a call that changes nothing. */
  lemma NothingRead(c: Conn, h: Hid)
    requires Good(c) && !IsFresh(c, h)
    ensures Waits(c, Behind(Waiting(c), h), c.owed) && Starts(c, c, h)
  {
    hide *;
    WaitingIn(c, h);
    NotWaiting(Waiting(c), h);
    StillWaits(c);
    StartsNone(c, c, h);
  }

  /** Only `h` changes, which is not waited for before or after. */
  predicate ChangesOne(c: Conn, c': Conn, h: Hid) {
    && !IsFresh(c, h) && !IsFresh(c', h) && c'.handles.Keys - {h} == c.handles.Keys - {h}
    && (forall g | g in c.handles && g != h :: g in c'.handles && c'.handles[g] == c.handles[g])
    && (forall g | g in c.owed && g != h :: g in c'.owed && c'.owed[g] == c.owed[g])
    && (c'.list == c.list || c'.list == Unlinked(c.list, h) || c'.list == c.list + [h])
  }

  lemma OneChangeWaits(c: Conn, c': Conn, h: Hid)
    requires Good(c) && ChangesOne(c, c', h)
    ensures Undisturbed(c, c', h) && Waits(c', Behind(Waiting(c), h), c.owed) && Starts(c, c', h)
  {
    hide *;
    OneChangeFresh(c, c', h);
    WaitingIn(c, h);
    NotWaiting(Waiting(c), h);
    OneChangeList(c, c', h);
    OneChangeOwed(c, c', h);
    WaitsBy(c', Waiting(c), c.owed);
    OneChangeStarts(c, c', h);
    StartsNone(c, c', h);
    UndisturbedIf(c, c', h);
  }

  lemma UndisturbedIf(c: Conn, c': Conn, h: Hid)
    requires Waits(c', Waiting(c), c.owed) && forall g: Hid :: IsStarted(c', g) ==> g == h || IsStarted(c, g)
    ensures Undisturbed(c, c', h)
  {
  }

  lemma UndisturbedTwice(c: Conn, c1: Conn, c2: Conn, h: Hid)
    requires Undisturbed(c, c1, h) && Undisturbed(c1, c2, h)
    ensures Undisturbed(c, c2, h)
  {
    hide Waiting, IsStarted;
  }

  /** An undisturbed step after another one. */
  lemma ThenUndisturbed(c: Conn, c1: Conn, c2: Conn, h: Hid)
    requires Waits(c1, Behind(Waiting(c), h), c.owed) && Starts(c, c1, h) && Undisturbed(c1, c2, h)
    ensures Waits(c2, Behind(Waiting(c), h), c.owed) && Starts(c, c2, h)
  {
    hide Waiting, IsStarted, Behind;
  }

  lemma OneChangeList(c: Conn, c': Conn, h: Hid)
    requires Good(c) && ChangesOne(c, c', h)
    ensures Waiting(c') == Waiting(c)
  {
    hide *;
    WaitingIs(c);
    WaitingIs(c');
    OneChangeFresh(c, c', h);
    FreshAlike(c, c'.list, c');
    var k := IndexOf(c.list, h);
    if c'.list == c.list + [h] {
      FreshInSplit(c, c.list, [h]);
      FreshInOne(c, h);
    } else if k < |c.list| {
      UnlinkedAt(c, k);
      FreshAround(c, c.list, k);
    } else {
      UnlinkedNothing(c.list, h);
    }
  }

  lemma OneChangeFresh(c: Conn, c': Conn, h: Hid)
    requires Good(c) && ChangesOne(c, c', h)
    ensures forall g: Hid :: IsFresh(c, g) == IsFresh(c', g)
    ensures !IsFresh(c, h) && (c'.list == c.list || c'.list == Unlinked(c.list, h) || c'.list == c.list + [h])
  {
    hide Good, Unlinked, Fresh;
    forall g: Hid ensures IsFresh(c, g) == IsFresh(c', g) {
      assert g != h ==> (g in c.handles.Keys - {h} <==> g in c'.handles.Keys - {h});
    }
  }

  lemma OneChangeStarts(c: Conn, c': Conn, h: Hid)
    requires ChangesOne(c, c', h)
    ensures forall g: Hid :: IsStarted(c', g) ==> g == h || IsStarted(c, g)
  {
    hide Unlinked, IsFresh;
    forall g: Hid ensures IsStarted(c', g) ==> g == h || IsStarted(c, g) {
      assert g != h ==> (g in c.handles.Keys - {h} <==> g in c'.handles.Keys - {h});
    }
  }

  lemma OneChangeOwed(c: Conn, c': Conn, h: Hid)
    requires Good(c) && ChangesOne(c, c', h)
    ensures forall g | g in Waiting(c) :: g in c.owed && g in c'.owed && c'.owed[g] == c.owed[g]
  {
    hide Waiting, Unlinked;
    StillWaits(c);
    WaitingIn(c, h);
  }

  // ---------------------------------------------------------------- what the other calls do

  lemma IssueWaits(c: Conn, h: Hid, kind: Kind, reply: Reply)
    requires Good(c) && h !in c.handles && WellTyped(kind, reply) && Fits(reply)
    ensures var c' := AfterIssue(c, h, kind, reply);
            Waits(c', Waiting(c) + [h], c.owed[h := reply]) && forall g: Hid :: IsStarted(c', g) ==> IsStarted(c, g)
  {
    hide *;
    var c' := AfterIssue(c, h, kind, reply);
    IssueParts(c, h, kind, reply);
    NewHandleSound(kind, reply);
    IssueAlike(c, c', h, kind);
    WaitingIs(c);
    WaitingIs(c');
    FreshAlike(c, c.list, c');
    FreshInSplit(c', c.list, [h]);
    FreshInOne(c', h);
    StillWaits(c);
    IssueOwed(c, h, kind, reply);
    WaitsBy(c', Waiting(c) + [h], c.owed[h := reply]);
  }

  lemma IssueOwed(c: Conn, h: Hid, kind: Kind, reply: Reply)
    requires Waits(c, Waiting(c), c.owed)
    ensures var owed := c.owed[h := reply];
            forall g | g in Waiting(c) + [h] :: g in owed && g in AfterIssue(c, h, kind, reply).owed &&
                                             AfterIssue(c, h, kind, reply).owed[g] == owed[g]
  {
    hide Waiting;
  }

  lemma IssueAlike(c: Conn, c': Conn, h: Hid, kind: Kind)
    requires h !in c.handles && c'.handles.Keys == c.handles.Keys + {h} && c'.handles[h] == NewHandle(kind)
    requires AllKnown(c, c.list)
    requires forall g | g in c.handles :: g in c'.handles && SameFlags(c.handles[g], c'.handles[g])
    ensures forall g | g in c.list :: IsFresh(c, g) == IsFresh(c', g)
    ensures IsFresh(c', h) && forall g: Hid :: IsStarted(c', g) ==> IsStarted(c, g)
  {
  }

  /** A copy waits in the place of its original. */
  lemma TransferWaits(c: Conn, dst: Hid, taken: Handle, src: Hid, left: Handle)
    requires Wired(c) && CanTransfer(c, dst, taken, src, left)
    ensures var c' := Transferred(c, dst, taken, src, left);
            && src in c.owed && Waits(c', Replaced(Waiting(c), src, dst), c.owed[dst := c.owed[src]])
            && StartsAs(c, c', dst, src) && c'.transaction == c.transaction
  {
    hide *;
    CanTransferKnown(c, dst, taken, src, left);
    var c' := Transferred(c, dst, taken, src, left);
    TransferList(c, dst, taken, src, left);
    TransferFresh(c, dst, taken, src, left);
    WaitingIs(c);
    WaitingIs(c');
    FreshReplaced(c, c.list, c', src, dst);
    ReplacedOwed(c, c', src, dst);
    WaitsBy(c', Replaced(Waiting(c), src, dst), c.owed[dst := c.owed[src]]);
  }

  lemma TransferList(c: Conn, dst: Hid, taken: Handle, src: Hid, left: Handle)
    requires Wired(c) && CanTransfer(c, dst, taken, src, left)
    ensures var c' := Transferred(c, dst, taken, src, left);
            && Distinct(c.list) && dst !in c.list && c'.list == Replaced(c.list, src, dst) && dst != src
            && src in c.owed && AllKnown(c, c.list) && c'.owed == c.owed[dst := c.owed[src]]
  {
    TransferKeepsList(c, dst, taken, src, left);
    hide Healthy, Ordered, Counted, Replaced, Distinct, SameWait;
  }

  lemma TransferFresh(c: Conn, dst: Hid, taken: Handle, src: Hid, left: Handle)
    requires Wired(c) && CanTransfer(c, dst, taken, src, left)
    ensures var c' := Transferred(c, dst, taken, src, left);
            && (forall g: Hid :: IsFresh(c', g) == if g == dst then IsFresh(c, src) else g != src && IsFresh(c, g))
            && StartsAs(c, c', dst, src) && c'.transaction == c.transaction
  {
    TransferredHandles(c, dst, taken, src, left);
    hide Wired, Transferred;
  }

  lemma {:induction false} FreshReplaced(c: Conn, l: seq<Hid>, c': Conn, src: Hid, dst: Hid)
    requires Distinct(l) && dst !in l && dst != src
    requires forall g: Hid :: IsFresh(c', g) == if g == dst then IsFresh(c, src) else g != src && IsFresh(c, g)
    ensures FreshIn(c', Replaced(l, src, dst)) == Replaced(FreshIn(c, l), src, dst)
  {
    hide *;
    if l == [] {
      ReplacedNothing(src, dst);
      FreshInNothing(c);
      FreshInNothing(c');
    } else {
      var first, rest := l[0], l[1..];
      FreshInStep(c, l);
      DistinctTail(l);
      if first == src {
        ReplacedHead(rest, src, dst);
        assert l == [src] + rest && ([dst] + rest)[1..] == rest;
        FreshInStep(c', [dst] + rest);
        FreshAlike(c, rest, c');
        FreshInList(c, rest, src);
        ReplacedHead(FreshIn(c, rest), src, dst);
        assert [] + FreshIn(c, rest) == FreshIn(c, rest);
      } else {
        FreshReplaced(c, rest, c', src, dst);
        ReplacedTail(l, src, dst);
        var l', w := Replaced(l, src, dst), FreshIn(c, rest);
        assert l'[0] == first && l'[1..] == Replaced(rest, src, dst);
        FreshInStep(c', l');
        assert ([first] + w)[1..] == w;
        ReplacedTail([first] + w, src, dst);
        assert [] + w == w && [] + FreshIn(c', l'[1..]) == FreshIn(c', l'[1..]);
      }
    }
  }

  lemma FreshInNothing(c: Conn)
    ensures FreshIn(c, []) == []
  {
  }

  lemma ReplacedNothing(src: Hid, dst: Hid)
    ensures Replaced([], src, dst) == []
  {
  }

  lemma FreshInStep(c: Conn, l: seq<Hid>)
    requires l != []
    ensures FreshIn(c, l) == (if IsFresh(c, l[0]) then [l[0]] else []) + FreshIn(c, l[1..])
  {
  }

  lemma DistinctTail(l: seq<Hid>)
    requires Distinct(l) && l != []
    ensures Distinct(l[1..]) && l[0] !in l[1..]
  {
    forall i | 0 <= i < |l[1..]| ensures l[1..][i] != l[0] {
      assert l[i + 1] != l[0];
    }
  }

  lemma ReplacedHead(w: seq<Hid>, src: Hid, dst: Hid)
    requires src !in w
    ensures Replaced([src] + w, src, dst) == [dst] + w && Replaced(w, src, dst) == w
  {
  }

  lemma ReplacedTail(l: seq<Hid>, src: Hid, dst: Hid)
    requires l != [] && l[0] != src
    ensures Replaced(l, src, dst) == [l[0]] + Replaced(l[1..], src, dst)
  {
  }

  lemma ReplacedOwed(c: Conn, c': Conn, src: Hid, dst: Hid)
    requires AllKnown(c, c.list) && src in c.owed && c'.owed == c.owed[dst := c.owed[src]]
    ensures forall g | g in Replaced(FreshIn(c, c.list), src, dst) :: g in c'.owed
  {
    forall g | g in Replaced(FreshIn(c, c.list), src, dst) ensures g in c'.owed {
      if g != dst {
        InReplaced(FreshIn(c, c.list), src, dst, g);
        FreshInList(c, c.list, g);
      }
    }
  }

  lemma InReplaced(l: seq<Hid>, src: Hid, dst: Hid, g: Hid)
    requires g in Replaced(l, src, dst) && g != dst
    ensures g in l
  {
    var i :| 0 <= i < |Replaced(l, src, dst)| && Replaced(l, src, dst)[i] == g;
    assert l[i] == g;
  }

  /** Forcing a fresh handle, or starting a fresh enumerator, passes all that was waited for before it. */
  lemma ForcedWaits(c: Conn, c': Conn, k: nat)
    requires Good(c) && k < |c.list| && Forced(c, c', k + 1) && IsFresh(c, c.list[k])
    ensures Waits(c', Behind(Waiting(c), c.list[k]), c.owed) && Starts(c, c', c.list[k])
      && c'.transaction == c.transaction
  {
    hide *;
    ForcedParts(c, c', k + 1);
    ForcedPasses(c, c', k);
    PassedWaiting(c, c', k);
  }

  lemma EnumeratedWaits(c: Conn, c': Conn, k: nat)
    requires Good(c) && k < |c.list| && Enumerated(c, c', k) && IsFresh(c, c.list[k])
    ensures Waits(c', Behind(Waiting(c), c.list[k]), c.owed) && Starts(c, c', c.list[k])
      && c'.transaction == c.transaction
  {
    hide *;
    EnumeratedParts(c, c', k);
    EnumeratedPasses(c, c', k);
    PassedWaiting(c, c', k);
  }

  lemma Freshness(c: Conn, h: Hid)
    requires h in c.handles
    ensures c.handles[h].Simple? ==> (IsFresh(c, h) <==> c.handles[h].conn)
    ensures c.handles[h].Enumerator? ==> (IsFresh(c, h) <==> c.handles[h].conn && !c.handles[h].headerDone)
    ensures Drained(c.handles[h]) ==> !IsFresh(c, h)
  {
  }

  lemma OneChange(c: Conn, c': Conn, h: Hid)
    requires h in c.handles && h in c'.handles && !IsFresh(c, h) && !IsFresh(c', h)
    requires c'.handles == c.handles[h := c'.handles[h]]
    requires c'.owed == c.owed || (h in c'.owed && c'.owed == c.owed[h := c'.owed[h]])
    requires c'.list == c.list || c'.list == Unlinked(c.list, h)
    ensures ChangesOne(c, c', h)
  {
    hide IsFresh, Unlinked;
  }

  /** An enumerator whose reply is at its end leaves the list, in a transaction too. */
  lemma EndDrained(c: Conn, h: Hid)
    requires Good(c) && Known(c, h) && h in c.handles && c.handles[h].Enumerator? && c.handles[h].conn
    requires Drained(c.handles[h])
    ensures var c' := AfterEnd(c, h);
            && Good(c') && (Closed(c') <==> Closed(c)) && c.owed.Keys == c.handles.Keys
               && c'.owed.Keys == c'.handles.Keys
            && Views(c') == Views(c) && View(c, h) == Items([]) && SameObjects(c, c')
  {
    hide *;
    var left := Enumerator(false, true, 0, []);
    GoodKnown(c);
    DrainedDropGood(c, h, left);
    DropViews(c, h, left);
    EndTells(c, h);
    ViewIs(c, h);
    EndIsDropped(c, h);
  }

  lemma EndTells(c: Conn, h: Hid)
    requires Good(c) && Known(c, h) && c.handles[h].Enumerator? && c.handles[h].conn && Drained(c.handles[h])
    ensures View(c, h) == Items([])
  {
    UnreadFrame(c, h);
  }

  lemma EndIsDropped(c: Conn, h: Hid)
    requires h in c.handles && c.handles[h].Enumerator?
    ensures AfterEnd(c, h) == Dropped(c, h, Enumerator(false, true, 0, [])) && SameObjects(c, AfterEnd(c, h))
  {
    hide Unlinked;
  }

  /** A copy made after an undisturbing step, or after one that forced `dst`. */
  lemma TransferChain(c: Conn, c1: Conn, c2: Conn, w: seq<Hid>, dst: Hid, src: Hid)
    requires Waits(c1, w, c.owed) && src in c1.owed && src in c.owed && !IsFresh(c1, dst) && dst != src
    requires Waits(c2, Replaced(Waiting(c1), src, dst), c1.owed[dst := c1.owed[src]])
    ensures Waits(c2, Replaced(w, src, dst), c.owed[dst := c.owed[src]])
  {
    hide *;
    WaitsFacts(c1, w, c.owed);
    WaitsFacts(c2, Replaced(w, src, dst), c1.owed[dst := c1.owed[src]]);
    FreshInList(c1, c1.list, dst);
    WaitingIs(c1);
    forall h | h in Replaced(w, src, dst) ensures h in c.owed[dst := c.owed[src]]
      && c2.owed[h] == c.owed[dst := c.owed[src]][h] {
      if h == dst {
        NewInReplaced(w, src, dst);
      } else {
        InReplaced(w, src, dst, h);
      }
    }
    WaitsBy(c2, Replaced(w, src, dst), c.owed[dst := c.owed[src]]);
  }

  lemma WaitsFacts(c: Conn, w: seq<Hid>, owed: map<Hid, Reply>)
    requires Waits(c, w, owed)
    ensures Waiting(c) == w && forall h | h in w :: h in owed && h in c.owed && c.owed[h] == owed[h]
  {
  }

  lemma NewInReplaced(l: seq<Hid>, src: Hid, dst: Hid)
    requires dst !in l && dst in Replaced(l, src, dst)
    ensures src in l
  {
  }

  lemma StartsAsChain(c: Conn, c1: Conn, c2: Conn, dst: Hid, src: Hid)
    requires Undisturbed(c, c1, dst) && StartsAs(c1, c2, dst, src) && dst != src
    ensures StartsAs(c, c2, dst, src)
  {
    hide IsStarted, Waits;
  }

  /** Of simple handles, none is ever under way. */
  lemma SimpleStarts(c: Conn, c1: Conn, c2: Conn, dst: Hid, src: Hid)
    requires Starts(c, c1, dst) && StartsAs(c1, c2, dst, src) && src in c1.handles && c1.handles[src].Simple?
    ensures Starts(c, c2, dst)
  {
    assert !IsStarted(c1, src);
    hide IsStarted, Waiting;
  }

  lemma FreeWaits(c: Conn, h: Hid)
    requires Good(c) && !IsFresh(c, h)
    ensures Undisturbed(c, Freed(c, h), h)
  {
    hide *;
    FreedIsOneChange(c, h);
    OneChangeWaits(c, Freed(c, h), h);
  }

  lemma FreedIsOneChange(c: Conn, h: Hid)
    requires !IsFresh(c, h)
    ensures ChangesOne(c, Freed(c, h), h)
  {
    hide Unlinked;
  }

  lemma DropWaits(c: Conn, h: Hid, left: Handle)
    requires Good(c) && h in c.handles && !IsFresh(c, h) && !left.conn
    ensures Undisturbed(c, Dropped(c, h, left), h) && !IsFresh(Dropped(c, h, left), h)
  {
    hide Good, Waits, Waiting, Undisturbed, Unlinked;
    OneChange(c, Dropped(c, h, left), h);
    OneChangeWaits(c, Dropped(c, h, left), h);
  }

  lemma StaysUndisturbed(c: Conn, h: Hid)
    requires Good(c)
    ensures Undisturbed(c, c, h)
  {
    hide *;
    StillWaits(c);
    UndisturbedIf(c, c, h);
  }

  lemma UndisturbedParts(c: Conn, c': Conn, h: Hid)
    requires Undisturbed(c, c', h)
    ensures Waits(c', Waiting(c), c.owed)
  {
  }

  lemma UndisturbedStarts(c: Conn, c': Conn, h: Hid)
    requires Good(c) && Undisturbed(c, c', h) && !IsFresh(c, h)
    ensures Waits(c', Behind(Waiting(c), h), c.owed) && Starts(c, c', h)
  {
    hide Good, Waiting, IsStarted, IsFresh;
    WaitingIn(c, h);
    NotWaiting(Waiting(c), h);
  }

  // ---------------------------------------------------------------- an enumerator takes the place of another

  /** pending.clear() and unlink(). */
  function Reset(c: Conn, h: Hid): Conn
    requires h in c.handles && c.handles[h].Enumerator?
  {
    Dropped(c, h, Enumerator(false, c.handles[h].headerDone, c.handles[h].count, []))
  }

  /** The place in the list, and the fields but `pending`. */
  function AfterTake(c: Conn, dst: Hid, src: Hid): Conn
    requires Known(c, dst) && Known(c, src) && c.handles[dst].Enumerator? && c.handles[src].Enumerator?
  {
    var h := c.handles[src];
    Transferred(Reset(c, dst), dst, Enumerator(h.conn, h.headerDone, h.count, []),
                src, Enumerator(false, h.headerDone, h.count, h.pending))
  }

  predicate CanTake(c: Conn, dst: Hid, src: Hid) {
    && Known(c, dst) && Known(c, src) && dst != src && c.handles[dst].Enumerator? && c.handles[src].Enumerator?
    && (Closed(c) || Drained(c.handles[dst]))
  }

  lemma TakeIsTransfer(c: Conn, dst: Hid, src: Hid)
    requires Good(c) && CanTake(c, dst, src)
    ensures var c2, h := Reset(c, dst), c.handles[src];
            && dst in c.handles && src in c.handles && c2.handles[src] == h && !c2.handles[dst].conn && Known(c2, src)
            && CanTransfer(c2, dst, Enumerator(h.conn, h.headerDone, h.count, []),
                           src, Enumerator(false, h.headerDone, h.count, h.pending))
            && SameObjects(c, c2) && c2.owed == c.owed && c2.transaction == c.transaction
  {
    if c.handles[src].conn {
      ConnectedHasNothingAside(c, src);
    }
    hide Good, Unlinked, Closed, Drained;
    OneType(c, Reset(c, dst), dst);
  }

  lemma TakeKept(c: Conn, dst: Hid, src: Hid)
    requires Good(c) && CanTake(c, dst, src)
    ensures var c' := AfterTake(c, dst, src);
            && Wired(c') && (Good(c') <==> !Unread(c.handles[dst])) && (Closed(c') <==> Closed(c))
            && c'.transaction == c.transaction
  {
    hide *;
    CanTakeParts(c, dst, src);
    TakeIsTransfer(c, dst, src);
    ResetGood(c, dst);
    var h := c.handles[src];
    var taken, left := Enumerator(h.conn, h.headerDone, h.count, []), Enumerator(false, h.headerDone, h.count,
      h.pending);
    ResetIs(c, dst);
    TransferGood(Reset(c, dst), dst, taken, src, left);
    TransferWaits(Reset(c, dst), dst, taken, src, left);
    AfterTakeIs(c, dst, src);
  }

  lemma CanTakeParts(c: Conn, dst: Hid, src: Hid)
    requires CanTake(c, dst, src)
    ensures Known(c, dst) && Known(c, src) && dst in c.handles && src in c.handles && dst in c.owed && src in c.owed
    ensures c.handles[dst].Enumerator? && c.handles[src].Enumerator? && (Closed(c) || Drained(c.handles[dst]))
      && dst != src
  {
    hide Closed, Drained;
  }

  lemma ResetIs(c: Conn, h: Hid)
    requires h in c.handles && c.handles[h].Enumerator?
    ensures Reset(c, h) == Dropped(c, h, Enumerator(false, c.handles[h].headerDone, c.handles[h].count, []))
  {
  }

  lemma AfterTakeIs(c: Conn, dst: Hid, src: Hid)
    requires CanTake(c, dst, src) && src in c.handles && Known(c, dst) && Known(c, src)
    requires c.handles[dst].Enumerator? && c.handles[src].Enumerator? && Known(Reset(c, dst), src)
    ensures var h := c.handles[src];
            AfterTake(c, dst, src) == Transferred(Reset(c, dst), dst, Enumerator(h.conn, h.headerDone, h.count, []),
                                                  src, Enumerator(false, h.headerDone, h.count, h.pending))
  {
    hide Reset, Transferred, Closed, Drained;
  }

  lemma TakeTells(c: Conn, dst: Hid, src: Hid)
    requires Good(c) && CanTake(c, dst, src)
    ensures var c' := AfterTake(c, dst, src);
            && c.owed.Keys == c.handles.Keys && c'.owed.Keys == c'.handles.Keys
            && Views(c') == Views(c)[dst := if c.handles[src].conn then View(c,
               src) else Items([])][src := Spent(c.handles[src])]
  {
    hide *;
    CanTakeParts(c, dst, src);
    TakeIsTransfer(c, dst, src);
    ResetGood(c, dst);
    ResetIs(c, dst);
    var c2, h := Reset(c, dst), c.handles[src];
    var taken, left := Enumerator(h.conn, h.headerDone, h.count, []), Enumerator(false, h.headerDone, h.count,
      h.pending);
    TransferViews(c2, dst, taken, src, left);
    TransferTells(c2, dst, taken, src, left);
    SameTells(c, c2, src);
    SpentIs(left);
    SpentIs(taken);
    SpentIs(h);
    AfterTakeIs(c, dst, src);
    var told := if h.conn then View(c, src) else Items([]);
    assert Views(c)[dst := Items([])][dst := told] == Views(c)[dst := told];
  }

  lemma SameTells(c: Conn, c': Conn, h: Hid)
    requires Known(c, h) && Known(c', h) && c'.handles[h] == c.handles[h] && c'.owed[h] == c.owed[h]
    ensures View(c', h) == View(c, h)
  {
  }

  lemma SpentIs(h: Handle)
    ensures h.Enumerator? ==> Spent(h) == Items(h.pending)
  {
  }

  lemma TakeWaits(c: Conn, dst: Hid, src: Hid)
    requires Good(c) && CanTake(c, dst, src) && !IsFresh(c, dst)
    ensures var c' := AfterTake(c, dst, src);
            && src in c.owed && Waits(c', Replaced(Waiting(c), src, dst), c.owed[dst := c.owed[src]])
            && StartsAs(c, c', dst, src)
  {
    hide *;
    CanTakeParts(c, dst, src);
    TakeIsTransfer(c, dst, src);
    ResetGood(c, dst);
    ResetIs(c, dst);
    var c2, h := Reset(c, dst), c.handles[src];
    var taken, left := Enumerator(h.conn, h.headerDone, h.count, []), Enumerator(false, h.headerDone, h.count,
      h.pending);
    DropWaits(c, dst, Enumerator(false, c.handles[dst].headerDone, c.handles[dst].count, []));
    UndisturbedParts(c, c2, dst);
    TransferWaits(c2, dst, taken, src, left);
    AfterTakeIs(c, dst, src);
    TransferChain(c, c2, AfterTake(c, dst, src), Waiting(c), dst, src);
    StartsAsChain(c, c2, AfterTake(c, dst, src), dst, src);
  }

  lemma TakeTypes(c: Conn, dst: Hid, src: Hid)
    requires CanTake(c, dst, src) && Known(Reset(c, dst), src)
    ensures var c' := AfterTake(c, dst, src);
            && SameObjects(c, c') && dst in c'.handles && src in c'.handles
               && SameFields(c.handles[src], c'.handles[dst])
            && c'.handles == c.handles[dst := c'.handles[dst]][src := c'.handles[src]]
  {
    hide Unlinked, Closed, Drained;
  }

  predicate SameFields(a: Handle, b: Handle) {
    a.Enumerator? && b.Enumerator? && b.conn == a.conn && b.headerDone == a.headerDone && b.count == a.count
      && b.pending == []
  }

  lemma StillNotFresh(c: Conn, c': Conn, h: Hid)
    requires Good(c) && Good(c') && Undisturbed(c, c', h) && !IsFresh(c, h)
    ensures !IsFresh(c', h)
  {
    hide *;
    UndisturbedParts(c, c', h);
    WaitsFacts(c', Waiting(c), c.owed);
    WaitingIn(c, h);
    WaitingIn(c', h);
  }
}
