/**
 What happens to the reply list when handles are issued, copied, assigned over or dropped, and when a
 transaction is opened and committed.
 */
module RedisHandles {
  import opened Bytes
  import opened RedisWire
  import opened RedisPipeline

  // ---------------------------------------------------------------- copies take over a place in the list

  /** `dst` becomes `taken`, in the place of `src` if that is listed, and `src` becomes `left`. */
  function Transferred(c: Conn, dst: Hid, taken: Handle, src: Hid, left: Handle): Conn
    requires Known(c, src)
  {
    var k := IndexOf(c.list, src);
    c.(handles := c.handles[dst := taken][src := left], owed := c.owed[dst := c.owed[src]],
       list := if c.handles[src].conn && k < |c.list| then c.list[k := dst] else c.list)
  }

  /** The copy waits for just what the original waited for. */
  predicate SameWait(a: Handle, b: Handle) {
    match a
    case Simple(conn, kind, stored) => b.Simple? && b.conn == conn && b.kind == kind && (conn ==> b.stored == stored)
    case Enumerator(conn, headerDone, count, pending) =>
      b.Enumerator? && b.conn == conn && b.headerDone == headerDone && b.count == count
        && (conn ==> b.pending == pending)
    case QueuedReply(_, _, _) => false
  }

  predicate CanTransfer(c: Conn, dst: Hid, taken: Handle, src: Hid, left: Handle) {
    && Known(c, src) && dst != src && (dst in c.handles ==> !c.handles[dst].conn && !c.handles[dst].QueuedReply?)
    && SameWait(c.handles[src], taken) && !left.conn && !left.QueuedReply?
  }

  function Replaced(l: seq<Hid>, src: Hid, dst: Hid): seq<Hid> {
    var k := IndexOf(l, src);
    if k < |l| then l[k := dst] else l
  }

  lemma ReplacedPlaces(l: seq<Hid>, src: Hid, dst: Hid)
    requires Distinct(l) && dst !in l && dst != src
    ensures var l' := Replaced(l, src, dst);
            && Distinct(l') && |l'| == |l| && src !in l' && (dst in l' <==> src in l)
            && (forall j | 0 <= j < |l| :: l'[j] == if l[j] == src then dst else l[j])
            && (forall h | h in l && h != src :: h in l')
  {
    var k, l' := IndexOf(l, src), Replaced(l, src, dst);
    if k < |l| {
      IndexIs(l, k);
      assert l'[k] == dst;
      assert forall j | 0 <= j < |l| :: l[j] == src <==> j == k;
    }
    forall h | h in l && h != src ensures h in l' {
      assert l'[IndexOf(l, h)] == h;
    }
  }

  lemma TransferKeepsList(c: Conn, dst: Hid, taken: Handle, src: Hid, left: Handle)
    requires Wired(c) && CanTransfer(c, dst, taken, src, left)
    ensures var c' := Transferred(c, dst, taken, src, left);
            && dst !in c.list && (src in c.list <==> c.handles[src].conn)
            && c'.list == Replaced(c.list, src, dst) && Listed(c')
  {
    ListedHandles(c, dst, src);
    hide Healthy, Ordered, Counted, IndexOf;
    ReplacedPlaces(c.list, src, dst);
    hide Distinct;
  }

  lemma ListedHandles(c: Conn, dst: Hid, src: Hid)
    requires Wired(c) && (dst in c.handles ==> !c.handles[dst].conn && !c.handles[dst].QueuedReply?)
    requires src in c.handles && !c.handles[src].QueuedReply?
    ensures dst !in c.list && (src in c.list <==> c.handles[src].conn)
  {
  }

  lemma TransferHealthy(c: Conn, dst: Hid, taken: Handle, src: Hid, left: Handle)
    requires Wired(c) && CanTransfer(c, dst, taken, src, left)
    ensures var c' := Transferred(c, dst, taken, src, left);
            c'.owed.Keys == c'.handles.Keys && Healthy(c') && (Closed(c') <==> Closed(c))
  {
    var c' := Transferred(c, dst, taken, src, left);
    TransferKeepsList(c, dst, taken, src, left);
    ReplacedPlaces(c.list, src, dst);
    hide Distinct, IndexOf, Replaced, Ordered, Counted, WellTyped, Fits;
    assert Sound(taken, c.owed[src]) && Sound(left, c.owed[src]);
  }

  lemma SameWaitOrder(a: Handle, a': Handle, b: Handle, b': Handle)
    requires InOrder(a, b) && (a' == a || SameWait(a, a')) && (b' == b || SameWait(b, b'))
    ensures InOrder(a', b')
  {
  }

  lemma TransferOrdered(c: Conn, dst: Hid, taken: Handle, src: Hid, left: Handle)
    requires Wired(c) && CanTransfer(c, dst, taken, src, left)
    ensures var c' := Transferred(c, dst, taken, src, left);
            AllKnown(c', c'.list) && Ordered(c') && Counted(c')
  {
    var c' := Transferred(c, dst, taken, src, left);
    TransferKeepsList(c, dst, taken, src, left);
    ReplacedPlaces(c.list, src, dst);
    hide Distinct, IndexOf, Replaced, InOrder, Healthy, Transferred;
    TransferredHandles(c, dst, taken, src, left);
    forall i, j | 0 <= i < j < |c'.list| ensures InOrder(c'.handles[c'.list[i]], c'.handles[c'.list[j]]) {
      var a, b := c.list[i], c.list[j];
      SameWaitOrder(c.handles[a], c'.handles[c'.list[i]], c.handles[b], c'.handles[c'.list[j]]);
    }
  }

  lemma TransferredHandles(c: Conn, dst: Hid, taken: Handle, src: Hid, left: Handle)
    requires Wired(c) && CanTransfer(c, dst, taken, src, left)
    ensures var c' := Transferred(c, dst, taken, src, left);
            && c'.handles == c.handles[dst := taken][src := left] && c'.owed == c.owed[dst := c.owed[src]]
            && c'.transaction == c.transaction
  {
  }

  lemma TransferWired(c: Conn, dst: Hid, taken: Handle, src: Hid, left: Handle)
    requires Wired(c) && CanTransfer(c, dst, taken, src, left)
    ensures Wired(Transferred(c, dst, taken, src, left))
    ensures Closed(Transferred(c, dst, taken, src, left)) <==> Closed(c)
  {
    TransferKeepsList(c, dst, taken, src, left);
    TransferHealthy(c, dst, taken, src, left);
    TransferOrdered(c, dst, taken, src, left);
    hide Listed, Healthy, Ordered, Counted, Transferred, Closed;
  }

  /** Frames that agree place by place, by what the handles there wait for. */
  lemma {:induction false} FramesSameWait(c: Conn, l: seq<Hid>, c': Conn, l': seq<Hid>)
    requires |l| == |l'| && AllKnown(c, l) && AllKnown(c', l')
    requires forall k | 0 <= k < |l| ::
               Frame(c, l[k]) == Frame(c', l'[k]) && IsOpen(c.handles[l[k]]) == IsOpen(c'.handles[l'[k]])
    ensures Frames(c, l) == Frames(c', l')
  {
    if l != [] {
      hide Frame, IsOpen;
      assert Frame(c, l[0]) == Frame(c', l'[0]);
      FramesSameWait(c, l[1..], c', l'[1..]);
    }
  }

  lemma SameWaitFrame(c: Conn, h: Hid, c': Conn, h': Hid)
    requires Known(c, h) && Known(c', h') && SameWait(c.handles[h], c'.handles[h']) && c'.owed[h'] == c.owed[h]
    ensures Frame(c', h') == Frame(c, h) && IsOpen(c.handles[h]) == IsOpen(c'.handles[h'])
  {
  }

  lemma TransferPlaces(c: Conn, dst: Hid, taken: Handle, src: Hid, left: Handle)
    requires Wired(c) && CanTransfer(c, dst, taken, src, left)
    ensures var c' := Transferred(c, dst, taken, src, left);
            && AllKnown(c, c.list) && AllKnown(c', c'.list) && |c.list| == |c'.list| && c'.input == c.input
            && forall k | 0 <= k < |c.list| ::
                 && Frame(c, c.list[k]) == Frame(c', c'.list[k])
                 && IsOpen(c.handles[c.list[k]]) == IsOpen(c'.handles[c'.list[k]])
  {
    var c' := Transferred(c, dst, taken, src, left);
    TransferKeepsList(c, dst, taken, src, left);
    ReplacedPlaces(c.list, src, dst);
    SameWaitFrame(c, src, c', dst);
    hide Distinct, IndexOf, Replaced, Healthy, Ordered, Counted, Encode, EncodeItems, SameWait, IsOpen, QueuedLines;
  }

  lemma CanTransferKnown(c: Conn, dst: Hid, taken: Handle, src: Hid, left: Handle)
    requires CanTransfer(c, dst, taken, src, left)
    ensures Known(c, src)
  {
  }

  lemma TransferFrames(c: Conn, dst: Hid, taken: Handle, src: Hid, left: Handle)
    requires Wired(c) && CanTransfer(c, dst, taken, src, left) && AllKnown(c, c.list)
    ensures var c' := Transferred(c, dst, taken, src, left);
            AllKnown(c', c'.list) && Frames(c', c'.list) == Frames(c, c.list) && c'.input == c.input
  {
    hide *;
    assert Known(c, src) by { CanTransferKnown(c, dst, taken, src, left); }
    var c' := Transferred(c, dst, taken, src, left);
    TransferPlaces(c, dst, taken, src, left);
    FramesSameWait(c, c.list, c', c'.list);
  }

  /** Copying moves the wait, and nobody else notices. */
  lemma TransferGood(c: Conn, dst: Hid, taken: Handle, src: Hid, left: Handle)
    requires Wired(c) && CanTransfer(c, dst, taken, src, left)
    ensures var c' := Transferred(c, dst, taken, src, left);
            Wired(c') && (Good(c') <==> Good(c)) && (Closed(c') <==> Closed(c))
  {
    var c' := Transferred(c, dst, taken, src, left);
    TransferWired(c, dst, taken, src, left);
    TransferFrames(c, dst, taken, src, left);
    hide Wired, Frames, Transferred, CanTransfer, Closed;
    if gap :| AlignedAt(c, gap) {
      assert AlignedAt(c', gap);
    }
    if gap :| AlignedAt(c', gap) {
      assert AlignedAt(c, gap);
    }
  }

  /** What the two objects have to tell after a copy, or an assignment, of the wait. */
  lemma TransferViews(c: Conn, dst: Hid, taken: Handle, src: Hid, left: Handle)
    requires Wired(c) && CanTransfer(c, dst, taken, src, left)
    ensures var c' := Transferred(c, dst, taken, src, left);
            && c.owed.Keys == c.handles.Keys && c'.owed.Keys == c'.handles.Keys && dst in c'.owed && src in c'.owed
            && Views(c') == Views(c)[dst := View(c', dst)][src := View(c', src)]
  {
    hide Healthy, Ordered, Counted, AllKnown, Distinct, SameWait, WellTyped, AnswerOf;
  }

  /** std::list's insert before the original, then its unlink. */
  function InPlace(l: seq<Hid>, src: Hid, dst: Hid): seq<Hid> {
    var k := IndexOf(l, src);
    Unlinked(l[..k] + [dst] + l[k..], src)
  }

  lemma InPlaceIsReplaced(l: seq<Hid>, src: Hid, dst: Hid)
    requires Distinct(l) && dst != src && src in l
    ensures InPlace(l, src, dst) == Replaced(l, src, dst)
  {
    hide *;
    var k := IndexOf(l, src);
    var m := l[..k] + [dst] + l[k..];
    FirstOccurrence(l, src);
    forall i | 0 <= i < k + 1 ensures m[i] != src {
      assert i < k ==> m[i] == l[i];
    }
    IndexBefore(m, src, k + 1);
    InPlaceUnfolds(l, src, dst);
    assert m[..k + 1] == l[..k] + [dst] && m[k + 2..] == l[k + 1..];
  }

  lemma {:induction false} FirstOccurrence(l: seq<Hid>, h: Hid)
    requires h in l
    ensures var k := IndexOf(l, h);
            k < |l| && l[k] == h && forall i | 0 <= i < k :: l[i] != h
  {
    var k := IndexOf(l, h);
    forall i | 0 <= i < k ensures l[i] != h {
      if l[i] == h {
        FirstIndex(l, h, i);
      }
    }
  }

  lemma InPlaceUnfolds(l: seq<Hid>, src: Hid, dst: Hid)
    requires src in l
    ensures var k := IndexOf(l, src);
            var m := l[..k] + [dst] + l[k..];
            && Replaced(l, src, dst) == l[k := dst]
            && (IndexOf(m, src) < |m| ==> InPlace(l, src, dst) == m[..IndexOf(m, src)] + m[IndexOf(m, src) + 1..])
  {
  }

  lemma IndexBefore(l: seq<Hid>, h: Hid, k: nat)
    requires k < |l| && l[k] == h && forall i | 0 <= i < k :: l[i] != h
    ensures IndexOf(l, h) == k
  {
    var j := IndexOf(l, h);
    assert h == l[k];
    FirstIndex(l, h, k);
  }

  lemma {:induction false} FirstIndex(l: seq<Hid>, h: Hid, k: nat)
    requires k < |l| && l[k] == h
    ensures IndexOf(l, h) <= k
  {
    if l[0] != h {
      FirstIndex(l[1..], h, k - 1);
    }
  }

  /** The original of a copy: disconnected, and without what it had put aside. */
  function MovedFrom(h: Handle): Handle {
    match h
    case Simple(_, kind, stored) => Simple(false, kind, stored)
    case Enumerator(_, headerDone, count, _) => Enumerator(false, headerDone, count, [])
    case QueuedReply(_, _, _) => h
  }

  lemma EnumeratorTells(c: Conn, h: Hid)
    requires Known(c, h) && c.handles[h].Enumerator?
    ensures View(c, h).Items?
  {
  }

  /** What a moved-from object has to tell: a simple one its stored default, an enumerator what it had put aside. */
  function Spent(h: Handle): Answer {
    match h
    case Simple(_, _, stored) => stored
    case Enumerator(_, _, _, pending) => Items(pending)
    case QueuedReply(_, _, _) => Flag(false)
  }

  lemma TransferTells(c: Conn, dst: Hid, taken: Handle, src: Hid, left: Handle)
    requires Wired(c) && CanTransfer(c, dst, taken, src, left)
    ensures var c' := Transferred(c, dst, taken, src, left);
            && dst in c'.owed && src in c'.owed && View(c', src) == Spent(left)
            && (c.handles[src].conn ==> View(c', dst) == View(c, src))
            && (!c.handles[src].conn ==> View(c', dst) == Spent(taken))
            && (!c.handles[src].conn ==> View(c, src) == Spent(c.handles[src]))
  {
    var c' := Transferred(c, dst, taken, src, left);
    assert Sound(c.handles[src], c.owed[src]);
    hide Listed, Healthy, Ordered, Counted, WellTyped, AnswerOf, Fits;
    assert left.Enumerator? ==> left.pending + [] == left.pending;
    assert taken.Enumerator? ==> taken.pending + [] == taken.pending;
    assert c.handles[src].Enumerator? ==> c.handles[src].pending + [] == c.handles[src].pending;
  }

  /** What a read handle stores, and what one still waiting does. */
  lemma StoredOrDefault(c: Conn, h: Hid)
    requires Good(c) && Known(c, h) && c.handles[h].Simple?
    ensures c.handles[h].stored == if c.handles[h].conn then Default(c.handles[h].kind) else View(c, h)
  {
    assert Sound(c.handles[h], c.owed[h]);
    hide Listed, Ordered, Counted, Aligned;
  }

  /** Nothing to tell is lost to the original when the handle is copied. */
  predicate TellsTwice(c: Conn, h: Hid)
    requires Known(c, h)
  {
    match c.handles[h]
    case Simple(conn, kind, _) => conn ==> WellTyped(kind, c.owed[h]) && AnswerOf(kind, c.owed[h]) == Default(kind)
    case Enumerator(_, _, _, _) => View(c, h) == Items([])
    case QueuedReply(_, _, _) => true
  }

  /**
   The original of a copy still tells what it had to tell if and only if it is a simple reply that has
   been read, or the answer to come is the one it stores unread; an enumerator, only if it is at its end.
   */
  lemma CopyTellsTwice(c: Conn, dst: Hid, src: Hid)
    requires Good(c) && dst !in c.handles && Known(c, src) && !c.handles[src].QueuedReply?
    ensures CanTransfer(c, dst, c.handles[src], src, MovedFrom(c.handles[src]))
    ensures var c' := Transferred(c, dst, c.handles[src], src, MovedFrom(c.handles[src]));
            Known(c', src) && (View(c', src) == View(c, src) <==> TellsTwice(c, src))
  {
    var h := c.handles[src];
    assert CanTransfer(c, dst, h, src, MovedFrom(h));
    TransferTells(c, dst, h, src, MovedFrom(h));
    if h.Simple? {
      StoredOrDefault(c, src);
    }
    assert Sound(h, c.owed[src]);
    hide Listed, Ordered, Counted, Aligned, WellTyped, AnswerOf, Fits;
  }

  /** What is left of a multi-bulk reply when next() has thrown at its first nil element. */
  function AfterNil(items: seq<Option<Str>>): seq<Option<Str>> {
    if items == [] then [] else if items[0] == None then items[1..] else AfterNil(items[1..])
  }

  lemma {:induction false} NothingAfterNil(items: seq<Option<Str>>)
    ensures AfterNil(items) == [] <==> forall k | 0 <= k < |items| - 1 :: items[k].Some?
  {
    if items != [] && items[0].Some? {
      NothingAfterNil(items[1..]);
      if AfterNil(items) == [] {
        forall k | 0 <= k < |items| - 1 ensures items[k].Some? {
          assert k > 0 ==> items[k] == items[1..][k - 1];
        }
      } else {
        var k :| 0 <= k < |items[1..]| - 1 && !items[1..][k].Some?;
        assert items[k + 1] == items[1..][k];
      }
    } else if |items| > 1 {
      assert items[0] == None;
    }
  }

  // ---------------------------------------------------------------- handles dropped unread

  /** The handle is unlinked and disconnected, whatever the stream still holds for it. */
  function Dropped(c: Conn, h: Hid, left: Handle): Conn {
    c.(handles := c.handles[h := left], list := Unlinked(c.list, h))
  }

  lemma DropConsumes(c: Conn, h: Hid, left: Handle, k: nat)
    requires Good(c) && Known(c, h) && c.transaction != Some(h) && !left.conn
    requires k < |c.list| && c.list[k] == h && AllKnown(c, c.list[k + 1..])
    ensures Consumes(c, Dropped(c, h, left).(input := [] + Frames(c, c.list[k + 1..])), k, [])
  {
    UnlinkedAt(c, k);
    hide Listed, Healthy, Ordered, Counted, Aligned, Unlinked, Frames;
  }

  lemma DropListedWired(c: Conn, h: Hid, left: Handle, k: nat)
    requires Good(c) && Closed(c) && Known(c, h) && c.transaction != Some(h) && !left.conn
    requires k < |c.list| && c.list[k] == h
    ensures Wired(Dropped(c, h, left)) && Closed(Dropped(c, h, left))
  {
    hide *;
    KnownParts(c, k);
    DropConsumes(c, h, left, k);
    var c', c'' := Dropped(c, h, left), Dropped(c, h, left).(input := [] + Frames(c, c.list[k + 1..]));
    GoodIsWired(c);
    ConsumedWired(c, c'', k, []);
    InputIsFree(c'', c');
  }

  lemma GoodIsWired(c: Conn)
    requires Good(c)
    ensures Wired(c)
  {
  }

  lemma DropWired(c: Conn, h: Hid, left: Handle)
    requires Good(c) && Closed(c) && Known(c, h) && c.transaction != Some(h) && !left.conn
    ensures Wired(Dropped(c, h, left)) && Closed(Dropped(c, h, left))
  {
    var k := IndexOf(c.list, h);
    if k < |c.list| {
      DropListedWired(c, h, left, k);
    } else {
      assert Unlinked(c.list, h) == c.list;
      UnlistedWired(c, h, left);
    }
  }

  lemma UnlistedWired(c: Conn, h: Hid, left: Handle)
    requires Wired(c) && Closed(c) && Known(c, h) && c.transaction != Some(h) && !left.conn
    requires h !in c.list
    ensures var c' := c.(handles := c.handles[h := left]);
            Wired(c') && Closed(c')
  {
    hide InOrder, Distinct;
  }

  lemma InputIsFree(c: Conn, c': Conn)
    requires Wired(c) && c' == c.(input := c'.input)
    ensures Wired(c') && (Closed(c) ==> Closed(c'))
  {
    hide Distinct, InOrder, Sound;
  }

  lemma {:induction false} NoneOpenIn(c: Conn, l: seq<Hid>)
    requires Closed(c) && AllKnown(c, l)
    ensures NoneOpen(c, l)
  {
  }

  lemma FramesAgree(c: Conn, c': Conn, l: seq<Hid>)
    requires AllKnown(c, l) && Agree(c, c', l)
    ensures AllKnown(c', l) && Frames(c', l) == Frames(c, l)
  {
    FramesEqual(c, l, c', l);
  }

  lemma FrontOf(c: Conn, l: seq<Hid>)
    requires AllKnown(c, l) && l != [] && NoneOpen(c, l)
    ensures Known(c, l[0]) && AllKnown(c, l[1..]) && Frames(c, l) == Frame(c, l[0]) + Frames(c, l[1..])
  {
    assert !IsOpen(c.handles[l[0]]);
  }

  lemma DropParts(c: Conn, h: Hid, left: Handle, k: nat)
    requires Good(c) && Closed(c) && k < |c.list| && c.list[k] == h && Known(c, h) && c.transaction != Some(h)
    requires !left.conn
    ensures var c', pre, post := Dropped(c, h, left), c.list[..k], c.list[k + 1..];
            && AllKnown(c, c.list) && AllKnown(c, pre) && AllKnown(c, c.list[k..]) && AllKnown(c, post)
            && Agree(c, c', pre) && Agree(c, c', post) && NoneOpen(c, pre) && NoneOpen(c, c.list[k..])
            && c.list == pre + c.list[k..] && c.list[k..][0] == h && c.list[k..][1..] == post
            && AllKnown(c', pre) && NoneOpen(c', pre) && c'.list == pre + post && AllKnown(c', c'.list)
  {
    hide *;
    var c', pre, post := Dropped(c, h, left), c.list[..k], c.list[k + 1..];
    KnownParts(c, k);
    UnlinkedAt(c, k);
    DropAgrees(c, h, left, k);
    NoneOpenIn(c, pre);
    NoneOpenIn(c, c.list[k..]);
    AgreeOpen(c, c', pre);
    DropListedWired(c, h, left, k);
    WiredKnown(c');
    assert c.list == pre + c.list[k..];
  }

  lemma WiredKnown(c: Conn)
    requires Wired(c)
    ensures AllKnown(c, c.list)
  {
  }

  lemma AgreeOpen(c: Conn, c': Conn, l: seq<Hid>)
    requires AllKnown(c, l) && Agree(c, c', l) && NoneOpen(c, l)
    ensures AllKnown(c', l) && NoneOpen(c', l)
  {
  }

  lemma DropAgrees(c: Conn, h: Hid, left: Handle, k: nat)
    requires Good(c) && Known(c, h) && k < |c.list| && c.list[k] == h
    ensures var c' := Dropped(c, h, left);
            && AllKnown(c, c.list[..k]) && AllKnown(c, c.list[k + 1..]) && AllKnown(c, c.list[k..])
            && Agree(c, c', c.list[..k]) && Agree(c, c', c.list[k + 1..])
            && c'.list == Unlinked(c.list, h)
  {
    hide Healthy, Ordered, Counted, Aligned, Unlinked;
    OthersAgree(c, Dropped(c, h, left), k);
  }

  /** The dropped handle's frame is what the remaining handles no longer account for. */
  lemma DropFrames(c: Conn, h: Hid, left: Handle, k: nat)
    requires Good(c) && Closed(c) && k < |c.list| && c.list[k] == h && Known(c, h) && c.transaction != Some(h)
    requires !left.conn && AllKnown(c, c.list[..k]) && AllKnown(c, c.list[k + 1..])
    ensures var c' := Dropped(c, h, left);
            && AllKnown(c, c.list) && AllKnown(c', c'.list)
            && Frames(c, c.list) == Frames(c, c.list[..k]) + (Frame(c, h) + Frames(c, c.list[k + 1..]))
            && Frames(c', c'.list) == Frames(c, c.list[..k]) + Frames(c, c.list[k + 1..])
  {
    hide *;
    var c', pre, post := Dropped(c, h, left), c.list[..k], c.list[k + 1..];
    DropParts(c, h, left, k);
    FramesSplit(c, pre, c.list[k..]);
    FrontOf(c, c.list[k..]);
    FramesAgree(c, c', pre);
    FramesAgree(c, c', post);
    FramesSplit(c', pre, post);
  }

  /** A dropped frame is not white space: the stream stands wrong for good. */
  lemma LostFrame(pre: Str, frame: Str, post: Str, gap: Str, gap': Str)
    requires Blank(gap) && Blank(gap') && frame != []
    requires pre + (frame + post) != [] && !IsSpace((pre + (frame + post))[0])
    ensures gap + (pre + (frame + post)) != gap' + (pre + post)
  {
    var s, s' := gap + (pre + (frame + post)), gap' + (pre + post);
    if |s| == |s'| {
      assert s[|gap|] == (pre + (frame + post))[0];
      assert s'[|gap|] == gap'[|gap|];
    }
  }

  /** Dropping a handle keeps the stream in step exactly when nothing in it belonged to the handle. */
  lemma DropGood(c: Conn, h: Hid, left: Handle)
    requires Good(c) && Closed(c) && Known(c, h) && c.transaction != Some(h) && !left.conn
    ensures var c' := Dropped(c, h, left);
            Wired(c') && Closed(c') && (Good(c') <==> Frame(c, h) == [])
  {
    var c', k := Dropped(c, h, left), IndexOf(c.list, h);
    DropWired(c, h, left);
    if k < |c.list| {
      KnownParts(c, k);
      DropFrames(c, h, left, k);
      FramesStartAt(c);
      var pre, post := Frames(c, c.list[..k]), Frames(c, c.list[k + 1..]);
      hide Wired, Frames, Frame, Dropped, Closed;
      var gap :| AlignedAt(c, gap);
      if Frame(c, h) == [] {
        assert Frame(c, h) + post == post;
        assert AlignedAt(c', gap);
      } else {
        forall gap' ensures !AlignedAt(c', gap') {
          if Blank(gap') {
            LostFrame(pre, Frame(c, h), post, gap, gap');
          }
        }
      }
    } else {
      assert Unlinked(c.list, h) == c.list;
      UnlistedFrame(c, h);
      hide Frames, Frame;
      LooseAligned(c, c');
    }
  }

  // ---------------------------------------------------------------- handles with nothing in the stream

  lemma DrainedDropListed(c: Conn, h: Hid, left: Handle, k: nat)
    requires Wired(c) && k < |c.list| && c.list[k] == h && !c.handles[h].QueuedReply?
    requires !left.conn && !left.QueuedReply?
    ensures Listed(Dropped(c, h, left)) && Healthy(Dropped(c, h, left))
      && Dropped(c, h, left).list == c.list[..k] + c.list[k + 1..]
  {
    UnlinkedOf(c.list, k);
    RemovedAt(c.list, k);
    hide Ordered, Counted, Distinct, Unlinked, WellTyped, Fits;
  }

  lemma DrainedDropOrdered(c: Conn, h: Hid, left: Handle, k: nat)
    requires Wired(c) && k < |c.list| && c.list[k] == h && !c.handles[h].QueuedReply? && Drained(c.handles[h])
    requires !left.conn && !left.QueuedReply? && Listed(Dropped(c, h, left))
    requires Dropped(c, h, left).list == c.list[..k] + c.list[k + 1..]
    ensures Ordered(Dropped(c, h, left)) && Counted(Dropped(c, h, left))
  {
    var l, c' := c.list, Dropped(c, h, left);
    RemovedAt(l, k);
    hide Healthy, Distinct, Unlinked;
    forall i, j | 0 <= i < j < |c'.list| ensures InOrder(c'.handles[c'.list[i]], c'.handles[c'.list[j]]) {
      assert InOrder(c.handles[l[if i < k then i else i + 1]], c.handles[l[if j < k then j else j + 1]]);
    }
    forall i | 0 <= i < |c'.list| && IsOpen(c'.handles[c'.list[i]])
      ensures c'.handles[c'.list[i]].queued == |c'.list| - 1 - i && c'.transaction == Some(c'.list[i])
    {
      var m := if i < k then i else i + 1;
      BehindOpen(c, m, k);
    }
  }

  lemma BehindOpen(c: Conn, m: nat, k: nat)
    requires Wired(c) && m < |c.list| && k < |c.list| && IsOpen(c.handles[c.list[m]])
    ensures m < k ==> Fresh(c.handles[c.list[k]])
  {
    assert m < k ==> InOrder(c.handles[c.list[m]], c.handles[c.list[k]]);
  }

  lemma UnlistedDropWired(c: Conn, h: Hid, left: Handle)
    requires Wired(c) && Known(c, h) && h !in c.list && !c.handles[h].QueuedReply? && !left.conn && !left.QueuedReply?
    ensures Wired(Dropped(c, h, left)) && Dropped(c, h, left).list == c.list
  {
    UnlinkedNothing(c.list, h);
    hide InOrder, Distinct, Unlinked, WellTyped, Fits;
  }

  lemma DrainedDropWired(c: Conn, h: Hid, left: Handle)
    requires Wired(c) && Known(c, h) && Drained(c.handles[h]) && !c.handles[h].QueuedReply?
    requires !left.conn && !left.QueuedReply?
    ensures Wired(Dropped(c, h, left))
  {
    if h in c.list {
      var k := IndexOf(c.list, h);
      DrainedDropListed(c, h, left, k);
      DrainedDropOrdered(c, h, left, k);
    } else {
      UnlistedDropWired(c, h, left);
    }
  }

  lemma DropStaysOpen(c: Conn, h: Hid, left: Handle)
    requires Known(c, h) && !c.handles[h].QueuedReply? && !left.QueuedReply?
    ensures Closed(Dropped(c, h, left)) <==> Closed(c)
    ensures InTransaction(Dropped(c, h, left)) <==> InTransaction(c)
  {
    var c' := Dropped(c, h, left);
    if Closed(c') {
      forall g | g in c.handles ensures !IsOpen(c.handles[g]) {
        assert g != h ==> !IsOpen(c'.handles[g]);
      }
    }
  }

  /** Only the transaction's own frame is in the stream, with or without the handle. */
  lemma OpenDropAligned(c: Conn, h: Hid, left: Handle)
    requires Good(c) && InTransaction(c) && Known(c, h) && !c.handles[h].QueuedReply? && !left.QueuedReply?
    requires Wired(Dropped(c, h, left))
    ensures Good(Dropped(c, h, left))
  {
    hide *;
    var c', q := Dropped(c, h, left), OpenOne(c);
    DropStaysOpen(c, h, left);
    GoodIsWired(c);
    DroppedRest(c, h, left);
    OpenAt(c, q);
    OpenAt(c', q);
    var gap := GapBefore(c);
    OpenFrames(c, IndexOf(c.list, q));
    OpenFrames(c', IndexOf(c'.list, q));
    SameFrame(c, c', q);
    AlignedSo(c', gap);
  }

  function OpenOne(c: Conn): (q: Hid)
    requires InTransaction(c)
    ensures c.transaction == Some(q)
  {
    c.transaction.value
  }

  lemma OpenAt(c: Conn, q: Hid)
    requires Wired(c) && c.transaction == Some(q) && InTransaction(c)
    ensures IndexOf(c.list, q) < |c.list| && Known(c, q) && IsOpen(c.handles[q]) && c.list[IndexOf(c.list, q)] == q
  {
  }

  lemma DroppedRest(c: Conn, h: Hid, left: Handle)
    ensures var c' := Dropped(c, h, left);
            && c'.transaction == c.transaction && c'.input == c.input && c'.owed == c.owed
            && forall g | g in c.handles && g != h :: c'.handles[g] == c.handles[g]
  {
  }

  lemma GapBefore(c: Conn) returns (gap: Str)
    requires Good(c)
    ensures AllKnown(c, c.list) && Blank(gap) && c.input == gap + Frames(c, c.list)
  {
    gap :| AlignedAt(c, gap);
  }

  lemma SameFrame(c: Conn, c': Conn, q: Hid)
    requires Known(c, q) && Known(c', q) && c'.handles[q] == c.handles[q] && c'.owed[q] == c.owed[q]
    ensures Frame(c', q) == Frame(c, q)
  {
  }

  lemma AlignedSo(c: Conn, gap: Str)
    requires Wired(c) && AllKnown(c, c.list) && Blank(gap) && c.input == gap + Frames(c, c.list)
    ensures Good(c)
  {
    assert AlignedAt(c, gap);
  }

  /** A handle with nothing in the stream can be unlinked at any time, in a transaction too. */
  lemma DrainedDropGood(c: Conn, h: Hid, left: Handle)
    requires Good(c) && Known(c, h) && h in c.handles && Drained(c.handles[h]) && !c.handles[h].QueuedReply?
    requires !left.conn && !left.QueuedReply?
    ensures var c' := Dropped(c, h, left);
            Good(c') && (Closed(c') <==> Closed(c)) && Frame(c, h) == []
  {
    hide *;
    GoodIsWired(c);
    OpenIsTransaction(c);
    DrainedDropWired(c, h, left);
    DropStaysOpen(c, h, left);
    DrainedFrame(c, h);
    if Closed(c) {
      NotTheTransaction(c, h);
      DropGood(c, h, left);
    } else {
      OpenDropAligned(c, h, left);
    }
  }

  lemma DrainedFrame(c: Conn, h: Hid)
    requires Good(c) && Known(c, h) && Drained(c.handles[h])
    ensures Frame(c, h) == []
  {
    assert Sound(c.handles[h], c.owed[h]);
    hide Listed, Ordered, Counted, Aligned;
  }

  lemma UnlistedFrame(c: Conn, h: Hid)
    requires Good(c) && Known(c, h) && h !in c.list
    ensures Frame(c, h) == []
  {
  }

  lemma KnownParts(c: Conn, k: nat)
    requires Good(c) && k < |c.list|
    ensures AllKnown(c, c.list) && AllKnown(c, c.list[..k]) && AllKnown(c, c.list[k + 1..])
  {
  }

  lemma FramesStartAt(c: Conn)
    requires Good(c)
    ensures AllKnown(c, c.list) && (Frames(c, c.list) != [] ==> !IsSpace(Frames(c, c.list)[0]))
  {
    if Frames(c, c.list) != [] {
      FramesStart(c, c.list);
    }
  }

  function Erased(c: Conn, h: Hid): Conn {
    c.(handles := c.handles - {h}, owed := c.owed - {h})
  }

  /** A disconnected object off the list can go without a trace. */
  lemma EraseWired(c: Conn, h: Hid)
    requires Wired(c) && Known(c, h) && !c.handles[h].conn && h !in c.list && c.transaction != Some(h)
    ensures var c' := Erased(c, h);
            Wired(c') && (Closed(c) ==> Closed(c')) && Agree(c, c', c.list)
  {
    hide InOrder, Distinct, Sound;
  }

  lemma EraseGood(c: Conn, h: Hid)
    requires Wired(c) && Known(c, h) && !c.handles[h].conn && h !in c.list && c.transaction != Some(h)
    ensures var c' := Erased(c, h);
            && Wired(c') && (Good(c') <==> Good(c)) && (Closed(c) ==> Closed(c'))
            && c.owed.Keys == c.handles.Keys && c'.owed.Keys == c'.handles.Keys && Views(c') == Views(c) - {h}
  {
    var c' := Erased(c, h);
    EraseWired(c, h);
    WiredKnown(c);
    FramesAgree(c, c', c.list);
    EraseViews(c, h);
    hide Wired, Frames, Views;
    if gap :| AlignedAt(c, gap) {
      assert AlignedAt(c', gap);
    }
    if gap :| AlignedAt(c', gap) {
      assert AlignedAt(c, gap);
    }
  }

  lemma EraseViews(c: Conn, h: Hid)
    requires Wired(c) && Known(c, h)
    ensures var c' := Erased(c, h);
            c.owed.Keys == c.handles.Keys && c'.owed.Keys == c'.handles.Keys && Views(c') == Views(c) - {h}
  {
    hide Healthy, Ordered, Counted, AllKnown, Distinct;
  }

  /** Finishing one handle's wait leaves every other handle in place, with the same things to tell. */
  lemma Unforced(c: Conn, c': Conn, dst: Hid, src: Hid)
    requires Good(c) && Good(c') && Known(c, src) && Known(c, dst) && c.owed.Keys == c.handles.Keys
      && c'.owed.Keys == c'.handles.Keys
    requires Views(c') == Views(c)
    ensures Known(c', src) && Known(c', dst) && View(c', src) == View(c, src)
  {
    ViewKeys(c);
    ViewKeys(c');
    SameView(c, c', src);
  }

  /** Whether dropping the enumerator as it is leaves bytes of its reply in the stream. */
  predicate Unread(h: Handle) {
    h.Enumerator? && h.conn && (!h.headerDone || h.count > 0)
  }

  lemma ConnectedHasNothingAside(c: Conn, h: Hid)
    requires Good(c) && Known(c, h) && c.handles[h].Enumerator? && c.handles[h].conn
    ensures c.handles[h].pending == []
  {
    assert Sound(c.handles[h], c.owed[h]);
  }

  lemma UnreadFrame(c: Conn, h: Hid)
    requires Good(c) && Known(c, h) && c.handles[h].Enumerator?
    ensures Frame(c, h) == [] <==> !Unread(c.handles[h])
    ensures c.handles[h].count > 0 && c.handles[h].conn ==> c.handles[h].headerDone
    ensures c.handles[h].conn && c.handles[h].headerDone ==>
      View(c, h).Items? && c.handles[h].count == |View(c, h).items|
  {
    assert Sound(c.handles[h], c.owed[h]);
    hide Listed, Ordered, Counted, Aligned, EncodeHeader, EncodeItem;
    if c.handles[h].conn {
      assert [] + ItemsOf(c.owed[h]) == ItemsOf(c.owed[h]);
    }
  }

  /** pending.clear() and unlink(): the enumerator about to be assigned over. */
  lemma ResetGood(c: Conn, h: Hid)
    requires Good(c) && Known(c, h) && h in c.handles && c.handles[h].Enumerator?
    requires Closed(c) || Drained(c.handles[h])
    ensures var c' := Dropped(c, h, Enumerator(false, c.handles[h].headerDone, c.handles[h].count, []));
            && Wired(c') && (Closed(c') <==> Closed(c)) && (Good(c') <==> !Unread(c.handles[h]))
            && c.owed.Keys == c.handles.Keys && c'.owed.Keys == c'.handles.Keys && Views(c') == Views(c)[h := Items([])]
  {
    hide *;
    var left := Enumerator(false, c.handles[h].headerDone, c.handles[h].count, []);
    GoodKnown(c);
    NotTheTransaction(c, h);
    UnreadFrame(c, h);
    DropViews(c, h, left);
    if Closed(c) {
      DropGood(c, h, left);
    } else {
      DrainedDropGood(c, h, left);
      GoodIsWired(Dropped(c, h, left));
    }
  }

  lemma UnlinkedNothing(l: seq<Hid>, h: Hid)
    requires h !in l
    ensures Unlinked(l, h) == l
  {
  }

  lemma DropViews(c: Conn, h: Hid, left: Handle)
    requires c.owed.Keys == c.handles.Keys && Known(c, h) && left.Enumerator? && !left.conn && left.pending == []
    ensures var c' := Dropped(c, h, left);
            c'.owed.Keys == c'.handles.Keys && Views(c') == Views(c)[h := Items([])]
  {
    hide Unlinked;
    assert left.pending + [] == [];
  }

  lemma NoItemsLeft()
    ensures AfterNil([]) == []
  {
  }

  lemma ViewAt(c: Conn, h: Hid)
    requires c.owed.Keys == c.handles.Keys && h in c.handles
    ensures h in Views(c) && Views(c)[h] == View(c, h)
  {
  }

  /** Unlinking the object and freeing it. */
  function Freed(c: Conn, h: Hid): Conn {
    c.(list := Unlinked(c.list, h), handles := c.handles - {h}, owed := c.owed - {h})
  }

  function Loose(h: Handle): Handle {
    match h
    case Simple(_, kind, stored) => Simple(false, kind, stored)
    case Enumerator(_, headerDone, count, pending) => Enumerator(false, headerDone, count, pending)
    case QueuedReply(_, queued, committed) => QueuedReply(false, queued, committed)
  }

  lemma FreedIsErased(c: Conn, h: Hid)
    requires c.owed.Keys == c.handles.Keys && Known(c, h)
    ensures var c1 := Dropped(c, h, Loose(c.handles[h]));
            && c1.owed.Keys == c1.handles.Keys && Freed(c, h) == Erased(c1, h) && Views(c1) - {h} == Views(c) - {h}
            && Known(c1, h) && !c1.handles[h].conn && c1.transaction == c.transaction
  {
    hide Unlinked, View;
    var c1 := Dropped(c, h, Loose(c.handles[h]));
    assert c1.handles - {h} == c.handles - {h};
    forall g | g in c.handles && g != h ensures View(c1, g) == View(c, g) {
      OtherView(c, c1, g);
    }
  }

  lemma OtherView(c: Conn, c': Conn, h: Hid)
    requires Known(c, h) && Known(c', h) && c'.handles[h] == c.handles[h] && c'.owed[h] == c.owed[h]
    ensures View(c', h) == View(c, h)
  {
  }

  lemma DroppedIsUnlisted(c: Conn, h: Hid, left: Handle)
    requires Good(c) && Known(c, h)
    ensures h !in Dropped(c, h, left).list
  {
    var k := IndexOf(c.list, h);
    if k < |c.list| {
      UnlinkedAt(c, k);
    } else {
      UnlinkedNothing(c.list, h);
    }
  }

  /** Freeing a handle keeps the stream in step exactly when it has no bytes in the stream. */
  lemma Loosened(c: Conn, h: Hid)
    requires Good(c) && h in c.handles && h in c.owed && Known(c, h) && !c.handles[h].QueuedReply?
      && (Closed(c) || Drained(c.handles[h]))
    ensures var c' := Freed(c, h);
            && c.owed.Keys == c.handles.Keys && c'.owed.Keys == c'.handles.Keys
            && (Good(c') <==> Frame(c, h) == []) && Views(c') == Views(c) - {h} && (Closed(c') <==> Closed(c))
  {
    hide *;
    GoodKnown(c);
    var left := Loose(c.handles[h]);
    var c1 := Dropped(c, h, left);
    NotTheTransaction(c, h);
    FreedIsErased(c, h);
    DroppedIsUnlisted(c, h, left);
    LooseIsLoose(c.handles[h]);
    if Closed(c) {
      DropGood(c, h, left);
    } else {
      DrainedDropGood(c, h, left);
      GoodIsWired(c1);
    }
    EraseGood(c1, h);
    EraseStaysOpen(c1, h);
    DropStaysOpen(c, h, left);
  }

  lemma EraseStaysOpen(c: Conn, h: Hid)
    requires Known(c, h) && !c.handles[h].conn
    ensures Closed(Erased(c, h)) <==> Closed(c)
  {
    var c' := Erased(c, h);
    if Closed(c') {
      forall g | g in c.handles ensures !IsOpen(c.handles[g]) {
        assert g != h ==> !IsOpen(c'.handles[g]);
      }
    }
  }

  lemma LooseIsLoose(h: Handle)
    ensures !Loose(h).conn && (Loose(h).QueuedReply? <==> h.QueuedReply?)
  {
  }

  // ---------------------------------------------------------------- commands

  predicate InTransaction(c: Conn) {
    c.transaction.Some? && c.transaction.value in c.handles && IsOpen(c.handles[c.transaction.value])
  }

  function NewHandle(kind: Kind): Handle {
    match kind
    case MultiBulk => Enumerator(true, false, 0, [])
    case _ => Simple(true, kind, Default(kind))
  }

  /** A new handle is counted by the connection's transaction, if there is one. */
  function CountedHandles(c: Conn): map<Hid, Handle> {
    match c.transaction
    case None => c.handles
    case Some(q) =>
      if q in c.handles && c.handles[q].QueuedReply? then
        c.handles[q := c.handles[q].(queued := c.handles[q].queued + 1)]
      else c.handles
  }

  /** The server answers at once, or only queues the command while a transaction is open. */
  function AfterIssue(c: Conn, h: Hid, kind: Kind, reply: Reply): Conn {
    c.(input := c.input + (if InTransaction(c) then Encode(Status(QUEUED)) else Encode(reply)),
       list := c.list + [h], handles := CountedHandles(c)[h := NewHandle(kind)], owed := c.owed[h := reply])
  }

  lemma OpenIsTransaction(c: Conn)
    requires Good(c)
    ensures Closed(c) <==> !InTransaction(c)
  {
    forall h | h in c.handles && IsOpen(c.handles[h]) ensures c.transaction == Some(h) {
      assert h == c.list[IndexOf(c.list, h)];
    }
  }

  lemma IssueListed(c: Conn, h: Hid, kind: Kind, reply: Reply)
    requires Good(c) && h !in c.handles && WellTyped(kind, reply) && Fits(reply)
    ensures Listed(AfterIssue(c, h, kind, reply)) && Healthy(AfterIssue(c, h, kind, reply))
    ensures forall g | g in c.handles :: SameFlags(c.handles[g], AfterIssue(c, h, kind, reply).handles[g])
  {
    hide InOrder, Counted, Aligned, Encode, WellTyped, Fits;
    NewHandleSound(kind, reply);
  }

  predicate SameFlags(a: Handle, b: Handle) {
    b == a || (a.QueuedReply? && b.QueuedReply? && b.conn == a.conn && b.committed == a.committed)
  }

  lemma NewHandleSound(kind: Kind, reply: Reply)
    requires WellTyped(kind, reply) && Fits(reply)
    ensures Sound(NewHandle(kind), reply) && Fresh(NewHandle(kind))
  {
  }

  lemma IssueParts(c: Conn, h: Hid, kind: Kind, reply: Reply)
    requires Good(c) && h !in c.handles && WellTyped(kind, reply) && Fits(reply)
    ensures var c' := AfterIssue(c, h, kind, reply);
            && c'.list == c.list + [h] && AllKnown(c, c.list) && AllKnown(c', c'.list) && AllKnown(c', c.list)
            && c'.handles[h] == NewHandle(kind) && c'.owed[h] == reply && c'.transaction == c.transaction
            && (forall j | 0 <= j < |c.list| ::
                  SameFlags(c.handles[c.list[j]], c'.handles[c.list[j]]) && c'.owed[c.list[j]] == c.owed[c.list[j]])
            && (forall g | g in c.handles :: g in c'.handles && SameFlags(c.handles[g], c'.handles[g]))
            && c'.handles.Keys == c.handles.Keys + {h}
  {
    hide Healthy, Ordered, Counted, Aligned, Distinct, Encode;
  }

  lemma SameFlagsOrder(a: Handle, a': Handle, b: Handle, b': Handle)
    requires InOrder(a, b) && SameFlags(a, a') && SameFlags(b, b')
    ensures InOrder(a', b')
  {
  }

  lemma IssueOrdered(c: Conn, h: Hid, kind: Kind, reply: Reply)
    requires Good(c) && h !in c.handles && WellTyped(kind, reply) && Fits(reply)
    ensures var c' := AfterIssue(c, h, kind, reply);
            AllKnown(c', c'.list) && Ordered(c')
  {
    var c' := AfterIssue(c, h, kind, reply);
    IssueParts(c, h, kind, reply);
    NewHandleSound(kind, reply);
    hide Listed, Healthy, Counted, Aligned, SameFlags, AfterIssue, NewHandle, WellTyped, Fits;
    forall i, j | 0 <= i < j < |c'.list| ensures InOrder(c'.handles[c'.list[i]], c'.handles[c'.list[j]]) {
      if j < |c.list| {
        SameFlagsOrder(c.handles[c.list[i]], c'.handles[c.list[i]], c.handles[c.list[j]], c'.handles[c.list[j]]);
      }
    }
  }

  lemma IssueCounted(c: Conn, h: Hid, kind: Kind, reply: Reply)
    requires Good(c) && h !in c.handles && WellTyped(kind, reply) && Fits(reply)
    ensures var c' := AfterIssue(c, h, kind, reply);
            AllKnown(c', c'.list) && Counted(c')
  {
    IssueParts(c, h, kind, reply);
    NewHandleSound(kind, reply);
    hide Healthy, Ordered, Aligned, Encode, WellTyped, Fits, Distinct;
  }

  lemma IssueWired(c: Conn, h: Hid, kind: Kind, reply: Reply)
    requires Good(c) && h !in c.handles && WellTyped(kind, reply) && Fits(reply)
    ensures Wired(AfterIssue(c, h, kind, reply))
    ensures Closed(AfterIssue(c, h, kind, reply)) <==> Closed(c)
  {
    var c' := AfterIssue(c, h, kind, reply);
    IssueListed(c, h, kind, reply);
    IssueOrdered(c, h, kind, reply);
    IssueCounted(c, h, kind, reply);
    IssueParts(c, h, kind, reply);
    NewHandleSound(kind, reply);
    hide Good, Listed, Healthy, Ordered, Counted, AfterIssue, NewHandle, WellTyped, Fits;
  }

  lemma SameFlagsFrame(c: Conn, c': Conn, h: Hid)
    requires Known(c, h) && Known(c', h) && SameFlags(c.handles[h], c'.handles[h]) && c'.owed[h] == c.owed[h]
    requires !IsOpen(c.handles[h])
    ensures Frame(c, h) == Frame(c', h) && !IsOpen(c'.handles[h])
  {
  }

  lemma {:induction false} IssueFramesOld(c: Conn, c': Conn, l: seq<Hid>)
    requires AllKnown(c, l) && AllKnown(c', l) && NoneOpen(c, l)
    requires forall j | 0 <= j < |l| :: SameFlags(c.handles[l[j]], c'.handles[l[j]]) && c'.owed[l[j]] == c.owed[l[j]]
    ensures Frames(c', l) == Frames(c, l) && NoneOpen(c', l)
  {
    forall k | 0 <= k < |l| ensures Frame(c, l[k]) == Frame(c', l[k]) && !IsOpen(c'.handles[l[k]]) {
      SameFlagsFrame(c, c', l[k]);
    }
    hide SameFlags, Frame, IsOpen, Frames;
    FramesSameWait(c, l, c', l);
  }

  lemma NewFrame(c: Conn, h: Hid, kind: Kind)
    requires Known(c, h) && c.handles[h] == NewHandle(kind)
    ensures AllKnown(c, [h]) && Frames(c, [h]) == Encode(c.owed[h])
  {
    assert Frames(c, [h]) == Frame(c, h) + [];
  }

  lemma IssueFramesClosed(c: Conn, h: Hid, kind: Kind, reply: Reply)
    requires Good(c) && Closed(c) && h !in c.handles && WellTyped(kind, reply) && Fits(reply)
    ensures var c' := AfterIssue(c, h, kind, reply);
            && AllKnown(c, c.list) && AllKnown(c', c'.list)
            && Frames(c', c'.list) == Frames(c, c.list) + Encode(reply)
  {
    var c' := AfterIssue(c, h, kind, reply);
    IssueParts(c, h, kind, reply);
    NoneOpenIn(c, c.list);
    hide Good, Closed, SameFlags, AfterIssue, Encode, NewHandle, WellTyped, Fits, Frames, NoneOpen;
    IssueFramesOld(c, c', c.list);
    NewFrame(c', h, kind);
    FramesSplit(c', c.list, [h]);
  }

  /** While a transaction is open, only its own frame is in the stream. */
  lemma OpenFrames(c: Conn, k: nat)
    requires Wired(c) && k < |c.list| && IsOpen(c.handles[c.list[k]])
    ensures AllKnown(c, c.list) && Frames(c, c.list) == Frame(c, c.list[k])
  {
    var q := c.list[k];
    forall j | 0 <= j < k ensures Drained(c.handles[c.list[j]]) && !IsOpen(c.handles[c.list[j]]) {
      assert InOrder(c.handles[c.list[j]], c.handles[q]);
    }
    assert AllDrained(c, c.list[..k]) && NoneOpen(c, c.list[..k]);
    FramesFrom(c, k);
    hide Wired, Frame;
  }

  lemma {:induction false} QueuedSnoc(n: nat)
    ensures QueuedLines(n + 1) == QueuedLines(n) + Encode(Status(QUEUED))
  {
    hide Encode;
    if n > 0 {
      QueuedSnoc(n - 1);
    }
  }

  lemma OpenFrame(c: Conn, c': Conn, q: Hid)
    requires Known(c, q) && Known(c', q) && IsOpen(c.handles[q])
    requires c'.handles[q] == c.handles[q].(queued := c.handles[q].queued + 1)
    ensures Frame(c', q) == Frame(c, q) + Encode(Status(QUEUED))
  {
    hide Encode, QueuedLines;
    QueuedSnoc(c.handles[q].queued);
  }

  lemma OpenPlace(c: Conn) returns (k: nat)
    requires Good(c) && InTransaction(c)
    ensures k < |c.list| && c.list[k] == c.transaction.value && Known(c, c.list[k]) && IsOpen(c.handles[c.list[k]])
  {
    k := IndexOf(c.list, c.transaction.value);
  }

  lemma IssueFramesOpen(c: Conn, h: Hid, kind: Kind, reply: Reply)
    requires Good(c) && InTransaction(c) && h !in c.handles && WellTyped(kind, reply) && Fits(reply)
    ensures var c' := AfterIssue(c, h, kind, reply);
            && AllKnown(c, c.list) && AllKnown(c', c'.list)
            && Frames(c', c'.list) == Frames(c, c.list) + Encode(Status(QUEUED))
  {
    var c', q := AfterIssue(c, h, kind, reply), c.transaction.value;
    var k := OpenPlace(c);
    assert c'.handles[q] == c.handles[q].(queued := c.handles[q].queued + 1) && Wired(c);
    IssueWired(c, h, kind, reply);
    IssueParts(c, h, kind, reply);
    hide Wired, Aligned, Frames, Frame, Encode, AfterIssue, WellTyped, Fits, NewHandle;
    OpenFrames(c, k);
    OpenFrames(c', k);
    OpenFrame(c, c', q);
  }

  lemma ExtendAligned(c: Conn, c': Conn, more: Str)
    requires Good(c) && Wired(c') && AllKnown(c, c.list) && AllKnown(c', c'.list)
    requires c'.input == c.input + more && Frames(c', c'.list) == Frames(c, c.list) + more
    ensures Good(c')
  {
    hide Wired, Frames;
    var gap :| AlignedAt(c, gap);
    assert AlignedAt(c', gap);
  }

  lemma IssueViews(c: Conn, h: Hid, kind: Kind, reply: Reply)
    requires c.owed.Keys == c.handles.Keys && h !in c.handles && WellTyped(kind, reply)
    ensures var c' := AfterIssue(c, h, kind, reply);
            c'.owed.Keys == c'.handles.Keys && Views(c') == Views(c)[h := AnswerOf(kind, reply)]
  {
    var c' := AfterIssue(c, h, kind, reply);
    hide Encode;
    assert reply.Multi? ==> [] + reply.items == reply.items;
    assert View(c', h) == AnswerOf(kind, reply);
    hide AnswerOf, WellTyped, NewHandle;
  }

  /** A command's handle will tell the command's own reply, and the other handles are not disturbed. */
  lemma IssueGood(c: Conn, h: Hid, kind: Kind, reply: Reply)
    requires Good(c) && h !in c.handles && WellTyped(kind, reply) && Fits(reply)
    ensures var c' := AfterIssue(c, h, kind, reply);
            && Good(c') && (Closed(c') <==> Closed(c)) && c.owed.Keys == c.handles.Keys
               && c'.owed.Keys == c'.handles.Keys
            && Views(c') == Views(c)[h := AnswerOf(kind, reply)]
  {
    var c' := AfterIssue(c, h, kind, reply);
    GoodKnown(c);
    OpenIsTransaction(c);
    IssueWired(c, h, kind, reply);
    IssueViews(c, h, kind, reply);
    if InTransaction(c) {
      IssueFramesOpen(c, h, kind, reply);
      hide Wired, Aligned, Frames, Encode;
      ExtendAligned(c, c', Encode(Status(QUEUED)));
    } else {
      IssueFramesClosed(c, h, kind, reply);
      hide Wired, Aligned, Frames, Encode;
      ExtendAligned(c, c', Encode(reply));
    }
  }
}
