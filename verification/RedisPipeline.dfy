/**
 Lazy reply handles of one Redis connection: the list of outstanding handles against the bytes not yet
 read. Good says that the unread bytes are the replies the listed handles still wait for, in list order.
 */
module RedisPipeline {
  import opened Bytes
  import opened RedisWire

  /** The address of a reply object. */
  type Hid = nat

  datatype Kind = Void | Bool | Int | String | MultiBulk

  datatype Answer = Flag(b: bool) | Number(n: int) | Text(item: Option<Str>) | Items(items: seq<Option<Str>>)

  /** The reply objects; `conn` is whether the object's connection pointer is set. */
  datatype Handle =
    | Simple(conn: bool, kind: Kind, stored: Answer)
    | Enumerator(conn: bool, headerDone: bool, count: int, pending: seq<Option<Str>>)
    | QueuedReply(conn: bool, queued: nat, committed: bool)

  /** `owed` is the reply the server gives, or will give, to a connected handle's command. */
  datatype Conn = Conn(input: Str, list: seq<Hid>, handles: map<Hid, Handle>, transaction: Option<Hid>,
                       owed: map<Hid, Reply>)

  // ---------------------------------------------------------------- what a handle will say

  predicate WellTyped(kind: Kind, r: Reply) {
    match kind
    case Void => r.Status?
    case Bool => r.Integer?
    case Int => r.Integer?
    case String => r.Bulk?
    case MultiBulk => r.Multi?
  }

  /** The answer a command's handle has to give, from its own reply. */
  function AnswerOf(kind: Kind, r: Reply): Answer
    requires WellTyped(kind, r)
  {
    match kind
    case Void => Flag(true)
    case Bool => Flag(r.n > 0)
    case Int => Number(r.n)
    case String => Text(r.item)
    case MultiBulk => Items(r.items)
  }

  /** What a reply object of the kind stores before it has read anything. */
  function Default(kind: Kind): Answer {
    match kind
    case Void => Flag(false)
    case Bool => Flag(false)
    case Int => Number(0)
    case String => Text(None)
    case MultiBulk => Items([])
  }

  predicate Known(c: Conn, h: Hid) {
    h in c.handles && h in c.owed
  }

  predicate AllKnown(c: Conn, list: seq<Hid>) {
    forall k :: 0 <= k < |list| ==> Known(c, list[k])
  }

  function ItemsOf(r: Reply): seq<Option<Str>> {
    if r.Multi? then r.items else []
  }

  /** What the handle still has to tell its client, whether read from the stream yet or not. */
  function View(c: Conn, h: Hid): Answer
    requires Known(c, h)
  {
    match c.handles[h]
    case Simple(conn, kind, stored) => if conn && WellTyped(kind, c.owed[h]) then AnswerOf(kind, c.owed[h]) else stored
    case Enumerator(conn, _, _, pending) => Items(pending + (if conn then ItemsOf(c.owed[h]) else []))
    case QueuedReply(_, _, _) => Flag(false)
  }

  function Views(c: Conn): map<Hid, Answer>
    requires c.owed.Keys == c.handles.Keys
  {
    map h | h in c.handles :: View(c, h)
  }

  // ---------------------------------------------------------------- the bytes a handle waits for

  const OK: Str := [0x4F, 0x4B]
  const QUEUED: Str := [0x51, 0x55, 0x45, 0x55, 0x45, 0x44]

  function QueuedLines(n: nat): Str {
    if n == 0 then [] else Encode(Status(QUEUED)) + QueuedLines(n - 1)
  }

  function Frame(c: Conn, h: Hid): Str
    requires Known(c, h)
  {
    match c.handles[h]
    case Simple(conn, _, _) => if conn then Encode(c.owed[h]) else []
    case Enumerator(conn, headerDone, _, _) =>
      if !conn then [] else if headerDone then EncodeItems(ItemsOf(c.owed[h])) else Encode(c.owed[h])
    case QueuedReply(conn, queued, _) => if conn then Encode(Status(OK)) + QueuedLines(queued) else []
  }

  /** An uncommitted transaction: the handles behind it have no reply in the stream yet. */
  predicate IsOpen(h: Handle) {
    h.QueuedReply? && h.conn
  }

  function Frames(c: Conn, list: seq<Hid>): Str
    requires AllKnown(c, list)
  {
    if list == [] then []
    else Frame(c, list[0]) + (if IsOpen(c.handles[list[0]]) then [] else Frames(c, list[1..]))
  }

  // ---------------------------------------------------------------- the invariant

  predicate Distinct(list: seq<Hid>) {
    forall i, j :: 0 <= i < j < |list| ==> list[i] != list[j]
  }

  /** Nothing in the stream belongs to the handle. */
  predicate Drained(h: Handle) {
    !h.conn || (h.Enumerator? && h.headerDone && h.count == 0)
  }

  predicate Fresh(h: Handle) {
    h.conn && (h.Simple? || (h.Enumerator? && !h.headerDone))
  }

  /** What `b` being listed behind `a` demands. */
  predicate InOrder(a: Handle, b: Handle) {
    && ((b.Enumerator? && b.conn && b.headerDone) || IsOpen(b) ==> Drained(a))
    && (IsOpen(a) ==> Fresh(b))
  }

  predicate Sound(h: Handle, owed: Reply) {
    match h
    case Simple(conn, kind, stored) =>
      conn ==> kind != MultiBulk && WellTyped(kind, owed) && Fits(owed) && stored == Default(kind)
    case Enumerator(conn, headerDone, count, pending) =>
      conn ==> pending == [] && owed.Multi? && Fits(owed) && count == (if headerDone then |owed.items| else 0)
    case QueuedReply(conn, _, committed) => conn ==> !committed
  }

  /** The list names known handles, each once, and only handles that wait for something. */
  predicate Listed(c: Conn) {
    && c.owed.Keys == c.handles.Keys && AllKnown(c, c.list) && Distinct(c.list)
    && (forall k :: 0 <= k < |c.list| ==> c.handles[c.list[k]].conn || c.handles[c.list[k]].QueuedReply?)
    && (c.transaction.Some? ==> c.transaction.value in c.handles && c.handles[c.transaction.value].QueuedReply?)
  }

  predicate Healthy(c: Conn)
    requires c.owed.Keys == c.handles.Keys
  {
    forall h | h in c.handles :: Sound(c.handles[h], c.owed[h]) && (c.handles[h].conn ==> h in c.list)
  }

  predicate Ordered(c: Conn)
    requires AllKnown(c, c.list)
  {
    forall i, j :: 0 <= i < j < |c.list| ==> InOrder(c.handles[c.list[i]], c.handles[c.list[j]])
  }

  /** The open transaction is the connection's, and has counted the handles issued in it. */
  predicate Counted(c: Conn)
    requires AllKnown(c, c.list)
  {
    forall k :: 0 <= k < |c.list| && IsOpen(c.handles[c.list[k]]) ==>
      c.handles[c.list[k]].queued == |c.list| - 1 - k && c.transaction == Some(c.list[k])
  }

  ghost predicate Wired(c: Conn) {
    Listed(c) && Healthy(c) && Ordered(c) && Counted(c)
  }

  predicate AlignedAt(c: Conn, gap: Str)
    requires AllKnown(c, c.list)
  {
    Blank(gap) && c.input == gap + Frames(c, c.list)
  }

  /** Up to white space, the unread bytes are what the listed handles wait for. */
  ghost predicate Aligned(c: Conn)
    requires AllKnown(c, c.list)
  {
    exists gap :: AlignedAt(c, gap)
  }

  ghost predicate Good(c: Conn) {
    Wired(c) && Aligned(c)
  }

  /** No transaction is open. */
  predicate Closed(c: Conn) {
    forall h | h in c.handles :: !IsOpen(c.handles[h])
  }

  lemma NothingIssued(c: Conn)
    requires c == Conn([], [], map[], None, map[])
    ensures Good(c) && Closed(c) && Views(c) == map[]
  {
    assert AlignedAt(c, []);
  }

  // ---------------------------------------------------------------- positions in the list

  function IndexOf(list: seq<Hid>, h: Hid): (k: nat)
    ensures k <= |list| && (k < |list| <==> h in list)
    ensures k < |list| ==> list[k] == h
  {
    if list == [] then 0 else if list[0] == h then 0 else 1 + IndexOf(list[1..], h)
  }

  /** Unlinking the handle from the list. */
  function Unlinked(list: seq<Hid>, h: Hid): seq<Hid> {
    var k := IndexOf(list, h);
    if k < |list| then list[..k] + list[k + 1..] else list
  }

  lemma IndexIs(list: seq<Hid>, k: nat)
    requires Distinct(list) && k < |list|
    ensures IndexOf(list, list[k]) == k
  {
    var i := IndexOf(list, list[k]);
    assert list[i] == list[k];
  }

  lemma RemovedAt(l: seq<Hid>, k: nat)
    requires Distinct(l) && k < |l|
    ensures var l' := l[..k] + l[k + 1..];
            && Distinct(l') && l[k] !in l' && l'[..k] == l[..k] && l'[k..] == l[k + 1..]
            && (forall j :: 0 <= j < |l'| ==> l'[j] == l[if j < k then j else j + 1])
            && (forall g :: g in l && g != l[k] ==> g in l')
  {
    var l' := l[..k] + l[k + 1..];
    forall g | g in l && g != l[k] ensures g in l' {
      var j := IndexOf(l, g);
      assert l[j] == l'[if j < k then j else j - 1];
    }
  }

  // ---------------------------------------------------------------- lemmas about the frames

  lemma {:induction false} FramesEqual(c: Conn, l: seq<Hid>, c': Conn, l': seq<Hid>)
    requires |l| == |l'| && AllKnown(c, l) && AllKnown(c', l')
    requires forall k | 0 <= k < |l| :: c.handles[l[k]] == c'.handles[l'[k]] && c.owed[l[k]] == c'.owed[l'[k]]
    ensures Frames(c, l) == Frames(c', l')
  {
    if l != [] {
      forall k | 0 <= k < |l| - 1
        ensures c.handles[l[1..][k]] == c'.handles[l'[1..][k]] && c.owed[l[1..][k]] == c'.owed[l'[1..][k]]
      {
        assert l[1..][k] == l[k + 1] && l'[1..][k] == l'[k + 1];
      }
      FramesEqual(c, l[1..], c', l'[1..]);
    }
  }

  predicate NoneOpen(c: Conn, l: seq<Hid>)
    requires AllKnown(c, l)
  {
    forall k :: 0 <= k < |l| ==> !IsOpen(c.handles[l[k]])
  }

  lemma {:induction false} FramesSplit(c: Conn, a: seq<Hid>, b: seq<Hid>)
    requires AllKnown(c, a) && AllKnown(c, b) && AllKnown(c, a + b) && NoneOpen(c, a)
    ensures Frames(c, a + b) == Frames(c, a) + Frames(c, b)
  {
    hide Frame;
    if a == [] {
      assert a + b == b;
    } else {
      assert (a + b)[1..] == a[1..] + b;
      assert (a + b)[0] == a[0] && !IsOpen(c.handles[a[0]]);
      FramesSplit(c, a[1..], b);
    }
  }

  predicate AllDrained(c: Conn, l: seq<Hid>)
    requires AllKnown(c, l)
  {
    forall k :: 0 <= k < |l| ==> Drained(c.handles[l[k]])
  }

  lemma {:induction false} DrainedFrames(c: Conn, l: seq<Hid>)
    requires AllKnown(c, l) && AllDrained(c, l)
    requires forall k | 0 <= k < |l| :: Sound(c.handles[l[k]], c.owed[l[k]])
    ensures Frames(c, l) == []
  {
    if l != [] {
      assert Drained(c.handles[l[0]]);
      DrainedFrames(c, l[1..]);
    }
  }

  /** With everything before position `k` drained, the stream holds the frames from `k` on. */
  lemma FramesFrom(c: Conn, k: nat)
    requires Wired(c) && k <= |c.list| && AllDrained(c, c.list[..k])
    requires NoneOpen(c, c.list[..k])
    ensures Frames(c, c.list) == Frames(c, c.list[k..])
  {
    assert c.list == c.list[..k] + c.list[k..];
    FramesSplit(c, c.list[..k], c.list[k..]);
    DrainedFrames(c, c.list[..k]);
  }

  lemma {:induction false} FramesStart(c: Conn, l: seq<Hid>)
    requires AllKnown(c, l) && Frames(c, l) != []
    ensures !IsSpace(Frames(c, l)[0])
  {
    if Frame(c, l[0]) == [] {
      FramesStart(c, l[1..]);
    } else {
      assert Frames(c, l)[0] == Frame(c, l[0])[0];
    }
  }

  // ---------------------------------------------------------------- reading up to a handle

  /** `c'` is `c` with everything listed before position `k` read; the rest is untouched. */
  ghost predicate Forced(c: Conn, c': Conn, k: nat)
    requires k <= |c.list| && Good(c)
  {
    && Good(c') && Closed(c') && Views(c') == Views(c) && c'.transaction == c.transaction && SameTypes(c, c')
    && |c.list| - k <= |c'.list| <= |c.list|
    && Read(c, c', k)
  }

  predicate SameType(a: Handle, b: Handle) {
    match a
    case Simple(_, kind, _) => b.Simple? && b.kind == kind
    case Enumerator(_, _, _, _) => b.Enumerator?
    case QueuedReply(_, _, _) => b.QueuedReply?
  }

  predicate SameTypes(c: Conn, c': Conn) {
    forall h | h in c.handles :: h in c'.handles && SameType(c.handles[h], c'.handles[h])
  }

  /** The same reply objects, of the same types. */
  predicate SameObjects(c: Conn, c': Conn) {
    c'.handles.Keys == c.handles.Keys && SameTypes(c, c')
  }

  predicate Read(c: Conn, c': Conn, k: nat)
    requires k <= |c.list| && |c.list| - k <= |c'.list|
    requires AllKnown(c, c.list) && AllKnown(c', c'.list)
  {
    var k' := |c'.list| - (|c.list| - k);
    AllDrained(c', c'.list[..k']) && c'.list[k'..] == c.list[k..] && Agree(c, c', c.list[k..])
  }

  /** The two states say the same of the listed handles. */
  predicate Agree(c: Conn, c': Conn, l: seq<Hid>)
    requires AllKnown(c, l)
  {
    forall k :: 0 <= k < |l| ==> Known(c', l[k]) && c'.handles[l[k]] == c.handles[l[k]] && c'.owed[l[k]] == c.owed[l[k]]
  }

  lemma ForcedNone(c: Conn)
    requires Good(c) && Closed(c)
    ensures Forced(c, c, 0)
  {
  }

  lemma AgreeTail(c: Conn, c': Conn, l: seq<Hid>)
    requires AllKnown(c, l) && Agree(c, c', l) && l != []
    ensures AllKnown(c, l[1..]) && Agree(c, c', l[1..])
  {
  }

  lemma ReadStep(c: Conn, c1: Conn, c2: Conn, k: nat, k1: nat)
    requires AllKnown(c, c.list) && AllKnown(c1, c1.list) && AllKnown(c2, c2.list)
    requires k < |c.list| && k1 < |c1.list| && |c1.list| - k1 == |c.list| - k && Read(c, c1, k)
    requires |c1.list| - (k1 + 1) <= |c2.list| && Read(c1, c2, k1 + 1)
    ensures Read(c, c2, k + 1)
  {
    var tail := c.list[k..];
    assert c1.list[k1..] == tail && c1.list[k1 + 1..] == tail[1..] && c.list[k + 1..] == tail[1..];
    hide AllDrained, Agree;
    AgreeTail(c, c1, tail);
    AgreeChain(c, c1, c2, tail[1..]);
  }

  lemma AgreeChain(c: Conn, c1: Conn, c2: Conn, l: seq<Hid>)
    requires AllKnown(c, l) && AllKnown(c1, l) && Agree(c, c1, l) && Agree(c1, c2, l)
    ensures Agree(c, c2, l)
  {
  }

  lemma TypesChain(c: Conn, c1: Conn, c2: Conn)
    requires SameTypes(c, c1) && SameTypes(c1, c2)
    ensures SameTypes(c, c2)
  {
  }

  lemma ForcedStep(c: Conn, c1: Conn, c2: Conn, k: nat)
    requires Good(c) && k < |c.list| && Forced(c, c1, k) && Good(c1)
    requires 0 <= |c1.list| - (|c.list| - k) && Forced(c1, c2, |c1.list| - (|c.list| - k) + 1)
    ensures Forced(c, c2, k + 1)
  {
    hide *;
    ForcedParts(c, c1, k);
    var k1: nat := |c1.list| - (|c.list| - k);
    ForcedParts(c1, c2, k1 + 1);
    TypesChain(c, c1, c2);
    ReadStep(c, c1, c2, k, k1);
    ForcedOf(c, c2, k + 1);
  }

  /** While everything before position `k` is read, the handle there keeps its own place in the list. */
  lemma NextInLine(c: Conn, c': Conn, k: nat)
    requires Good(c) && k < |c.list| && Forced(c, c', k)
    ensures var k' := |c'.list| - (|c.list| - k);
            && Known(c, c.list[k]) && Known(c', c.list[k]) && AllKnown(c', c'.list[..k'])
            && c'.list[k'] == c.list[k] && IndexOf(c'.list, c.list[k]) == k' && k' <= k
            && (k + 1 < |c.list| ==> c'.list[k' + 1] == c.list[k + 1])
            && AllDrained(c', c'.list[..k'])
            && c'.handles[c.list[k]] == c.handles[c.list[k]] && c'.owed[c.list[k]] == c.owed[c.list[k]]
  {
    var k' := |c'.list| - (|c.list| - k);
    assert c'.list[k'..] == c.list[k..];
    assert c'.list[k'..][0] == c'.list[k'] && c.list[k..][0] == c.list[k];
    assert k + 1 < |c.list| ==> c'.list[k'..][1] == c'.list[k' + 1] && c.list[k..][1] == c.list[k + 1];
    IndexIs(c'.list, k');
    hide Aligned, Views, Frames, Closed;
  }

  /** A handle with nothing in the stream needs no reading. */
  lemma DrainedIsRead(c: Conn, k: nat)
    requires Good(c) && Closed(c) && k < |c.list| && AllDrained(c, c.list[..k]) && Drained(c.handles[c.list[k]])
    ensures Forced(c, c, k + 1)
  {
    hide *;
    GoodKnown(c);
    TypesKept(c);
    ReadNothing(c, k);
    ForcedOf(c, c, k + 1);
  }

  lemma QueuedIsDrained(c: Conn, h: Hid)
    requires Closed(c) && h in c.handles && c.handles[h].QueuedReply?
    ensures Drained(c.handles[h])
  {
    assert !IsOpen(c.handles[h]);
  }

  lemma TypesKept(c: Conn)
    ensures SameTypes(c, c)
  {
  }

  lemma ReadNothing(c: Conn, k: nat)
    requires AllKnown(c, c.list) && k < |c.list| && AllDrained(c, c.list[..k]) && Drained(c.handles[c.list[k]])
    ensures Read(c, c, k + 1)
  {
  }

  lemma GoodLists(c: Conn)
    requires Good(c)
    ensures Listed(c) && forall h | h in c.handles && c.handles[h].conn :: h in c.list
  {
  }

  // ---------------------------------------------------------------- the handle at the front

  /** With everything before it drained, the stream goes on with the handle's own frame. */
  lemma FrontFrame(c: Conn, k: nat) returns (gap: Str)
    requires Good(c) && Closed(c) && k < |c.list| && AllDrained(c, c.list[..k])
    ensures AllKnown(c, c.list[k + 1..]) && Blank(gap)
    ensures c.input == gap + (Frame(c, c.list[k]) + Frames(c, c.list[k + 1..]))
  {
    gap :| AlignedAt(c, gap);
    FramesFrom(c, k);
    assert c.list[k..][1..] == c.list[k + 1..] && c.list[k..][0] == c.list[k];
    hide Frame;
  }

  /** An enumerator only starts when everything before it has been read. */
  lemma StartedIsFirst(c: Conn, k: nat)
    requires Good(c) && k < |c.list| && c.handles[c.list[k]].Enumerator? && c.handles[c.list[k]].headerDone
    ensures AllDrained(c, c.list[..k])
  {
    forall j | 0 <= j < k ensures Drained(c.handles[c.list[j]]) {
      assert InOrder(c.handles[c.list[j]], c.handles[c.list[k]]);
    }
  }

  /** The handle at position `k`, read to its end, leaves the list. */
  ghost predicate Consumes(c: Conn, c': Conn, k: nat, left: Str)
    requires Wired(c) && k < |c.list|
  {
    var h := c.list[k];
    && h in c'.handles && !c'.handles[h].conn && c.transaction != Some(h)
    && c' == c.(input := left + Frames(c, c.list[k + 1..]), list := c.list[..k] + c.list[k + 1..],
                handles := c.handles[h := c'.handles[h]])
  }

  lemma ConsumedListed(c: Conn, c': Conn, k: nat, left: Str)
    requires Wired(c) && k < |c.list| && Consumes(c, c', k, left)
    ensures Listed(c') && Healthy(c')
  {
    var h := c.list[k];
    RemovedAt(c.list, k);
    hide Frames, Sound, Ordered, Counted, Distinct;
    assert Sound(c'.handles[h], c'.owed[h]) by { NotConnectedIsSound(c'.handles[h], c'.owed[h]); }
  }

  lemma NotConnectedIsSound(h: Handle, owed: Reply)
    requires !h.conn
    ensures Sound(h, owed)
  {
  }

  lemma ConsumedWired(c: Conn, c': Conn, k: nat, left: Str)
    requires Wired(c) && Closed(c) && k < |c.list| && Consumes(c, c', k, left)
    ensures Wired(c') && Closed(c')
  {
    ConsumedListed(c, c', k, left);
    RemovedAt(c.list, k);
    var l, l' := c.list, c'.list;
    hide Frames, Sound, InOrder, Healthy;
    forall i, j | 0 <= i < j < |l'| ensures InOrder(c'.handles[l'[i]], c'.handles[l'[j]]) {
      assert InOrder(c.handles[l[if i < k then i else i + 1]], c.handles[l[if j < k then j else j + 1]]);
    }
  }

  lemma ConsumedAligned(c: Conn, c': Conn, k: nat, left: Str)
    requires Wired(c) && Closed(c) && k < |c.list| && Consumes(c, c', k, left)
    requires AllDrained(c, c.list[..k]) && Blank(left)
    ensures Good(c') && Agree(c, c', c.list[k + 1..]) && AllDrained(c', c'.list[..k]) && Read(c, c', k + 1)
  {
    ConsumedWired(c, c', k, left);
    assert c'.list[k..] == c.list[k + 1..] && c'.list[..k] == c.list[..k];
    OthersAgree(c, c', k);
    hide Healthy, Ordered, Counted, Sound;
    FramesFrom(c', k);
    FramesEqual(c, c.list[k + 1..], c', c'.list[k..]);
    assert AlignedAt(c', left);
  }

  /** The enumerator at position `k` has read its header or an element and goes on with `items`. */
  ghost predicate Advances(c: Conn, c': Conn, k: nat, items: seq<Option<Str>>, left: Str)
    requires Wired(c) && k < |c.list|
  {
    var h := c.list[k];
    && c.handles[h].Enumerator? && !Drained(c.handles[h]) && ItemsFit(items)
    && c' == c.(input := left + (EncodeItems(items) + Frames(c, c.list[k + 1..])),
                handles := c.handles[h := Enumerator(true, true, |items|, [])],
                owed := c.owed[h := Reply.Multi(items)])
  }

  lemma AdvancedWired(c: Conn, c': Conn, k: nat, items: seq<Option<Str>>, left: Str)
    requires Wired(c) && Closed(c) && k < |c.list| && Advances(c, c', k, items, left) && AllDrained(c, c.list[..k])
    ensures Wired(c') && Closed(c')
  {
    hide Frames;
    forall i, j | 0 <= i < j < |c.list| ensures InOrder(c'.handles[c.list[i]], c'.handles[c.list[j]]) {
      assert InOrder(c.handles[c.list[i]], c.handles[c.list[j]]);
      assert j == k ==> c.list[..k][i] == c.list[i];
    }
  }

  lemma AdvancedAligned(c: Conn, c': Conn, k: nat, items: seq<Option<Str>>, left: Str)
    requires Wired(c) && Closed(c) && k < |c.list| && Advances(c, c', k, items, left) && Blank(left)
    requires AllDrained(c, c.list[..k])
    ensures Good(c') && Closed(c') && AllKnown(c, c.list[..k]) && AllKnown(c', c.list[..k])
    ensures AllDrained(c', c.list[..k]) && Agree(c, c', c.list[k + 1..])
  {
    AdvancedWired(c, c', k, items, left);
    var tail := c.list[k + 1..];
    assert c'.list[k..][1..] == tail && c'.list[k..][0] == c.list[k];
    OthersAgree(c, c', k);
    hide Healthy, Ordered, Counted, Sound;
    FramesFrom(c', k);
    FramesEqual(c, tail, c', tail);
    assert Frames(c', c'.list[k..]) == EncodeItems(items) + Frames(c', tail);
    assert AlignedAt(c', left);
  }

  /** A change of the handle at position `k` leaves the rest of the list alone. */
  lemma OthersAgree(c: Conn, c': Conn, k: nat)
    requires AllKnown(c, c.list) && Distinct(c.list) && k < |c.list|
    requires forall h | h in c.handles && h in c.owed && h != c.list[k] ::
               Known(c', h) && c'.handles[h] == c.handles[h] && c'.owed[h] == c.owed[h]
    ensures Agree(c, c', c.list[..k]) && Agree(c, c', c.list[k + 1..])
  {
  }

  // ---------------------------------------------------------------- what reading yields

  /** What result() reads for a handle's kind; None where it throws. */
  function ReadAnswer(kind: Kind, s: Str): Option<(Answer, Str)> {
    match kind
    case Void => (match ReadStatus(s) case Some((_, rest)) => Some((Flag(true), rest)) case None => None)
    case Bool => (match ReadInteger(s) case Some((n, rest)) => Some((Flag(n > 0), rest)) case None => None)
    case Int => (match ReadInteger(s) case Some((n, rest)) => Some((Number(n), rest)) case None => None)
    case String => (match ReadBulk(s) case Some((item, rest)) => Some((Text(item), rest)) case None => None)
    case MultiBulk => None
  }

  function LeftBehind(kind: Kind): (s: Str)
    ensures Blank(s)
  {
    if kind == Void then [NEWLINE] else CRLF
  }

  lemma AnswerIsRead(gap: Str, kind: Kind, r: Reply, s: Str)
    requires Blank(gap) && kind != MultiBulk && WellTyped(kind, r) && Fits(r)
    ensures ReadAnswer(kind, gap + (Encode(r) + s)) == Some((AnswerOf(kind, r), LeftBehind(kind) + s))
  {
    assert gap + (Encode(r) + s) == gap + Encode(r) + s;
    hide ReadStatus, ReadInteger, ReadBulk;
    match kind {
      case Void => StatusIsRead(gap, r.text, s);
      case Bool => IntegerIsRead(gap, r.n, s);
      case Int => IntegerIsRead(gap, r.n, s);
      case String => BulkIsRead(gap, r.item, s);
    }
  }

  /** The enumerator at position `k` has been read from, after everything before it. */
  predicate Part(c: Conn, c': Conn, k: nat)
    requires AllKnown(c, c.list) && AllKnown(c', c'.list) && k < |c.list|
  {
    var h, n := c.list[k], |c.list| - (k + 1);
    var k' := |c'.list| - n;
    && n <= |c'.list| <= |c.list|
    && c'.list[k'..] == c.list[k + 1..] && Agree(c, c', c.list[k + 1..])
    && h in c'.handles
    && (if c'.handles[h].conn then k' > 0 && c'.list[k' - 1] == h && AllDrained(c', c'.list[..k' - 1])
        else AllDrained(c', c'.list[..k']))
  }

  lemma ReadThenPart(c: Conn, c1: Conn, c2: Conn, k: nat, k1: nat)
    requires AllKnown(c, c.list) && AllKnown(c1, c1.list) && AllKnown(c2, c2.list)
    requires k < |c.list| && k1 < |c1.list| && |c1.list| - k1 == |c.list| - k && |c1.list| <= |c.list|
    requires Read(c, c1, k) && Part(c1, c2, k1)
    ensures Part(c, c2, k)
  {
    var tail := c.list[k..];
    assert c1.list[k1..] == tail && c1.list[k1 + 1..] == tail[1..] && c.list[k + 1..] == tail[1..];
    assert c1.list[k1] == tail[0] == c.list[k];
    hide AllDrained, Agree;
    AgreeTail(c, c1, tail);
    AgreeChain(c, c1, c2, tail[1..]);
  }

  lemma PartThenPart(c: Conn, c1: Conn, c2: Conn, k: nat, k1: nat)
    requires AllKnown(c, c.list) && AllKnown(c1, c1.list) && AllKnown(c2, c2.list)
    requires k < |c.list| && k1 < |c1.list| && |c1.list| - k1 == |c.list| - k && c1.list[k1] == c.list[k]
    requires Part(c, c1, k) && Part(c1, c2, k1)
    ensures Part(c, c2, k)
  {
    var tail := c.list[k + 1..];
    hide AllDrained, Agree;
    AgreeChain(c, c1, c2, tail);
  }

  /** Read to its end, the enumerator is like any handle that was forced. */
  lemma PartIsRead(c: Conn, c': Conn, k: nat)
    requires AllKnown(c, c.list) && AllKnown(c', c'.list) && k < |c.list| && Part(c, c', k)
    requires !c'.handles[c.list[k]].conn
    ensures Read(c, c', k + 1)
  {
  }

  // ---------------------------------------------------------------- the effect on what is still to be told

  lemma ConsumedViews(c: Conn, c': Conn, k: nat, left: Str)
    requires Wired(c) && Wired(c') && k < |c.list| && Consumes(c, c', k, left)
    ensures Views(c') == Views(c)[c.list[k] := View(c', c.list[k])]
  {
    hide Wired, Frames;
  }

  lemma AdvancedViews(c: Conn, c': Conn, k: nat, items: seq<Option<Str>>, left: Str)
    requires Wired(c) && Wired(c') && k < |c.list| && Advances(c, c', k, items, left)
    ensures Views(c') == Views(c)[c.list[k] := Items(items)]
  {
    hide Wired, Frames;
    assert [] + items == items;
  }

  // ---------------------------------------------------------------- single reads

  /** The state after a simple handle at the front has read its answer `a`, leaving `rest`. */
  function AfterAnswer(c: Conn, h: Hid, kind: Kind, a: Answer, rest: Str): Conn {
    c.(input := rest, handles := c.handles[h := Simple(false, kind, a)], list := Unlinked(c.list, h))
  }

  lemma UnlinkedOf(l: seq<Hid>, k: nat)
    requires Distinct(l) && k < |l|
    ensures Unlinked(l, l[k]) == l[..k] + l[k + 1..] && l[k] !in Unlinked(l, l[k])
  {
    hide Distinct, IndexOf;
    IndexIs(l, k);
    RemovedAt(l, k);
  }

  lemma DistinctList(c: Conn)
    requires Good(c)
    ensures Distinct(c.list)
  {
  }

  lemma UnlinkedAt(c: Conn, k: nat)
    requires Good(c) && k < |c.list|
    ensures Unlinked(c.list, c.list[k]) == c.list[..k] + c.list[k + 1..] && c.list[k] !in Unlinked(c.list, c.list[k])
    ensures IndexOf(c.list, c.list[k]) == k
  {
    hide *;
    DistinctList(c);
    UnlinkedOf(c.list, k);
    IndexIs(c.list, k);
  }

  /** Reading a handle to its end, without a change in what it has to tell, is forcing it. */
  lemma ConsumedForces(c: Conn, c': Conn, k: nat, left: Str)
    requires Good(c) && Closed(c) && k < |c.list| && Consumes(c, c', k, left)
    requires AllDrained(c, c.list[..k]) && Blank(left) && Known(c', c.list[k])
      && View(c', c.list[k]) == View(c, c.list[k])
    requires Known(c, c.list[k]) && SameType(c.handles[c.list[k]], c'.handles[c.list[k]])
    ensures Forced(c, c', k + 1)
  {
    ConsumedTypes(c, c', k, left);
    ConsumedAligned(c, c', k, left);
    ConsumedWired(c, c', k, left);
    ConsumedViews(c, c', k, left);
    ViewIs(c, c.list[k]);
    hide Wired, Aligned, Views, Read, View, Frames, AllDrained, SameTypes;
  }

  lemma ConsumedTypes(c: Conn, c': Conn, k: nat, left: Str)
    requires Good(c) && k < |c.list| && Consumes(c, c', k, left)
    requires Known(c, c.list[k]) && SameType(c.handles[c.list[k]], c'.handles[c.list[k]])
    ensures SameTypes(c, c')
  {
    hide Good, Frames;
  }

  lemma ViewIs(c: Conn, h: Hid)
    requires Good(c) && h in c.handles
    ensures Views(c)[h := View(c, h)] == Views(c)
  {
  }

  lemma NotTheTransaction(c: Conn, h: Hid)
    requires Good(c) && h in c.handles && !c.handles[h].QueuedReply?
    ensures c.transaction != Some(h)
  {
  }

  lemma AnswerConsumes(c: Conn, k: nat, left: Str)
    requires Good(c) && k < |c.list| && c.handles[c.list[k]].Simple? && AllKnown(c, c.list[k + 1..])
    ensures var h := c.list[k];
            var c' := AfterAnswer(c, h, c.handles[h].kind, View(c, h), left + Frames(c, c.list[k + 1..]));
            Consumes(c, c', k, left) && Known(c', h) && View(c', h) == View(c, h)
              && SameType(c.handles[h], c'.handles[h])
  {
    UnlinkedAt(c, k);
    NotTheTransaction(c, c.list[k]);
    hide Listed, Healthy, Ordered, Counted, Aligned, Frames, WellTyped, AnswerOf, Unlinked;
    KnownAt(c, k);
  }

  lemma AnswerForces(c: Conn, k: nat, left: Str)
    requires Good(c) && Closed(c) && k < |c.list| && AllDrained(c, c.list[..k]) && Blank(left)
    requires c.handles[c.list[k]].Simple? && AllKnown(c, c.list[k + 1..])
    ensures var h := c.list[k];
            Forced(c, AfterAnswer(c, h, c.handles[h].kind, View(c, h), left + Frames(c, c.list[k + 1..])), k + 1)
    ensures c.list[k] !in Unlinked(c.list, c.list[k])
  {
    hide *;
    KnownAt(c, k);
    UnlinkedAt(c, k);
    AnswerConsumes(c, k, left);
    var h := c.list[k];
    ConsumedForces(c, AfterAnswer(c, h, c.handles[h].kind, View(c, h), left + Frames(c, c.list[k + 1..])), k, left);
  }

  lemma KnownAt(c: Conn, k: nat)
    requires Good(c) && k < |c.list|
    ensures c.list[k] in c.handles && c.list[k] in c.owed && Known(c, c.list[k])
  {
  }

  /** What Good says of a listed simple handle. */
  lemma SimpleFacts(c: Conn, k: nat)
    requires Good(c) && k < |c.list| && c.list[k] in c.handles && c.list[k] in c.owed
    requires c.handles[c.list[k]].Simple? && c.handles[c.list[k]].conn
    ensures var h := c.list[k];
            var kind := c.handles[h].kind;
            && kind != MultiBulk && WellTyped(kind, c.owed[h]) && Fits(c.owed[h])
            && View(c, h) == AnswerOf(kind, c.owed[h]) && Frame(c, h) == Encode(c.owed[h])
  {
    assert Sound(c.handles[c.list[k]], c.owed[c.list[k]]);
    hide Ordered, Counted, Aligned, Encode;
  }

  lemma AnswerRead(c: Conn, k: nat)
    requires Good(c) && Closed(c) && k < |c.list| && AllDrained(c, c.list[..k])
    requires c.handles[c.list[k]].Simple? && c.handles[c.list[k]].conn
    ensures var h := c.list[k];
            var kind := c.handles[h].kind;
            && ReadAnswer(kind, c.input).Some?
            && ReadAnswer(kind, c.input).value.0 == View(c, h)
            && Forced(c, AfterAnswer(c, h, kind, View(c, h), ReadAnswer(kind, c.input).value.1), k + 1)
            && h !in Unlinked(c.list, h)
  {
    hide *;
    KnownAt(c, k);
    SimpleFacts(c, k);
    var h := c.list[k];
    var kind := c.handles[h].kind;
    var gap := FrontFrame(c, k);
    AnswerIsRead(gap, kind, c.owed[h], Frames(c, c.list[k + 1..]));
    AnswerForces(c, k, LeftBehind(kind));
  }

  /** The state after the enumerator has read its header or an element; `items` are still to come. */
  function AfterItem(c: Conn, h: Hid, items: seq<Option<Str>>, rest: Str): Conn {
    c.(input := rest, handles := c.handles[h := Enumerator(true, true, |items|, [])],
      owed := c.owed[h := Reply.Multi(items)])
  }

  function AfterEnd(c: Conn, h: Hid): Conn {
    c.(handles := c.handles[h := Enumerator(false, true, 0, [])], list := Unlinked(c.list, h))
  }

  /** Reading the enumerator at position `k` has led to `c'`; `next` is the element it gave, if any. */
  ghost predicate Enumerated(c: Conn, c': Conn, k: nat)
    requires Good(c) && k < |c.list|
  {
    && Good(c') && Closed(c') && c'.transaction == c.transaction && c'.handles.Keys == c.handles.Keys
    && SameTypes(c, c')
    && Part(c, c', k) && c'.handles[c.list[k]].Enumerator?
    && (c'.handles[c.list[k]].conn ==> c'.handles[c.list[k]].headerDone)
  }

  lemma AdvancesPart(c: Conn, k: nat, items: seq<Option<Str>>, left: Str)
    requires Good(c) && Closed(c) && k < |c.list| && AllDrained(c, c.list[..k]) && Blank(left)
    requires c.handles[c.list[k]].Enumerator? && !Drained(c.handles[c.list[k]]) && ItemsFit(items)
    requires AllKnown(c, c.list[k + 1..])
    ensures var c' := AfterItem(c, c.list[k], items, left + (EncodeItems(items) + Frames(c, c.list[k + 1..])));
            Enumerated(c, c', k) && Views(c') == Views(c)[c.list[k] := Items(items)]
  {
    hide *;
    var c' := AfterItem(c, c.list[k], items, left + (EncodeItems(items) + Frames(c, c.list[k + 1..])));
    KnownAt(c, k);
    GoodWired(c);
    ItemAdvances(c, k, items, left);
    AdvancedAligned(c, c', k, items, left);
    GoodWired(c');
    AdvancedViews(c, c', k, items, left);
    ItemIsPart(c, k, items, left);
    EnumeratedOf(c, c', k);
  }

  lemma GoodWired(c: Conn)
    requires Good(c)
    ensures Wired(c) && AllKnown(c, c.list)
  {
  }

  lemma ItemAdvances(c: Conn, k: nat, items: seq<Option<Str>>, left: Str)
    requires Good(c) && k < |c.list| && AllKnown(c, c.list[k + 1..]) && c.list[k] in c.handles
    requires c.handles[c.list[k]].Enumerator? && !Drained(c.handles[c.list[k]]) && ItemsFit(items)
    ensures Advances(c, AfterItem(c, c.list[k], items, left + (EncodeItems(items) + Frames(c, c.list[k + 1..]))),
      k, items, left)
  {
    hide Good, Frames, EncodeItems, ItemsFit;
  }

  lemma ItemIsPart(c: Conn, k: nat, items: seq<Option<Str>>, left: Str)
    requires Good(c) && k < |c.list| && c.list[k] in c.handles && c.handles[c.list[k]].Enumerator?
    requires AllKnown(c, c.list) && AllKnown(c, c.list[k + 1..])
    ensures var rest := left + (EncodeItems(items) + Frames(c, c.list[k + 1..]));
            var c' := AfterItem(c, c.list[k], items, rest);
            && SameTypes(c, c') && c'.transaction == c.transaction && c'.handles.Keys == c.handles.Keys
            && c'.handles[c.list[k]] == Enumerator(true, true, |items|, []) && AllKnown(c', c'.list)
            && (AllKnown(c, c.list[..k]) && AllDrained(c', c.list[..k]) && Agree(c, c', c.list[k + 1..]) ==>
                  Part(c, c', k))
  {
    hide Good, Frames, EncodeItems, AllDrained, Agree;
    assert c.list[..k + 1][..k] == c.list[..k];
  }

  lemma EnumeratorFrame(c: Conn, h: Hid)
    requires h in c.handles && h in c.owed && c.handles[h].Enumerator? && c.handles[h].conn && c.owed[h].Multi?
    ensures var items := c.owed[h].items;
            && (!c.handles[h].headerDone ==> Frame(c, h) == EncodeHeader(|items|) + EncodeItems(items))
            && (c.handles[h].headerDone && items == [] ==> Frame(c, h) == [])
            && (c.handles[h].headerDone && items != [] ==>
                  Frame(c, h) == EncodeItem(items[0]) + EncodeItems(items[1..]))
  {
    hide EncodeHeader, EncodeItem;
  }

  /** What Good says of a listed enumerator. */
  lemma EnumeratorFacts(c: Conn, k: nat)
    requires Good(c) && k < |c.list| && c.list[k] in c.handles && c.list[k] in c.owed
      && c.handles[c.list[k]].Enumerator?
    ensures var h := c.list[k];
            var items := ItemsOf(c.owed[h]);
            && c.handles[h].conn && c.handles[h].pending == [] && c.owed[h] == Reply.Multi(items)
            && |items| < TWO_TO_31 && ItemsFit(items) && (items != [] ==> ItemFits(items[0]) && ItemsFit(items[1..]))
            && View(c, h) == Items(items) && Fresh(c.handles[h]) == !c.handles[h].headerDone
            && Drained(c.handles[h]) == (c.handles[h].headerDone && items == [])
            && c.handles[h].count == (if c.handles[h].headerDone then |items| else 0)
  {
    var h := c.list[k];
    assert Sound(c.handles[h], c.owed[h]);
    hide Ordered, Counted, Aligned;
    assert [] + ItemsOf(c.owed[h]) == ItemsOf(c.owed[h]);
  }

  lemma HeaderAtFront(c: Conn, k: nat)
    requires Good(c) && Closed(c) && k < |c.list| && AllDrained(c, c.list[..k])
    requires c.handles[c.list[k]].Enumerator? && Fresh(c.handles[c.list[k]])
    ensures AllKnown(c, c.list[k + 1..])
    ensures var items := ItemsOf(c.owed[c.list[k]]);
            && ItemsFit(items) && View(c, c.list[k]) == Items(items)
            && ReadHeader(c.input) == Some((|items|, CRLF + (EncodeItems(items) + Frames(c, c.list[k + 1..]))))
  {
    hide *;
    KnownAt(c, k);
    EnumeratorFacts(c, k);
    EnumeratorFrame(c, c.list[k]);
    var gap := FrontFrame(c, k);
    var items := c.owed[c.list[k]].items;
    var tail := EncodeItems(items) + Frames(c, c.list[k + 1..]);
    assert c.input == gap + EncodeHeader(|items|) + tail;
    HeaderIsRead(gap, |items|, tail);
  }

  lemma LineEndIsBlank()
    ensures Blank(CRLF)
  {
  }

  lemma HeaderRead(c: Conn, k: nat)
    requires Good(c) && Closed(c) && k < |c.list| && AllDrained(c, c.list[..k])
    requires c.handles[c.list[k]].Enumerator? && Fresh(c.handles[c.list[k]])
    ensures var h, read := c.list[k], ReadHeader(c.input);
            var items := ItemsOf(c.owed[h]);
            && read.Some? && read.value.0 == |items| && View(c, h) == Items(items)
            && Enumerated(c, AfterItem(c, h, items, read.value.1), k)
            && Views(AfterItem(c, h, items, read.value.1)) == Views(c)
  {
    hide *;
    KnownAt(c, k);
    EnumeratorFacts(c, k);
    LineEndIsBlank();
    HeaderAtFront(c, k);
    AdvancesPart(c, k, ItemsOf(c.owed[c.list[k]]), CRLF);
    ViewIs(c, c.list[k]);
  }

  lemma ElementAtFront(c: Conn, k: nat)
    requires Good(c) && Closed(c) && k < |c.list|
    requires c.handles[c.list[k]].Enumerator? && c.handles[c.list[k]].headerDone && c.handles[c.list[k]].count > 0
    ensures AllKnown(c, c.list[k + 1..]) && AllDrained(c, c.list[..k]) && !Drained(c.handles[c.list[k]])
    ensures var items := ItemsOf(c.owed[c.list[k]]);
            && c.handles[c.list[k]].count == |items| && ItemsFit(items[1..]) && View(c, c.list[k]) == Items(items)
            && ReadBulk(c.input) == Some((items[0], CRLF + (EncodeItems(items[1..]) + Frames(c, c.list[k + 1..]))))
  {
    hide *;
    KnownAt(c, k);
    EnumeratorFacts(c, k);
    StartedIsFirst(c, k);
    EnumeratorFrame(c, c.list[k]);
    var gap := FrontFrame(c, k);
    var items := c.owed[c.list[k]].items;
    var tail := EncodeItems(items[1..]) + Frames(c, c.list[k + 1..]);
    assert c.input == gap + EncodeItem(items[0]) + tail;
    BulkIsRead(gap, items[0], tail);
  }

  lemma ElementRead(c: Conn, k: nat)
    requires Good(c) && Closed(c) && k < |c.list|
    requires c.handles[c.list[k]].Enumerator? && c.handles[c.list[k]].headerDone && c.handles[c.list[k]].count > 0
    ensures var h, read := c.list[k], ReadBulk(c.input);
            var items := ItemsOf(c.owed[h]);
            && c.handles[h].count == |items| && read.Some? && read.value.0 == items[0] && View(c, h) == Items(items)
            && Enumerated(c, AfterItem(c, h, items[1..], read.value.1), k)
            && Views(AfterItem(c, h, items[1..], read.value.1)) == Views(c)[h := Items(items[1..])]
  {
    hide *;
    KnownAt(c, k);
    LineEndIsBlank();
    ElementAtFront(c, k);
    AdvancesPart(c, k, ItemsOf(c.owed[c.list[k]])[1..], CRLF);
  }

  lemma EndForces(c: Conn, k: nat, gap: Str)
    requires Good(c) && Closed(c) && k < |c.list| && AllDrained(c, c.list[..k]) && Blank(gap)
    requires c.handles[c.list[k]].Enumerator? && AllKnown(c, c.list[k + 1..])
    requires c.input == gap + Frames(c, c.list[k + 1..]) && View(c, c.list[k]) == Items([])
    ensures Enumerated(c, AfterEnd(c, c.list[k]), k) && Views(AfterEnd(c, c.list[k])) == Views(c)
  {
    hide *;
    KnownAt(c, k);
    EndConsumes(c, k, gap);
    ConsumedForces(c, AfterEnd(c, c.list[k]), k, gap);
    EndedIsEnumerated(c, k);
    SameViews(c, AfterEnd(c, c.list[k]), k + 1);
  }

  lemma EndConsumes(c: Conn, k: nat, gap: Str)
    requires Good(c) && k < |c.list| && c.handles[c.list[k]].Enumerator? && AllKnown(c, c.list[k + 1..])
    requires c.input == gap + Frames(c, c.list[k + 1..]) && View(c, c.list[k]) == Items([])
    ensures var c' := AfterEnd(c, c.list[k]);
            Consumes(c, c', k, gap) && Known(c', c.list[k]) && View(c', c.list[k]) == View(c, c.list[k]) &&
            SameType(c.handles[c.list[k]], c'.handles[c.list[k]])
  {
    UnlinkedAt(c, k);
    NotTheTransaction(c, c.list[k]);
    hide Listed, Healthy, Ordered, Counted, Aligned, Frames, Unlinked;
    KnownAt(c, k);
  }

  lemma EndedIsEnumerated(c: Conn, k: nat)
    requires Good(c) && k < |c.list| && c.list[k] in c.handles && Forced(c, AfterEnd(c, c.list[k]), k + 1)
    ensures Enumerated(c, AfterEnd(c, c.list[k]), k)
  {
    hide Wired, Aligned, Views, Frames, Closed, Unlinked, AllDrained, Agree;
  }

  lemma SameViews(c: Conn, c': Conn, k: nat)
    requires Good(c) && k <= |c.list| && Forced(c, c', k)
    ensures c'.owed.Keys == c'.handles.Keys && Views(c') == Views(c)
  {
  }

  lemma EndRead(c: Conn, k: nat)
    requires Good(c) && Closed(c) && k < |c.list|
    requires c.handles[c.list[k]].Enumerator? && c.handles[c.list[k]].headerDone && c.handles[c.list[k]].count <= 0
    ensures var h := c.list[k];
            && View(c, h) == Items([]) && c.handles[h].count == 0
            && Enumerated(c, AfterEnd(c, h), k) && Views(AfterEnd(c, h)) == Views(c)
  {
    hide *;
    KnownAt(c, k);
    EnumeratorFacts(c, k);
    StartedIsFirst(c, k);
    EnumeratorFrame(c, c.list[k]);
    var gap := FrontFrame(c, k);
    assert c.input == gap + Frames(c, c.list[k + 1..]);
    EndForces(c, k, gap);
  }

  // ---------------------------------------------------------------- whole enumerations

  lemma GoodKnown(c: Conn)
    requires Good(c)
    ensures AllKnown(c, c.list) && c.owed.Keys == c.handles.Keys
  {
  }

  /** Enumerated and Forced, taken apart. */
  lemma EnumeratedParts(c: Conn, c': Conn, k: nat)
    requires Good(c) && k < |c.list| && Enumerated(c, c', k)
    ensures Good(c') && Closed(c') && c'.transaction == c.transaction && c'.handles.Keys == c.handles.Keys
      && SameTypes(c, c')
    ensures AllKnown(c, c.list) && AllKnown(c', c'.list) && Part(c, c', k) && c.list[k] in c.handles
    ensures c'.handles[c.list[k]].Enumerator? && (c'.handles[c.list[k]].conn ==> c'.handles[c.list[k]].headerDone)
  {
    GoodKnown(c);
    GoodKnown(c');
    hide Wired, Aligned, Closed, Part;
  }

  lemma ViewKeys(c: Conn)
    requires c.owed.Keys == c.handles.Keys
    ensures Views(c).Keys == c.handles.Keys
  {
    assert forall h :: h in Views(c) <==> h in c.handles;
  }

  lemma ForcedParts(c: Conn, c': Conn, k: nat)
    requires Good(c) && k <= |c.list| && Forced(c, c', k)
    ensures Good(c') && Closed(c') && c'.transaction == c.transaction && c'.handles.Keys == c.handles.Keys
      && SameTypes(c, c')
    ensures AllKnown(c, c.list) && AllKnown(c', c'.list) && |c.list| - k <= |c'.list| <= |c.list| && Read(c, c', k)
    ensures c.owed.Keys == c.handles.Keys && c'.owed.Keys == c'.handles.Keys && Views(c') == Views(c)
  {
    GoodKnown(c);
    GoodKnown(c');
    ViewKeys(c);
    ViewKeys(c');
    hide Wired, Aligned, Closed, Read, Views;
  }

  lemma ForcedObjects(c: Conn, c': Conn, k: nat)
    requires Good(c) && k <= |c.list| && Forced(c, c', k)
    ensures SameObjects(c, c')
  {
    ForcedParts(c, c', k);
  }

  lemma ObjectsKept(c: Conn)
    ensures SameObjects(c, c)
  {
  }

  lemma TypesAreObjects(c: Conn, c': Conn)
    requires SameTypes(c, c') && c'.handles.Keys == c.handles.Keys
    ensures SameObjects(c, c')
  {
  }

  lemma ObjectsTwice(c: Conn, c1: Conn, c2: Conn)
    requires SameObjects(c, c1) && SameObjects(c1, c2)
    ensures SameObjects(c, c2)
  {
  }

  lemma OneType(c: Conn, c': Conn, h: Hid)
    requires h in c.handles && h in c'.handles && c'.handles == c.handles[h := c'.handles[h]]
    requires SameType(c.handles[h], c'.handles[h])
    ensures SameObjects(c, c')
  {
  }

  lemma UpdatedAgain<V>(m: map<Hid, V>, h: Hid, x: V, y: V)
    ensures m[h := x][h := y] == m[h := y]
  {
  }

  lemma NotUpdated<V>(m: map<Hid, V>, h: Hid, x: V, g: Hid)
    requires g in m && g != h
    ensures m[h := x][g := m[h := x][g]] == m[h := x] && m[h := x][g] == m[g]
  {
  }

  lemma ObjectsKeepTypes(c: Conn, c': Conn)
    requires SameObjects(c, c')
    ensures c'.handles.Keys == c.handles.Keys && forall h | h in c.handles :: SameType(c.handles[h], c'.handles[h])
  {
  }

  lemma OthersKeepTypes(c: Conn, c': Conn, h: Hid)
    requires h in c.handles && h in c'.handles && c'.handles == c.handles[h := c'.handles[h]]
    ensures forall g | g in c.handles && g != h :: SameType(c.handles[g], c'.handles[g])
  {
  }

  lemma EnumeratedOf(c: Conn, c': Conn, k: nat)
    requires Good(c) && k < |c.list| && AllKnown(c, c.list)
    requires Good(c') && Closed(c') && c'.transaction == c.transaction && c'.handles.Keys == c.handles.Keys
      && SameTypes(c, c')
    requires AllKnown(c', c'.list) && Part(c, c', k) && c.list[k] in c'.handles
    requires c'.handles[c.list[k]].Enumerator? && (c'.handles[c.list[k]].conn ==> c'.handles[c.list[k]].headerDone)
    ensures Enumerated(c, c', k)
  {
    hide Good, Closed, Part;
  }

  lemma EnumeratedAfterForced(c: Conn, c1: Conn, c2: Conn, k: nat, k1: nat)
    requires Good(c) && k < |c.list| && Forced(c, c1, k)
    requires Good(c1) && k1 < |c1.list| && |c1.list| - k1 == |c.list| - k && Enumerated(c1, c2, k1)
    ensures Enumerated(c, c2, k)
  {
    hide *;
    NextInLine(c, c1, k);
    ForcedParts(c, c1, k);
    EnumeratedParts(c1, c2, k1);
    TypesChain(c, c1, c2);
    ReadThenPart(c, c1, c2, k, k1);
    EnumeratedOf(c, c2, k);
  }

  lemma EnumeratedTwice(c: Conn, c1: Conn, c2: Conn, k: nat, k1: nat)
    requires Good(c) && k < |c.list| && Enumerated(c, c1, k)
    requires Good(c1) && k1 < |c1.list| && |c1.list| - k1 == |c.list| - k && c1.list[k1] == c.list[k]
      && Enumerated(c1, c2, k1)
    ensures Enumerated(c, c2, k)
  {
    hide *;
    EnumeratedParts(c, c1, k);
    EnumeratedParts(c1, c2, k1);
    TypesChain(c, c1, c2);
    PartThenPart(c, c1, c2, k, k1);
    EnumeratedOf(c, c2, k);
  }

  lemma PartPlace(c: Conn, c': Conn, k: nat)
    requires AllKnown(c, c.list) && AllKnown(c', c'.list) && k < |c.list| && Part(c, c', k)
    requires c'.handles[c.list[k]].conn
    ensures var k' := |c'.list| - (|c.list| - k);
            0 <= k' < |c'.list| && k' <= k && c'.list[k'] == c.list[k]
  {
  }

  /** The place of an enumerator that goes on. */
  lemma EnumeratorStays(c: Conn, c': Conn, k: nat)
    requires Good(c) && k < |c.list| && Enumerated(c, c', k) && c.list[k] in c'.handles && c'.handles[c.list[k]].conn
    ensures var k' := |c'.list| - (|c.list| - k);
            0 <= k' < |c'.list| && k' <= k && c'.list[k'] == c.list[k] && IndexOf(c'.list, c.list[k]) == k'
  {
    hide *;
    EnumeratedParts(c, c', k);
    PartPlace(c, c', k);
    UnlinkedAt(c', |c'.list| - (|c.list| - k));
  }

  lemma EnumeratorGoesOn(c: Conn, c': Conn, k: nat) returns (k': nat)
    requires Good(c) && k < |c.list| && Enumerated(c, c', k) && c.list[k] in c'.handles && c'.handles[c.list[k]].conn
    ensures k' < |c'.list| && k' <= k && |c'.list| - k' == |c.list| - k && c'.list[k'] == c.list[k]
    ensures IndexOf(c'.list, c.list[k]) == k' && Closed(c') && c.list[k] in c'.list
  {
    hide *;
    EnumeratorStays(c, c', k);
    EnumeratedParts(c, c', k);
    k' := |c'.list| - (|c.list| - k);
  }

  function Rest(items: seq<Option<Str>>): (r: seq<Option<Str>>)
    ensures |r| <= |items| && (items != [] ==> |r| < |items|)
  {
    if items == [] then [] else items[1..]
  }

  /** Elements already put aside, the one in hand, and those to come make up the reply. */
  predicate Shown(aside: seq<Option<Str>>, inHand: Option<Option<Str>>, rest: seq<Option<Str>>,
        items: seq<Option<Str>>) {
    aside + (if inHand.Some? then [inHand.value] else []) + rest == items && (inHand == None ==> rest == [])
  }

  lemma FirstShown(items: seq<Option<Str>>, next: Option<Option<Str>>)
    requires if items == [] then next == None else next == Some(items[0])
    ensures Shown([], next, Rest(items), items) && (items != [] ==> Rest(items) == items[1..])
    ensures items == [] ==> Rest(items) == []
  {
  }

  lemma NextShown(aside: seq<Option<Str>>, item: Option<Str>, rest: seq<Option<Str>>, items: seq<Option<Str>>,
        next: Option<Option<Str>>)
    requires aside != [] && Shown(aside[..|aside| - 1], Some(item), rest, items) && aside[|aside| - 1] == item
    requires if rest == [] then next == None else next == Some(rest[0])
    ensures Shown(aside, next, Rest(rest), items) && (rest != [] ==> Rest(rest) == rest[1..])
      && (rest == [] ==> Rest(rest) == [])
  {
    assert aside == aside[..|aside| - 1] + [item];
  }

  lemma AllShown(aside: seq<Option<Str>>, rest: seq<Option<Str>>, items: seq<Option<Str>>)
    requires Shown(aside, None, rest, items)
    ensures aside == items && rest == []
  {
  }

  // ---------------------------------------------------------------- handles off the list

  lemma ConnectedIsListed(c: Conn, h: Hid)
    requires Good(c) && h in c.handles && c.handles[h].conn
    ensures h in c.list
  {
  }

  /** Only an enumerator that has been read to its end keeps elements of its own. */
  lemma PendingIsLoose(c: Conn, h: Hid)
    requires Good(c) && h in c.handles && c.handles[h].Enumerator? && c.handles[h].pending != []
    ensures var pending := c.handles[h].pending;
            var c' := c.(handles := c.handles[h := c.handles[h].(pending := pending[1..])]);
            && !c.handles[h].conn && View(c, h) == Items(pending) && Good(c') && (Closed(c) ==> Closed(c'))
            && Views(c') == Views(c)[h := Items(pending[1..])]
  {
    assert Sound(c.handles[h], c.owed[h]);
    LooseChange(c, h, c.handles[h].pending[1..]);
  }

  lemma LooseSimple(c: Conn, h: Hid)
    requires Good(c) && h in c.handles && c.handles[h].Simple? && !c.handles[h].conn
    ensures h in c.owed && View(c, h) == c.handles[h].stored && h !in c.list
  {
  }

  lemma LooseView(c: Conn, h: Hid)
    requires Good(c) && h in c.handles && c.handles[h].Enumerator? && !c.handles[h].conn
    ensures View(c, h) == Items(c.handles[h].pending)
  {
    assert c.handles[h].pending + [] == c.handles[h].pending;
  }

  lemma LooseChange(c: Conn, h: Hid, pending: seq<Option<Str>>)
    requires Good(c) && h in c.handles && c.handles[h].Enumerator? && !c.handles[h].conn
    ensures var c' := c.(handles := c.handles[h := c.handles[h].(pending := pending)]);
            && Good(c') && (Closed(c) ==> Closed(c')) && Views(c') == Views(c)[h := Items(pending)]
  {
    hide *;
    var c' := c.(handles := c.handles[h := c.handles[h].(pending := pending)]);
    GoodKnown(c);
    LooseIsUnlisted(c, h);
    LooseWired(c, h, pending);
    LooseAligned(c, c');
    LooseViews(c, h, pending);
  }

  lemma LooseKeepsOpen(c: Conn, c': Conn, h: Hid)
    requires h in c.handles && h in c'.handles && c'.handles == c.handles[h := c'.handles[h]]
    requires !c.handles[h].QueuedReply? && !c'.handles[h].QueuedReply?
    ensures Closed(c') <==> Closed(c)
  {
    if Closed(c') {
      forall g | g in c.handles ensures !IsOpen(c.handles[g]) {
        assert g != h ==> !IsOpen(c'.handles[g]);
      }
    }
  }

  lemma LooseWired(c: Conn, h: Hid, pending: seq<Option<Str>>)
    requires Wired(c) && h in c.handles && c.handles[h].Enumerator? && !c.handles[h].conn && h !in c.list
    ensures var c' := c.(handles := c.handles[h := c.handles[h].(pending := pending)]);
            Wired(c') && (Closed(c) ==> Closed(c'))
  {
    hide InOrder;
  }

  lemma LooseAligned(c: Conn, c': Conn)
    requires Good(c) && Wired(c') && c'.list == c.list && c'.input == c.input && c'.owed == c.owed
    requires forall h | h in c.list && h in c.handles :: h in c'.handles && c'.handles[h] == c.handles[h]
    ensures Good(c')
  {
    FramesEqual(c, c.list, c', c'.list);
    hide Wired, Frames;
    var gap :| AlignedAt(c, gap);
    assert AlignedAt(c', gap);
  }

  lemma LooseViews(c: Conn, h: Hid, pending: seq<Option<Str>>)
    requires c.owed.Keys == c.handles.Keys && h in c.handles && c.handles[h].Enumerator? && !c.handles[h].conn
    ensures var c' := c.(handles := c.handles[h := c.handles[h].(pending := pending)]);
            c'.owed.Keys == c'.handles.Keys && Views(c') == Views(c)[h := Items(pending)]
  {
    assert pending + [] == pending;
  }

  lemma SameView(c: Conn, c': Conn, h: Hid)
    requires Known(c, h) && Known(c', h) && c.owed.Keys == c.handles.Keys && c'.owed.Keys == c'.handles.Keys
    requires Views(c') == Views(c)
    ensures View(c', h) == View(c, h)
  {
    assert Views(c)[h] == View(c, h) && Views(c')[h] == View(c', h);
  }

  lemma ViewOfUpdate(c: Conn, c': Conn, h: Hid, items: seq<Option<Str>>)
    requires Known(c', h) && c.owed.Keys == c.handles.Keys && Good(c')
    requires Views(c') == Views(c)[h := Items(items)] || (Views(c') == Views(c) && Known(c, h)
      && View(c, h) == Items(items))
    ensures View(c', h) == Items(items)
    ensures Known(c, h) ==> Views(c') == Views(c)[h := Items(items)]
  {
    assert Views(c')[h] == View(c', h);
  }

  lemma LooseIsEmpty(c: Conn, h: Hid)
    requires Good(c) && Known(c, h) && c.handles[h].Enumerator? && !c.handles[h].conn && View(c, h) == Items([])
    ensures c.handles[h].pending == []
  {
  }

  /** An enumerator read to its end, its elements put aside: nothing has changed for its client. */
  lemma EndedIsForced(c: Conn, c': Conn, k: nat, items: seq<Option<Str>>)
    requires Good(c) && k < |c.list| && Enumerated(c, c', k) && c.owed.Keys == c.handles.Keys && Known(c, c.list[k])
    requires c.list[k] in c.handles && c.list[k] in c'.handles && c.list[k] in c'.owed
      && c'.owed.Keys == c'.handles.Keys
    requires Known(c', c.list[k]) && c'.handles[c.list[k]].Enumerator? && !c'.handles[c.list[k]].conn && Good(c')
    requires Views(c') == Views(c)[c.list[k] := Items([])] && View(c, c.list[k]) == Items(items)
    ensures Forced(c, c'.(handles := c'.handles[c.list[k] := c'.handles[c.list[k]].(pending := items)]), k + 1)
  {
    hide *;
    var h := c.list[k];
    var c2 := c'.(handles := c'.handles[h := c'.handles[h].(pending := items)]);
    EnumeratedParts(c, c', k);
    LooseTypes(c', h, items);
    TypesChain(c, c', c2);
    PartIsRead(c, c', k);
    LooseChange(c', h, items);
    ViewIs(c, h);
    GoodKnown(c2);
    LooseIsUnlisted(c', h);
    PartLength(c, c', k);
    ReadLoose(c, c', c2, k, h);
    ForcedOf(c, c2, k + 1);
  }

  lemma LooseTypes(c: Conn, h: Hid, pending: seq<Option<Str>>)
    requires h in c.handles && c.handles[h].Enumerator?
    ensures SameTypes(c, c.(handles := c.handles[h := c.handles[h].(pending := pending)]))
  {
  }

  lemma PartLength(c: Conn, c': Conn, k: nat)
    requires AllKnown(c, c.list) && AllKnown(c', c'.list) && k < |c.list| && Part(c, c', k)
    ensures |c.list| - (k + 1) <= |c'.list| <= |c.list|
  {
  }

  lemma LooseIsUnlisted(c: Conn, h: Hid)
    requires Good(c) && h in c.handles && c.handles[h].Enumerator? && !c.handles[h].conn
    ensures h !in c.list && Wired(c)
  {
  }

  lemma ReadLoose(c: Conn, c': Conn, c2: Conn, k: nat, h: Hid)
    requires AllKnown(c, c.list) && AllKnown(c', c'.list) && AllKnown(c2, c2.list) && k < |c.list| && c.list[k] == h
    requires |c.list| - (k + 1) <= |c'.list| && Read(c, c', k + 1) && h !in c'.list
    requires c2.list == c'.list && c2.owed == c'.owed
    requires forall g | g in c'.handles && g != h :: g in c2.handles && c2.handles[g] == c'.handles[g]
    ensures Read(c, c2, k + 1)
  {
    var k' := |c'.list| - (|c.list| - (k + 1));
    assert forall j | 0 <= j < |c.list[k + 1..]| :: c.list[k + 1..][j] == c'.list[k'..][j] == c'.list[k' + j];
  }

  lemma ForcedOf(c: Conn, c': Conn, k: nat)
    requires Good(c) && k <= |c.list| && Good(c') && Closed(c') && c'.transaction == c.transaction && SameTypes(c, c')
    requires AllKnown(c, c.list) && AllKnown(c', c'.list) && c.owed.Keys == c.handles.Keys
      && c'.owed.Keys == c'.handles.Keys
    requires |c.list| - k <= |c'.list| <= |c.list| && Read(c, c', k) && Views(c') == Views(c)
    ensures Forced(c, c', k)
  {
    hide Good, Closed, Views, Read;
  }

  // ---------------------------------------------------------------- the loop of readResult

  /** Where the loop stands: `aside` is put aside, `inHand` just read, `rest` still to come. */
  ghost predicate Draining(c: Conn, c': Conn, k: nat, aside: seq<Option<Str>>, inHand: Option<Option<Str>>,
        rest: seq<Option<Str>>)
    requires Good(c) && k < |c.list| && c.owed.Keys == c.handles.Keys && Known(c, c.list[k])
      && View(c, c.list[k]).Items?
  {
    var h := c.list[k];
    && Enumerated(c, c', k) && Good(c') && c'.owed.Keys == c'.handles.Keys && Known(c', h) && c'.handles[h].Enumerator?
    && c'.handles[h].conn == inHand.Some? && Shown(aside, inHand, rest, View(c, h).items)
    && Views(c') == Views(c)[h := Items(rest)] && View(c', h) == Items(rest)
  }

  /** What nextOptional promises, between the states before and after it. */
  ghost predicate Gives(c: Conn, c': Conn, h: Hid, next: Option<Option<Str>>)
    requires c.owed.Keys == c.handles.Keys && Known(c, h) && View(c, h).Items?
  {
    && Good(c') && c'.owed.Keys == c'.handles.Keys && Known(c', h) && c'.handles[h].Enumerator?
    && c'.handles[h].conn == next.Some?
    && var items := View(c, h).items;
       if items == [] then next == None && Views(c') == Views(c)
       else next == Some(items[0]) && Views(c') == Views(c)[h := Items(items[1..])]
  }

  lemma DrainingStarts(c: Conn, c': Conn, k: nat, next: Option<Option<Str>>)
    requires Good(c) && k < |c.list| && c.owed.Keys == c.handles.Keys && Known(c, c.list[k])
      && View(c, c.list[k]).Items?
    requires Enumerated(c, c', k) && Gives(c, c', c.list[k], next)
    ensures Draining(c, c', k, [], next, Rest(View(c, c.list[k]).items))
  {
    hide Good, Enumerated, Views, View, Shown, Rest;
    var items := View(c, c.list[k]).items;
    FirstShown(items, next);
    ViewOfUpdate(c, c', c.list[k], Rest(items));
  }

  lemma DrainingGoesOn(c: Conn, c1: Conn, c2: Conn, k: nat, k1: nat, aside: seq<Option<Str>>, item: Option<Str>,
                       rest: seq<Option<Str>>, next: Option<Option<Str>>)
    requires Good(c) && k < |c.list| && c.owed.Keys == c.handles.Keys && Known(c, c.list[k])
      && View(c, c.list[k]).Items?
    requires Draining(c, c1, k, aside, Some(item), rest)
    requires k1 < |c1.list| && |c1.list| - k1 == |c.list| - k && c1.list[k1] == c.list[k]
    requires Good(c1) && Enumerated(c1, c2, k1)
    requires c1.owed.Keys == c1.handles.Keys && Known(c1, c.list[k]) && View(c1, c.list[k]).Items?
      && Gives(c1, c2, c.list[k], next)
    ensures Draining(c, c2, k, aside + [item], next, Rest(rest)) && (next.Some? ==> |Rest(rest)| < |rest|)
  {
    hide Good, Enumerated, Views, View, Shown, Rest;
    EnumeratedTwice(c, c1, c2, k, k1);
    assert (aside + [item])[..|aside|] == aside;
    NextShown(aside + [item], item, rest, View(c, c.list[k]).items, next);
    ViewOfUpdate(c1, c2, c.list[k], Rest(rest));
  }

  lemma DrainingPlace(c: Conn, c': Conn, k: nat, aside: seq<Option<Str>>, item: Option<Str>,
        rest: seq<Option<Str>>) returns (k': nat)
    requires Good(c) && k < |c.list| && c.owed.Keys == c.handles.Keys && Known(c, c.list[k])
      && View(c, c.list[k]).Items?
    requires Draining(c, c', k, aside, Some(item), rest)
    ensures Good(c') && Closed(c') && c'.owed.Keys == c'.handles.Keys && Known(c', c.list[k])
    ensures c'.handles[c.list[k]].Enumerator? && c'.handles[c.list[k]].conn && View(c', c.list[k]).Items?
    ensures k' < |c'.list| && k' <= k && |c'.list| - k' == |c.list| - k && c'.list[k'] == c.list[k]
    ensures IndexOf(c'.list, c.list[k]) == k'
  {
    hide Good, Enumerated, Views, View, Shown, Closed;
    k' := EnumeratorGoesOn(c, c', k);
  }

  /** The loop has ended: with the elements in pending, the client has lost nothing. */
  lemma DrainingEnds(c: Conn, c': Conn, k: nat, aside: seq<Option<Str>>, rest: seq<Option<Str>>)
    requires Good(c) && k < |c.list| && c.owed.Keys == c.handles.Keys && Known(c, c.list[k])
      && View(c, c.list[k]).Items?
    requires Draining(c, c', k, aside, None, rest)
    ensures Good(c') && Known(c', c.list[k]) && c'.handles[c.list[k]].Enumerator? && c'.handles[c.list[k]].pending == []
    ensures Forced(c, c'.(handles := c'.handles[c.list[k] := c'.handles[c.list[k]].(pending := aside)]), k + 1)
  {
    hide Good, Enumerated, Views, View, Forced, Shown;
    AllShown(aside, rest, View(c, c.list[k]).items);
    EndedIsForced(c, c', k, aside);
    LooseIsEmpty(c', c.list[k]);
  }
}
