/**
 Whole sessions of a client: whatever commands it issues, in and out of transactions, and in whatever
 order it then forces, reads, copies, assigns and destroys their handles, it is told what a client is
 told for whom every reply is there at once.
 */
module RedisSession {
  import opened Bytes
  import opened RedisWire
  import opened RedisPipeline
  import opened RedisHandles
  import opened RedisTransactions
  import opened RedisWaiting
  import opened RedisConnection
  import opened RedisClient

  // ---------------------------------------------------------------- how the connection stands to the client

  predicate KindOf(h: Handle, kind: Kind) {
    if kind == MultiBulk then h.Enumerator? else h.Simple? && h.kind == kind
  }

  /** The connection's handles have to tell what the client's have. */
  ghost predicate Tells(c: Conn, k: Client) {
    && c.owed.Keys == c.handles.Keys == k.used && k.views.Keys == k.kinds.Keys <= k.used
    && forall h | h in k.views :: h in c.handles && KindOf(c.handles[h], k.kinds[h]) && Views(c)[h] == k.views[h]
  }

  /** The enumerator under way: its header has been read, and without its connection it is at its end. */
  predicate IsReading(c: Conn, k: Client, h: Hid) {
    && h in k.views && h in k.kinds && k.kinds[h] == MultiBulk && h in c.handles && c.handles[h].Enumerator?
    && (if c.handles[h].conn then c.handles[h].headerDone else k.views[h] == Items([]))
  }

  ghost predicate Reads(c: Conn, k: Client) {
    && (forall g: Hid :: IsStarted(c, g) ==> k.reading == Some(g))
    && (k.reading.Some? ==> IsReading(c, k, k.reading.value))
  }

  predicate Deals(c: Conn, k: Client) {
    match k.deal
    case NoDeal => c.transaction == None
    case Open(q) => c.transaction == Some(q) && q !in k.views && InTransaction(c)
    case Over(q) => c.transaction == Some(q) && q !in k.views && !InTransaction(c)
  }

  ghost predicate Serves(c: Conn, k: Client) {
    Good(c) && Tells(c, k) && Waits(c, k.waiting, k.replies) && Reads(c, k) && Deals(c, k)
  }

  // ---------------------------------------------------------------- what this says of one handle

  lemma ServedView(c: Conn, k: Client, h: Hid)
    requires Tells(c, k) && Owns(k, h)
    ensures Known(c, h) && h in c.handles && h in c.owed && View(c, h) == k.views[h] && KindOf(c.handles[h], k.kinds[h])
    ensures !c.handles[h].QueuedReply?
  {
    ViewAt(c, h);
  }

  lemma ServedOpen(c: Conn, k: Client)
    requires Serves(c, k)
    ensures Closed(c) <==> !k.deal.Open?
  {
    OpenIsTransaction(c);
    hide Good, Tells, Waits, Reads, Closed;
  }

  /** In an open transaction only its own handles have a reply to come. */
  lemma OpenDrained(c: Conn, h: Hid)
    requires Good(c) && InTransaction(c) && h in c.handles && !c.handles[h].QueuedReply? && !IsFresh(c, h)
    ensures Drained(c.handles[h])
  {
    if c.handles[h].conn {
      var q := c.transaction.value;
      var j, k := IndexOf(c.list, h), IndexOf(c.list, q);
      assert j < k ==> InOrder(c.handles[c.list[j]], c.handles[c.list[k]]);
      assert k < j ==> InOrder(c.handles[c.list[k]], c.handles[c.list[j]]);
    }
  }

  /** A handle the client may read. */
  lemma ServedHandle(c: Conn, k: Client, h: Hid)
    requires Serves(c, k) && Owns(k, h)
    ensures Known(c, h) && h in c.handles && KindOf(c.handles[h], k.kinds[h]) && View(c, h) == k.views[h]
    ensures h in k.waiting <==> IsFresh(c, h)
    ensures MayRead(k, h) ==> Closed(c) || Drained(c.handles[h])
  {
    hide *;
    ServesParts(c, k);
    ServedView(c, k, h);
    ServedOpen(c, k);
    WaitsFacts(c, k.waiting, k.replies);
    WaitingIn(c, h);
    if k.deal.Open? && !IsFresh(c, h) {
      DealIsOpen(c, k);
      OpenDrained(c, h);
    }
    MayReadIs(k, h);
  }

  lemma ServesParts(c: Conn, k: Client)
    requires Serves(c, k)
    ensures Good(c) && Tells(c, k) && Waits(c, k.waiting, k.replies) && Reads(c, k) && Deals(c, k)
  {
    hide Good, Tells, Waits, Reads, Deals;
  }

  lemma MayReadIs(k: Client, h: Hid)
    ensures MayRead(k, h) <==> (k.deal.Open? ==> h !in k.waiting)
  {
  }

  lemma DealIsOpen(c: Conn, k: Client)
    requires Deals(c, k) && k.deal.Open?
    ensures InTransaction(c)
  {
  }

  /**
   An enumerator that is not waited for has had its header read, and tells nothing more unless it is the
   one under way.
   */
  lemma ServedEnumerator(c: Conn, k: Client, h: Hid)
    requires Serves(c, k) && Owns(k, h) && k.kinds[h] == MultiBulk && h !in k.waiting
    ensures h in c.handles && c.handles[h].Enumerator? && (c.handles[h].conn ==> c.handles[h].headerDone)
    ensures c.handles[h].conn && k.reading != Some(h) ==> k.views[h] == Items([])
    ensures c.handles[h].conn ==> c.handles[h].count == |k.views[h].items|
  {
    ServedHandle(c, k, h);
    Freshness(c, h);
    UnreadFrame(c, h);
    hide Good, Tells, Waits, Deals;
    assert IsStarted(c, h) ==> k.reading == Some(h);
  }

  // ---------------------------------------------------------------- the parts after a call

  lemma WaitsAs(c: Conn, c': Conn, k: Client, w: seq<Hid>)
    requires Waits(c, k.waiting, k.replies) && Waits(c', w, c.owed) && forall h | h in w :: h in k.waiting
    ensures Waits(c', w, k.replies)
  {
    hide Waiting;
  }

  lemma BehindIn(w: seq<Hid>, h: Hid)
    ensures forall g | g in Behind(w, h) :: g in w
  {
  }

  lemma SameDeal(c: Conn, c': Conn, k: Client, k': Client)
    requires Good(c) && Good(c') && Deals(c, k) && c'.transaction == c.transaction && (Closed(c') <==> Closed(c))
    requires k'.deal == k.deal && (k.deal.NoDeal? || k.deal.q !in k'.views)
    ensures Deals(c', k')
  {
    OpenIsTransaction(c);
    OpenIsTransaction(c');
    hide Good, Closed, InTransaction;
  }

  lemma DealNotOwned(c: Conn, k: Client)
    requires Deals(c, k)
    ensures k.deal.NoDeal? || (c.transaction == Some(k.deal.q) && k.deal.q !in k.views)
  {
  }

  // ---------------------------------------------------------------- commands

  lemma CommandTells(c: Conn, c': Conn, k: Client, call: Call)
    requires Tells(c, k) && Legal(k, call) && call.Command? && c'.owed.Keys == c'.handles.Keys
    requires c'.handles.Keys == c.handles.Keys + {call.h} && SameTypes(c, c')
    requires c'.handles[call.h] == NewHandle(call.kind)
      && Views(c') == Views(c)[call.h := AnswerOf(call.kind, call.reply)]
    ensures Tells(c', After(k, call))
  {
    hide Views, AnswerOf, WellTyped, Fits;
  }

  lemma CommandServes(c: Conn, c': Conn, k: Client, call: Call)
    requires Serves(c, k) && Legal(k, call) && call.Command? && Good(c') && c'.owed.Keys == c'.handles.Keys
    requires c'.handles.Keys == c.handles.Keys + {call.h} && SameTypes(c, c') && c'.transaction == c.transaction
    requires c'.handles[call.h] == NewHandle(call.kind)
      && Views(c') == Views(c)[call.h := AnswerOf(call.kind, call.reply)]
    requires Closed(c') <==> Closed(c)
    requires Waits(c', Waiting(c) + [call.h], c.owed[call.h := call.reply])
    requires forall g: Hid :: IsStarted(c', g) ==> IsStarted(c, g)
    requires forall g | g in c.handles && !c.handles[g].QueuedReply? :: c'.handles[g] == c.handles[g]
    ensures Serves(c', After(k, call))
  {
    hide *;
    ServesParts(c, k);
    CommandTells(c, c', k, call);
    CommandWaits(c, c', k, call);
    CommandReads(c, c', k, call);
    DealNotOwned(c, k);
    CommandClient(c, k, call);
    SameDeal(c, c', k, After(k, call));
    ServesIf(c', After(k, call));
  }

  lemma CommandClient(c: Conn, k: Client, call: Call)
    requires Legal(k, call) && call.Command? && Tells(c, k) && Good(c) && Deals(c, k)
    ensures var k' := After(k, call);
            k'.deal == k.deal && (k.deal.NoDeal? || k.deal.q !in k'.views)
  {
    hide WellTyped, Fits, AnswerOf;
  }

  lemma CommandWaits(c: Conn, c': Conn, k: Client, call: Call)
    requires Legal(k, call) && call.Command? && Waits(c, k.waiting, k.replies)
    requires Waits(c', Waiting(c) + [call.h], c.owed[call.h := call.reply])
    ensures Waits(c', After(k, call).waiting, After(k, call).replies)
  {
    hide Waiting, WellTyped, Fits, AnswerOf;
  }

  lemma CommandReads(c: Conn, c': Conn, k: Client, call: Call)
    requires Legal(k, call) && call.Command? && Tells(c, k) && Reads(c, k)
    requires forall g: Hid :: IsStarted(c', g) ==> IsStarted(c, g)
    requires forall g | g in c.handles && !c.handles[g].QueuedReply? :: g in c'.handles && c'.handles[g] == c.handles[g]
    ensures Reads(c', After(k, call))
  {
    hide Views, WellTyped, Fits, AnswerOf, IsStarted;
  }

  lemma ServesIf(c: Conn, k: Client)
    requires Good(c) && Tells(c, k) && Waits(c, k.waiting, k.replies) && Reads(c, k) && Deals(c, k)
    ensures Serves(c, k)
  {
    hide Good, Tells, Waits, Reads, Deals;
  }

  // ---------------------------------------------------------------- forcing and reading

  lemma ReachedWaits(c: Conn, c': Conn, k: Client, h: Hid)
    requires Waits(c, k.waiting, k.replies) && Waits(c', Behind(Waiting(c), h), c.owed)
    ensures Waits(c', Behind(k.waiting, h), k.replies)
  {
    hide *;
    WaitsFacts(c, k.waiting, k.replies);
    BehindIn(k.waiting, h);
    WaitsAs(c, c', k, Behind(k.waiting, h));
  }

  lemma ReachedIs(k: Client, h: Hid, reading: Option<Hid>)
    ensures var k' := Reached(k, h, reading);
            && k' == k.(waiting := k'.waiting, reading := k'.reading) && k'.waiting == Behind(k.waiting, h)
            && k'.reading == (if h in k.waiting then reading else k.reading)
  {
  }

  lemma ForcedReads(c: Conn, c': Conn, k: Client, k': Client, h: Hid)
    requires Reads(c, k) && Waiting(c) == k.waiting && Starts(c, c', h) && h in c'.handles && c'.handles[h].Simple?
    requires h !in k.waiting ==> c'.handles == c.handles
    requires k'.reading == if h in k.waiting then None else k.reading
    requires k'.views == k.views && k'.kinds == k.kinds
    ensures Reads(c', k')
  {
    hide Waiting;
    assert !IsStarted(c', h);
    if h in k.waiting {
      hide IsStarted;
    } else {
      forall g: Hid ensures IsStarted(c', g) == IsStarted(c, g) {
      }
    }
  }

  lemma KeptTells(c: Conn, c': Conn, k: Client, k': Client)
    requires Tells(c, k) && SameObjects(c, c') && c'.owed.Keys == c'.handles.Keys && Views(c') == Views(c)
    requires k'.views == k.views && k'.kinds == k.kinds && k'.used == k.used
    ensures Tells(c', k')
  {
    hide Views;
  }

  lemma ForceServes(c: Conn, c': Conn, k: Client, h: Hid)
    requires Serves(c, k) && Legal(k, Force(h)) && Good(c') && c'.owed.Keys == c'.handles.Keys
    requires SameObjects(c, c') && Views(c') == Views(c) && c'.transaction == c.transaction
      && (Closed(c') <==> Closed(c))
    requires Waits(c', Behind(Waiting(c), h), c.owed) && Starts(c, c', h) && h in c'.handles && c'.handles[h].Simple?
    requires h !in k.waiting ==> c'.handles == c.handles
    ensures Serves(c', After(k, Force(h)))
  {
    hide *;
    var k' := After(k, Force(h));
    ServesParts(c, k);
    ForceIs(k, h);
    ReachedIs(k, h, None);
    WaitsFacts(c, k.waiting, k.replies);
    ReachedWaits(c, c', k, h);
    ForcedReads(c, c', k, k', h);
    KeptTells(c, c', k, k');
    DealNotOwned(c, k);
    SameDeal(c, c', k, k');
    ServesIf(c', k');
  }

  lemma ForceIs(k: Client, h: Hid)
    requires Legal(k, Force(h))
    ensures After(k, Force(h)) == Reached(k, h, None) && Told(k, Force(h)) == Gave(k.views[h])
  {
    hide Reached;
  }

  lemma NextIs(k: Client, h: Hid)
    requires Legal(k, NextOf(h))
    ensures Owns(k, h) && h in k.views && k.views[h].Items? && MayRead(k, h) && h in k.kinds && k.kinds[h] == MultiBulk
    ensures var items := k.views[h].items;
            && After(k, NextOf(h)) == Reached(k, h,
               Some(h)).(views := if items == [] then k.views else k.views[h := Items(items[1..])])
            && Told(k, NextOf(h)) == (if items == [] then Gave(Items([])) else Gave(Text(items[0])))
  {
    hide Reached;
  }

  lemma NextTells(c: Conn, c': Conn, k: Client, k': Client, h: Hid)
    requires Tells(c, k) && Owns(k, h) && k.views[h].Items? && SameObjects(c, c') && c'.owed.Keys == c'.handles.Keys
    requires var items := k.views[h].items;
             && Views(c') == (if items == [] then Views(c) else Views(c)[h := Items(items[1..])])
             && k'.views == (if items == [] then k.views else k.views[h := Items(items[1..])])
    requires k'.kinds == k.kinds && k'.used == k.used
    ensures Tells(c', k')
  {
    hide Views;
  }

  lemma NextReads(c: Conn, c': Conn, k: Client, k': Client, h: Hid)
    requires Reads(c, k) && Waiting(c) == k.waiting && Starts(c, c', h) && h in c.handles && h in c'.handles
    requires c.handles[h].Enumerator? && c'.handles[h].Enumerator? && h in k.views && h in k.kinds
      && k.kinds[h] == MultiBulk
    requires k.views[h].Items? && (h in k.waiting <==> IsFresh(c, h))
    requires var items := k.views[h].items;
             && k'.views == (if items == [] then k.views else k.views[h := Items(items[1..])])
             && c'.handles[h].conn == (c.handles[h].conn && items != [])
             && (c.handles[h].conn && c.handles[h].headerDone ==> c.handles[h].count == |items|)
    requires c'.handles[h].conn ==> c'.handles[h].headerDone
    requires h !in k.waiting ==> c'.handles == c.handles[h := c'.handles[h]]
    requires k'.reading == (if h in k.waiting then Some(h) else k.reading) && k'.kinds == k.kinds
    ensures Reads(c', k')
  {
    Freshness(c, h);
    hide Waiting, IsFresh;
    forall g: Hid | IsStarted(c', g) ensures k'.reading == Some(g) {
      if g == h {
        assert h !in k.waiting ==> IsStarted(c, h);
      } else {
        assert IsStarted(c, g) && h !in k.waiting;
      }
    }
  }

  lemma NextServes(c: Conn, c': Conn, k: Client, h: Hid)
    requires Serves(c, k) && Legal(k, NextOf(h)) && Good(c') && c'.owed.Keys == c'.handles.Keys
    requires SameObjects(c, c') && c'.transaction == c.transaction && (Closed(c') <==> Closed(c))
    requires Waits(c', Behind(Waiting(c), h), c.owed) && Starts(c, c', h) && h in c.handles && h in c'.handles
    requires c.handles[h].Enumerator? && c'.handles[h].Enumerator? && k.views[h].Items?
    requires var items := k.views[h].items;
             && Views(c') == (if items == [] then Views(c) else Views(c)[h := Items(items[1..])])
             && c'.handles[h].conn == (c.handles[h].conn && items != [])
    requires c'.handles[h].conn ==> c'.handles[h].headerDone
    requires h !in k.waiting ==> c'.handles == c.handles[h := c'.handles[h]]
    ensures Serves(c', After(k, NextOf(h)))
  {
    hide *;
    var k' := After(k, NextOf(h));
    ServesParts(c, k);
    NextIs(k, h);
    ReachedIs(k, h, Some(h));
    WaitsFacts(c, k.waiting, k.replies);
    ReachedWaits(c, c', k, h);
    NextTells(c, c', k, k', h);
    ServedHandle(c, k, h);
    UnreadFrame(c, h);
    NextReads(c, c', k, k', h);
    DealNotOwned(c, k);
    SameDeal(c, c', k, k');
    ServesIf(c', k');
  }

  // ---------------------------------------------------------------- copies and assignments

  lemma BehindWithout(w: seq<Hid>, h: Hid)
    requires Distinct(w)
    ensures h !in Behind(w, h)
  {
  }

  lemma WaitingDistinct(c: Conn)
    requires Good(c)
    ensures Distinct(Waiting(c))
  {
    hide *;
    GoodDistinct(c);
    WaitingIs(c);
    FreshIsDistinct(c, c.list);
  }

  /** `h` waits for what `src` waited for, among `w`. */
  lemma MovedWaits(c: Conn, c': Conn, k: Client, w: seq<Hid>, h: Hid, src: Hid)
    requires Waits(c, k.waiting, k.replies) && h !in w && src in c.owed && forall g | g in w :: g in k.waiting
    requires Waits(c', Replaced(w, src, h), c.owed[h := c.owed[src]])
    ensures Waits(c', Replaced(w, src, h), if src in k.replies then k.replies[h := k.replies[src]] else k.replies)
  {
    hide *;
    var replies, owed := if src in k.replies then k.replies[h := k.replies[src]] else k.replies,
      c.owed[h := c.owed[src]];
    WaitsFacts(c, k.waiting, k.replies);
    WaitsFacts(c', Replaced(w, src, h), owed);
    forall g | g in Replaced(w, src, h) ensures g in replies && c'.owed[g] == replies[g] {
      if g == h {
        NewInReplaced(w, src, h);
      } else {
        InReplaced(w, src, h, g);
      }
    }
    WaitsBy(c', Replaced(w, src, h), replies);
  }

  lemma MovedIs(k: Client, h: Hid, src: Hid, taken: Answer, left: Answer)
    requires Owns(k, src)
    ensures MovedTo(k, Moved(k, h, src, taken, left), h, src, taken, left)
    ensures var k' := Moved(k, h, src, taken, left);
            && k'.waiting == Replaced(k.waiting, src, h)
            && k'.replies == (if src in k.replies then k.replies[h := k.replies[src]] else k.replies)
  {
    hide Replaced;
  }

  /** What the client sees of a move. */
  predicate MovedTo(k: Client, k': Client, h: Hid, src: Hid, taken: Answer, left: Answer)
    requires Owns(k, src)
  {
    && k'.views == k.views[h := taken][src := left] && k'.kinds == k.kinds[h := k.kinds[src]]
    && k'.used == k.used + {h} && k'.deal == k.deal
    && k'.reading == if k.reading == Some(src) then Some(h) else if k.reading == Some(h) then None else k.reading
  }

  lemma MovedTells(c: Conn, c': Conn, k: Client, k': Client, h: Hid, src: Hid, taken: Answer, left: Answer)
    requires Tells(c, k) && Owns(k, src) && h != src && c'.owed.Keys == c'.handles.Keys == c.handles.Keys + {h}
    requires Views(c') == Views(c)[h := taken][src := left]
    requires forall g | g in c.handles && g != h :: SameType(c.handles[g], c'.handles[g])
    requires KindOf(c'.handles[h], k.kinds[src]) && MovedTo(k, k', h, src, taken, left)
    ensures Tells(c', k')
  {
    hide Views;
  }

  lemma MovedReads(c: Conn, c': Conn, k: Client, k': Client, h: Hid, src: Hid, taken: Answer, left: Answer)
    requires Reads(c, k) && StartsAs(c, c', h, src) && Owns(k, src) && h != src && src in c.handles && h in c'.handles
    requires forall g | g in c.handles && g != h && g != src :: g in c'.handles && c'.handles[g] == c.handles[g]
    requires c.handles[src].Enumerator? ==> c'.handles[h].Enumerator? && c'.handles[h].conn == c.handles[src].conn
                                            && c'.handles[h].headerDone == c.handles[src].headerDone
    requires MovedTo(k, k', h, src, taken, left) && (k.reading == Some(src) ==> taken == k.views[src])
    ensures Reads(c', k')
  {
    hide IsStarted;
  }

  lemma CopyServes(c: Conn, c': Conn, k: Client, h: Hid, src: Hid)
    requires Serves(c, k) && Legal(k, CopyOf(h, src)) && Good(c') && c'.owed.Keys == c'.handles.Keys
    requires src in c.handles && c'.handles == c.handles[h := c.handles[src]][src := MovedFrom(c.handles[src])]
    requires c'.transaction == c.transaction && (Closed(c') <==> Closed(c)) && src in c.owed
    requires Views(c') == Views(c)[h := k.views[src]][src := StoredOf(c.handles[src])]
    requires Waits(c', Replaced(Waiting(c), src, h), c.owed[h := c.owed[src]]) && StartsAs(c, c', h, src)
    ensures Serves(c', After(k, CopyOf(h, src)))
  {
    hide *;
    var k' := After(k, CopyOf(h, src));
    ServesParts(c, k);
    CopyIs(c, k, h, src);
    var taken := k.views[src];
    LeftIsStored(c, k, src);
    MovedIs(k, h, src, taken, Left(k, src));
    MovedDeal(c, k, k', h, src, taken, Left(k, src));
    ServedView(c, k, src);
    CopyTypes(c, c', h, src);
    MovedTells(c, c', k, k', h, src, taken, Left(k, src));
    WaitsFacts(c, k.waiting, k.replies);
    WaitingIn(c, h);
    FreshIsConnected(c, h);
    MovedWaits(c, c', k, k.waiting, h, src);
    MovedReads(c, c', k, k', h, src, taken, Left(k, src));
    DealNotOwned(c, k);
    SameDeal(c, c', k, k');
    ServesIf(c', k');
  }

  /** What a copy leaves its source to tell. */
  function StoredOf(h: Handle): Answer {
    match h
    case Simple(_, _, stored) => stored
    case _ => Items([])
  }

  lemma LeftIsStored(c: Conn, k: Client, src: Hid)
    requires Serves(c, k) && Owns(k, src)
    ensures src in c.handles && StoredOf(c.handles[src]) == Left(k, src)
  {
    ServedHandle(c, k, src);
    Freshness(c, src);
    if c.handles[src].Simple? {
      StoredOrDefault(c, src);
    }
    hide Good, Tells, Waits, Reads, Deals, IsFresh;
  }

  lemma CopyIs(c: Conn, k: Client, h: Hid, src: Hid)
    requires Legal(k, CopyOf(h, src)) && Tells(c, k)
    ensures Owns(k, src) && src in k.views && src in k.kinds && h != src && h !in c.handles && src in c.handles
    ensures After(k, CopyOf(h, src)) == Moved(k, h, src, k.views[src], Left(k, src)) && Told(k, CopyOf(h, src)) == Quiet
  {
    hide Moved, Views, Left;
  }

  lemma CopyTypes(c: Conn, c': Conn, h: Hid, src: Hid)
    requires src in c.handles && h != src && h !in c.handles
    requires c'.handles == c.handles[h := c.handles[src]][src := MovedFrom(c.handles[src])]
    ensures c'.handles.Keys == c.handles.Keys + {h} && c'.handles[h] == c.handles[src]
    ensures forall g | g in c.handles && g != h :: SameType(c.handles[g], c'.handles[g])
  {
  }

  lemma MovedDeal(c: Conn, k: Client, k': Client, h: Hid, src: Hid, taken: Answer, left: Answer)
    requires Good(c) && Deals(c, k) && Tells(c, k) && Owns(k, src) && (h in k.views || h !in c.handles)
    requires MovedTo(k, k', h, src, taken, left)
    ensures (k.deal.NoDeal? || k.deal.q !in k'.views) && k'.deal == k.deal
  {
  }

  // ---------------------------------------------------------------- assignments of simple handles

  lemma OverwriteIs(c: Conn, k: Client, call: Call)
    requires call.Overwrite? && Legal(k, call) && Tells(c, k)
    ensures var (h, src, k1) := (call.h, call.src, Reached(k, call.h, None));
            && Owns(k, h) && Owns(k, src) && h in k.views && src in k.views && h in k.kinds && src in k.kinds
            && k.kinds[h] == k.kinds[src] && MayRead(k, h) && h in c.handles && src in c.handles && h in k.used
            && Owns(k1, src) && k1.views == k.views && k1.kinds == k.kinds && k1.used == k.used && k1.deal == k.deal
            && k1.replies == k.replies
            && (!Throws(k, call) ==>
                  Told(k, call) == Quiet && After(k, call) == if h == src then k1 else Assigned(k1, h, src))
            && (k.kinds[h] == MultiBulk ==> k.views[h].Items? && k.views[src].Items? && h !in k.waiting && h != src)
  {
    hide Moved, Left, Assigned, Behind, Views;
  }

  lemma AssignedIs(k: Client, h: Hid, src: Hid)
    requires Owns(k, src)
    ensures if IsAside(k, src) then Assigned(k, h, src) == Moved(k, h, src, Items([]), k.views[src])
            else Assigned(k, h, src) == Moved(k, h, src, k.views[src], Left(k, src))
    ensures k.kinds[src] != MultiBulk ==> !IsAside(k, src)
    ensures Left(k, src) ==
            if k.kinds[src] == MultiBulk || src in k.waiting then Default(k.kinds[src]) else k.views[src]
  {
    hide Moved;
  }

  lemma SimpleDoesNotThrow(c: Conn, k: Client, call: Call)
    requires call.Overwrite? && Legal(k, call) && Reads(c, k) && k.kinds[call.h] != MultiBulk
    ensures !Throws(k, call) && k.reading != Some(call.h) && k.reading != Some(call.src)
  {
    hide IsStarted;
  }

  /** After finishing the old wait of `h`, the enumerator under way is as it was, or has been passed. */
  lemma SimpleReads(c: Conn, c': Conn, k: Client, k': Client, h: Hid, src: Hid, taken: Answer, left: Answer)
    requires Reads(c, k) && Waiting(c) == k.waiting && Starts(c, c', h) && h in c'.handles && c'.handles[h].Simple?
    requires Owns(k, src) && Owns(k, h) && k.reading != Some(h) && k.reading != Some(src)
    requires h !in k.waiting ==>
               forall g | g in c.handles && g != h && g != src :: g in c'.handles && c'.handles[g] == c.handles[g]
    requires k'.views == k.views[h := taken][src := left] && k'.kinds == k.kinds[h := k.kinds[src]]
    requires k'.reading == if h in k.waiting then None else k.reading
    ensures Reads(c', k')
  {
    hide Waiting;
    assert !IsStarted(c', h);
    hide IsStarted;
  }

  lemma OverwriteServes(c: Conn, c': Conn, k: Client, call: Call, left: Answer)
    requires call.Overwrite? && Serves(c, k) && Legal(k, call) && k.kinds[call.h] != MultiBulk && call.h != call.src
    requires Good(c') && c'.owed.Keys == c'.handles.Keys && SameObjects(c, c') && call.src in c.owed
    requires c'.transaction == c.transaction && (Closed(c') <==> Closed(c))
    requires Views(c') == Views(c)[call.h := k.views[call.src]][call.src := left]
    requires left == if call.src in Behind(Waiting(c), call.h) then Default(k.kinds[call.src]) else k.views[call.src]
    requires Waits(c', Replaced(Behind(Waiting(c), call.h), call.src, call.h), c.owed[call.h := c.owed[call.src]])
    requires Starts(c, c', call.h)
    requires call.h !in k.waiting ==>
               forall g | g in c.handles && g != call.h && g != call.src ::
                 g in c'.handles && c'.handles[g] == c.handles[g]
    ensures Serves(c', After(k, call)) && Told(k, call) == Quiet
  {
    hide *;
    var (h, src, k') := (call.h, call.src, After(k, call));
    ServesParts(c, k);
    OverwriteIs(c, k, call);
    SimpleDoesNotThrow(c, k, call);
    WaitsFacts(c, k.waiting, k.replies);
    var k1 := Reached(k, h, None);
    ReachedIs(k, h, None);
    AssignedIs(k1, h, src);
    MovedIs(k1, h, src, k.views[src], left);
    ReachedServes(c, k, k1);
    ObjectsKeepTypes(c, c');
    SameKindOf(c, c', k, h, src);
    MovedTells(c, c', k1, k', h, src, k.views[src], left);
    WaitingDistinct(c);
    BehindWithout(k.waiting, h);
    BehindIn(k.waiting, h);
    MovedWaits(c, c', k, Behind(k.waiting, h), h, src);
    MovedToIs(k1, k', h, src, k.views[src], left);
    SimpleReads(c, c', k, k', h, src, k.views[src], left);
    MovedDeal(c, k1, k', h, src, k.views[src], left);
    DealNotOwned(c, k);
    SameDeal(c, c', k, k');
    ServesIf(c', k');
  }

  lemma MovedToIs(k: Client, k': Client, h: Hid, src: Hid, taken: Answer, left: Answer)
    requires Owns(k, src) && MovedTo(k, k', h, src, taken, left)
    ensures k'.views == k.views[h := taken][src := left] && k'.kinds == k.kinds[h := k.kinds[src]]
    ensures k'.reading == if k.reading == Some(src) then Some(h) else if k.reading == Some(h) then None else k.reading
    ensures k'.deal == k.deal
  {
  }

  /** Reaching a handle changes nothing of what is to be told. */
  lemma ReachedServes(c: Conn, k: Client, k1: Client)
    requires Tells(c, k) && Deals(c, k) && k1.views == k.views && k1.kinds == k.kinds && k1.used == k.used
    requires k1.deal == k.deal
    ensures Tells(c, k1) && Deals(c, k1)
  {
    hide Views, InTransaction;
  }

  /** A handle assigned to itself is forced. */
  lemma SelfServes(c: Conn, c': Conn, k: Client, h: Hid)
    requires Serves(c, k) && Legal(k, Overwrite(h, h)) && k.kinds[h] != MultiBulk
    requires Good(c') && c'.owed.Keys == c'.handles.Keys && SameObjects(c, c')
    requires c'.transaction == c.transaction && (Closed(c') <==> Closed(c))
    requires Views(c') == Views(c)[h := k.views[h]]
    requires Waits(c', Behind(Waiting(c), h), c.owed) && Starts(c, c', h) && h in c'.handles && c'.handles[h].Simple?
    requires h !in k.waiting ==> c'.handles == c.handles
    ensures Serves(c', After(k, Overwrite(h, h))) && Told(k, Overwrite(h, h)) == Quiet
  {
    hide *;
    ServesParts(c, k);
    OverwriteIs(c, k, Overwrite(h, h));
    SimpleDoesNotThrow(c, k, Overwrite(h, h));
    SelfIs(k, h);
    ServedView(c, k, h);
    ViewIs(c, h);
    ForceServes(c, c', k, h);
  }

  lemma SelfAssigned(c: Conn, c': Conn, k: Client, h: Hid)
    requires Serves(c, k) && Legal(k, Overwrite(h, h)) && k.kinds[h] != MultiBulk && h in c.handles
    requires Good(c') && c'.owed.Keys == c'.handles.Keys && SameObjects(c, c')
    requires h in c'.handles && c'.handles[h].Simple?
    requires c'.transaction == c.transaction && (Closed(c') <==> Closed(c))
    requires Views(c') == Views(c)[h := k.views[h]][h := c'.handles[h].stored]
    requires c'.handles[h].stored == if h in Behind(Waiting(c), h) then Default(k.kinds[h]) else k.views[h]
    requires Waits(c', Behind(Waiting(c), h), c.owed) && Starts(c, c', h)
    requires !c.handles[h].conn ==> c' == c
    ensures Serves(c', After(k, Overwrite(h, h))) && Told(k, Overwrite(h, h)) == Quiet
  {
    hide *;
    ServesParts(c, k);
    SelfIs(k, h);
    GoodKnown(c);
    ServedHandle(c, k, h);
    SimpleKind(c.handles[h], k.kinds[h]);
    Freshness(c, h);
    WaitingDistinct(c);
    BehindWithout(Waiting(c), h);
    UpdatedAgain(Views(c), h, k.views[h], k.views[h]);
    SelfServes(c, c', k, h);
  }

  lemma SimpleKind(h: Handle, kind: Kind)
    requires KindOf(h, kind) && kind != MultiBulk
    ensures h.Simple?
  {
  }

  lemma SelfIs(k: Client, h: Hid)
    requires Legal(k, Overwrite(h, h)) && k.kinds[h] != MultiBulk
    ensures Owns(k, h) && h in k.views && h in k.kinds && Legal(k, Force(h))
    ensures After(k, Force(h)) == Reached(k, h, None)
  {
    hide Reached;
  }

  lemma SameKindOf(c: Conn, c': Conn, k: Client, h: Hid, src: Hid)
    requires Tells(c, k) && Owns(k, h) && Owns(k, src) && k.kinds[h] == k.kinds[src] && SameObjects(c, c')
    ensures h in c'.handles && KindOf(c'.handles[h], k.kinds[src])
      && (k.kinds[h] != MultiBulk ==> c'.handles[h].Simple?)
    ensures c'.handles.Keys == c.handles.Keys + {h}
  {
    hide Views;
  }

  // ---------------------------------------------------------------- assignments of enumerators

  /** When the assignment throws, in the client's terms. */
  lemma ThrowsIff(c: Conn, k: Client, call: Call)
    requires call.Overwrite? && Serves(c, k) && Legal(k, call) && k.kinds[call.h] == MultiBulk
    ensures var h := call.h;
            && h in c.handles && Known(c, h) && c.handles[h].Enumerator? && View(c, h) == k.views[h]
               && k.views[h].Items?
            && (Throws(k, call) <==> c.handles[h].conn && c.handles[h].count > 0 && None in k.views[h].items)
            && (c.handles[h].conn ==> c.handles[h].headerDone) && !IsFresh(c, h)
  {
    var h := call.h;
    ServedHandle(c, k, h);
    ServedEnumerator(c, k, h);
    hide Good, Tells, Waits, Deals, Waiting;
    assert IsStarted(c, h) ==> k.reading == Some(h);
  }

  /** What the assigned enumerator takes over, and what its source keeps. */
  lemma TakenIs(c: Conn, k: Client, call: Call)
    requires call.Overwrite? && Serves(c, k) && Legal(k, call) && k.kinds[call.h] == MultiBulk
    ensures call.src in c.handles && Known(c, call.src) && c.handles[call.src].Enumerator?
    ensures var (src, h) := (call.src, c.handles[call.src]);
            && (if h.conn then View(c, src) else Items([])) == (if IsAside(k, src) then Items([]) else k.views[src])
            && Spent(h) == (if IsAside(k, src) then k.views[src] else Items([]))
  {
    var src := call.src;
    ServedHandle(c, k, src);
    Freshness(c, src);
    if src !in k.waiting {
      ServedEnumerator(c, k, src);
    }
    if c.handles[src].conn {
      ConnectedHasNothingAside(c, src);
    } else {
      LooseView(c, src);
    }
    hide Good, Tells, Waits, Deals, Waiting, IsFresh;
  }

  lemma ThrownServes(c: Conn, c': Conn, k: Client, call: Call)
    requires call.Overwrite? && Serves(c, k) && Legal(k, call) && k.kinds[call.h] == MultiBulk && Throws(k, call)
    requires Good(c') && c'.owed.Keys == c'.handles.Keys && SameObjects(c, c') && c'.transaction == c.transaction
    requires (Closed(c') <==> Closed(c)) && k.views[call.h].Items? && call.h in c.handles && call.h in c'.handles
    requires Views(c') == Views(c)[call.h := Items(AfterNil(k.views[call.h].items))]
    requires Undisturbed(c, c', call.h) && c'.handles == c.handles[call.h := c'.handles[call.h]]
    requires c'.handles[call.h].Enumerator? && c'.handles[call.h].conn && c'.handles[call.h].headerDone
    ensures Serves(c', After(k, call))
  {
    hide *;
    var (h, k') := (call.h, After(k, call));
    ServesParts(c, k);
    ThrownIs(k, call);
    WaitsFacts(c, k.waiting, k.replies);
    UndisturbedParts(c, c', h);
    WaitsAs(c, c', k, k.waiting);
    ThrownTells(c, c', k, k', h);
    ThrownReads(c, c', k, k', h);
    DealNotOwned(c, k);
    SameDeal(c, c', k, k');
    ServesIf(c', k');
  }

  lemma ThrownIs(k: Client, call: Call)
    requires call.Overwrite? && Legal(k, call) && Throws(k, call)
    ensures call.h in k.views && k.views[call.h].Items? && call.h in k.kinds && k.reading == Some(call.h)
    ensures Told(k, call) == Thrown
    ensures After(k, call) == k.(views := k.views[call.h := Items(AfterNil(k.views[call.h].items))])
  {
    hide AfterNil;
  }

  lemma ThrownTells(c: Conn, c': Conn, k: Client, k': Client, h: Hid)
    requires Tells(c, k) && SameObjects(c, c') && c'.owed.Keys == c'.handles.Keys && h in k.views && k.views[h].Items?
    requires Views(c') == Views(c)[h := Items(AfterNil(k.views[h].items))]
    requires k' == k.(views := k.views[h := Items(AfterNil(k.views[h].items))])
    ensures Tells(c', k') && k'.views.Keys == k.views.Keys
  {
    hide Views, AfterNil;
  }

  lemma ThrownReads(c: Conn, c': Conn, k: Client, k': Client, h: Hid)
    requires Reads(c, k) && Undisturbed(c, c', h) && k.reading == Some(h) && h in k.views && h in c'.handles
    requires c'.handles[h].Enumerator? && c'.handles[h].conn && c'.handles[h].headerDone && k.views[h].Items?
    requires k' == k.(views := k.views[h := Items(AfterNil(k.views[h].items))])
    ensures Reads(c', k')
  {
    hide AfterNil, IsStarted, Waits;
  }

  lemma TakenServes(c: Conn, c': Conn, k: Client, call: Call, taken: Answer, left: Answer)
    requires call.Overwrite? && Serves(c, k) && Legal(k, call) && k.kinds[call.h] == MultiBulk && !Throws(k, call)
    requires Good(c') && c'.owed.Keys == c'.handles.Keys && SameObjects(c, c') && c'.transaction == c.transaction
    requires (Closed(c') <==> Closed(c)) && call.src in c.owed && call.h in c'.handles && call.src in c'.handles
    requires Views(c') == Views(c)[call.h := taken][call.src := left]
    requires taken == (if IsAside(k, call.src) then Items([]) else k.views[call.src])
    requires left == (if IsAside(k, call.src) then k.views[call.src] else Items([]))
    requires Waits(c', Replaced(Waiting(c), call.src, call.h), c.owed[call.h := c.owed[call.src]])
    requires StartsAs(c, c', call.h, call.src) && call.src in c.handles
      && SameFields(c.handles[call.src], c'.handles[call.h])
    requires c'.handles == c.handles[call.h := c'.handles[call.h]][call.src := c'.handles[call.src]]
    ensures Serves(c', After(k, call)) && Told(k, call) == Quiet
  {
    hide *;
    var (h, src, k') := (call.h, call.src, After(k, call));
    ServesParts(c, k);
    OverwriteIs(c, k, call);
    ReachedIs(k, h, None);
    NotWaiting(k.waiting, h);
    assert Reached(k, h, None) == k;
    AssignedIs(k, h, src);
    DefaultItems();
    MovedIs(k, h, src, taken, left);
    SameKindOf(c, c', k, h, src);
    ObjectsKeepTypes(c, c');
    MovedTells(c, c', k, k', h, src, taken, left);
    WaitsFacts(c, k.waiting, k.replies);
    MovedWaits(c, c', k, k.waiting, h, src);
    FieldsSame(c.handles[src], c'.handles[h]);
    NotAside(k, src);
    MovedReads(c, c', k, k', h, src, taken, left);
    MovedDeal(c, k, k', h, src, taken, left);
    DealNotOwned(c, k);
    SameDeal(c, c', k, k');
    ServesIf(c', k');
  }

  lemma DefaultItems()
    ensures Default(MultiBulk) == Items([])
  {
  }

  lemma NotAside(k: Client, h: Hid)
    ensures k.reading == Some(h) ==> !IsAside(k, h)
  {
  }

  lemma FieldsSame(a: Handle, b: Handle)
    requires SameFields(a, b)
    ensures a.Enumerator? && b.Enumerator? && b.conn == a.conn && b.headerDone == a.headerDone
  {
  }

  // ---------------------------------------------------------------- the end of handles

  lemma DropIs(k: Client, h: Hid)
    requires Legal(k, Drop(h))
    ensures Owns(k, h) && h in k.views && h in k.kinds && MayRead(k, h) && Told(k, Drop(h)) == Quiet
    ensures k.kinds[h] == MultiBulk ==>
              k.views[h].Items? && h !in k.waiting && (k.reading == Some(h) ==> AfterNil(k.views[h].items) == [])
    ensures var k' := After(k, Drop(h));
            && k'.views == k.views - {h} && k'.kinds == k.kinds - {h} && k'.used == k.used - {h} && k'.deal == k.deal
            && k'.waiting == Behind(k.waiting, h) && k'.replies == k.replies
            && k'.reading == (if h in k.waiting || k.reading == Some(h) then None else k.reading)
  {
    hide Behind, AfterNil;
  }

  /** A legal end of an enumerator leaves none of its bytes in the stream. */
  lemma DropIsClean(c: Conn, k: Client, h: Hid)
    requires Serves(c, k) && Legal(k, Drop(h)) && h in c.handles && h in c.owed
    ensures Known(c, h) && (c.handles[h].Simple? || !IsFresh(c, h)) && View(c, h) == k.views[h]
    ensures c.handles[h].Enumerator? && c.handles[h].conn ==>
              View(c, h).Items? && c.handles[h].headerDone && AfterNil(View(c, h).items) == []
  {
    hide *;
    ServesParts(c, k);
    DropIs(k, h);
    ServedHandle(c, k, h);
    NoItemsLeft();
    KindIs(c.handles[h], k.kinds[h]);
    if k.kinds[h] == MultiBulk {
      ServedEnumerator(c, k, h);
    }
  }

  lemma KindIs(h: Handle, kind: Kind)
    requires KindOf(h, kind)
    ensures if kind == MultiBulk then h.Enumerator? else h.Simple?
  {
  }

  lemma DropTells(c: Conn, c': Conn, k: Client, k': Client, h: Hid)
    requires Tells(c, k) && c'.owed.Keys == c'.handles.Keys == c.handles.Keys - {h} && Views(c') == Views(c) - {h}
    requires forall g | g in c'.handles :: SameType(c.handles[g], c'.handles[g])
    requires k'.views == k.views - {h} && k'.kinds == k.kinds - {h} && k'.used == k.used - {h}
    ensures Tells(c', k')
  {
    hide Views, SameType, KindOf;
    ViewKeys(c);
    ViewKeys(c');
    forall g | g in k'.views ensures g in c'.handles && KindOf(c'.handles[g], k'.kinds[g])
      && Views(c')[g] == k'.views[g] {
      SameTypeKind(c.handles[g], c'.handles[g], k.kinds[g]);
      assert g in Views(c') && Views(c')[g] == Views(c)[g];
    }
  }

  lemma SameTypeKind(a: Handle, b: Handle, kind: Kind)
    requires SameType(a, b) && KindOf(a, kind)
    ensures KindOf(b, kind)
  {
  }

  lemma DropReads(c: Conn, c': Conn, k: Client, k': Client, h: Hid)
    requires Reads(c, k) && Waiting(c) == k.waiting && Starts(c, c', h) && h !in c'.handles
    requires h !in k.waiting ==> c'.handles == c.handles - {h}
    requires k'.views == k.views - {h} && k'.kinds == k.kinds - {h}
    requires k'.reading == if h in k.waiting || k.reading == Some(h) then None else k.reading
    ensures Reads(c', k')
  {
    hide Waiting;
    assert !IsStarted(c', h);
    hide IsStarted;
  }

  lemma DropServes(c: Conn, c': Conn, k: Client, h: Hid)
    requires Serves(c, k) && Legal(k, Drop(h)) && Good(c') && c'.owed.Keys == c'.handles.Keys
    requires c'.handles.Keys == c.handles.Keys - {h} && Views(c') == Views(c) - {h} && c'.transaction == c.transaction
    requires (Closed(c') <==> Closed(c)) && forall g | g in c'.handles :: SameType(c.handles[g], c'.handles[g])
    requires Waits(c', Behind(Waiting(c), h), c.owed) && Starts(c, c', h)
    requires h !in k.waiting ==> c'.handles == c.handles - {h}
    ensures Serves(c', After(k, Drop(h)))
  {
    hide *;
    var k' := After(k, Drop(h));
    ServesParts(c, k);
    DropIs(k, h);
    WaitsFacts(c, k.waiting, k.replies);
    ReachedWaits(c, c', k, h);
    DropTells(c, c', k, k', h);
    DropReads(c, c', k, k', h);
    DealNotOwned(c, k);
    SameDeal(c, c', k, k');
    ServesIf(c', k');
  }

  // ---------------------------------------------------------------- transactions

  /** Nothing of what the client sees changes but the transaction. */
  lemma DealServes(c: Conn, c': Conn, k: Client, k': Client, q: Hid)
    requires Serves(c, k) && Good(c') && c'.owed.Keys == c'.handles.Keys == k'.used && q !in k.views
    requires k' == k.(used := k'.used, deal := k'.deal) && k.views.Keys <= k'.used
    requires forall g | g in c.handles && g != q :: g in c'.handles && c'.handles[g] == c.handles[g]
    requires forall g | g in c.handles && g != q :: g in Views(c') && g in Views(c) && Views(c')[g] == Views(c)[g]
    requires Undisturbed(c, c', q) && !IsStarted(c', q) && Deals(c', k')
    ensures Serves(c', k')
  {
    hide Good, Deals, Views, Undisturbed, Waits, IsStarted;
    UndisturbedParts(c, c', q);
    WaitsFacts(c, k.waiting, k.replies);
    WaitsAs(c, c', k, k.waiting);
    DealReads(c, c', k, k', q);
    DealTells(c, c', k, k', q);
  }

  lemma DealTells(c: Conn, c': Conn, k: Client, k': Client, q: Hid)
    requires Tells(c, k) && c'.owed.Keys == c'.handles.Keys == k'.used && q !in k.views
    requires k' == k.(used := k'.used, deal := k'.deal) && k.views.Keys <= k'.used
    requires forall g | g in c.handles && g != q :: g in c'.handles && c'.handles[g] == c.handles[g]
    requires forall g | g in c.handles && g != q :: g in Views(c') && g in Views(c) && Views(c')[g] == Views(c)[g]
    ensures Tells(c', k')
  {
    hide Views;
  }

  lemma DealReads(c: Conn, c': Conn, k: Client, k': Client, q: Hid)
    requires Reads(c, k) && Undisturbed(c, c', q) && !IsStarted(c', q) && q !in k.views
    requires k' == k.(used := k'.used, deal := k'.deal)
    requires forall g | g in c.handles && g != q :: g in c'.handles && c'.handles[g] == c.handles[g]
    ensures Reads(c', k')
  {
    hide IsStarted, Waits;
  }

  lemma SameViewsBut(c: Conn, c': Conn, q: Hid, told: Answer)
    requires c.owed.Keys == c.handles.Keys && c'.owed.Keys == c'.handles.Keys
    requires Views(c') == Views(c) || Views(c') == Views(c) - {q} || Views(c') == Views(c)[q := told]
    ensures forall g | g in c.handles && g != q :: g in Views(c') && g in Views(c) && Views(c')[g] == Views(c)[g]
  {
  }

  lemma QueuedIsNotStarted(c: Conn, q: Hid)
    requires q !in c.handles || c.handles[q].QueuedReply?
    ensures !IsStarted(c, q)
  {
  }

  /** The client's condition for beginning is that nothing is outstanding. */
  lemma MayBegin(c: Conn, k: Client, q: Hid)
    requires Serves(c, k) && Legal(k, Begin(q)) && k.deal.NoDeal?
    ensures c.transaction == None && q !in c.handles && AllKnown(c, c.list) && AllDrained(c, c.list) && q !in k.views
    ensures After(k, Begin(q)) == k.(used := k.used + {q}, deal := Open(q)) && Told(k, Begin(q)) == Quiet
    ensures c.handles.Keys == k.used && c.owed.Keys == c.handles.Keys
  {
    ServedOpen(c, k);
    NothingOutstanding(c);
    WaitsFacts(c, k.waiting, k.replies);
    BeginFacts(c, k, q);
    hide Good, Tells, Waits, Waiting, Closed, AllDrained, AllKnown;
    forall h: Hid ensures !IsStarted(c, h) {
      if k.reading == Some(h) {
        ReadIsNotStarted(c, k, h);
      }
    }
  }

  lemma BeginFacts(c: Conn, k: Client, q: Hid)
    requires Tells(c, k) && Legal(k, Begin(q))
    ensures q !in c.handles && q !in k.views && c.handles.Keys == k.used && c.owed.Keys == c.handles.Keys
  {
    hide Views;
  }

  lemma ReadIsNotStarted(c: Conn, k: Client, h: Hid)
    requires Serves(c, k) && k.reading == Some(h) && IsRead(k, h)
    ensures !IsStarted(c, h)
  {
    ReadingOwned(c, k, h);
    ServedView(c, k, h);
    UnreadFrame(c, h);
  }

  lemma ReadingOwned(c: Conn, k: Client, h: Hid)
    requires Tells(c, k) && Reads(c, k) && k.reading == Some(h) && IsRead(k, h)
    ensures Owns(k, h) && h in c.handles && c.handles[h].Enumerator?
  {
    hide Views, IsStarted;
  }

  lemma BeginServes(c: Conn, c': Conn, k: Client, q: Hid)
    requires Serves(c, k) && Legal(k, Begin(q)) && k.deal.NoDeal? && Good(c') && c'.owed.Keys == c'.handles.Keys
    requires q in c'.handles && c'.handles == c.handles[q := c'.handles[q]] && c'.handles[q].QueuedReply?
    requires c'.transaction == Some(q) && InTransaction(c') && Undisturbed(c, c', q)
    requires c.owed.Keys == c.handles.Keys && Views(c') == Views(c)[q := Flag(false)]
    ensures Serves(c', After(k, Begin(q)))
  {
    hide *;
    MayBegin(c, k, q);
    ServesParts(c, k);
    QueuedIsNotStarted(c', q);
    SameViewsBut(c, c', q, Flag(false));
    OpenDeal(c', After(k, Begin(q)), q);
    KeysOwned(c, k);
    DealServes(c, c', k, After(k, Begin(q)), q);
  }

  lemma KeysOwned(c: Conn, k: Client)
    requires Tells(c, k)
    ensures k.views.Keys <= k.used && c.handles.Keys == k.used && c.owed.Keys == c.handles.Keys
  {
    hide Views;
  }

  lemma OpenDeal(c: Conn, k: Client, q: Hid)
    requires k.deal == Open(q) && q !in k.views && c.transaction == Some(q) && InTransaction(c)
    ensures Deals(c, k)
  {
  }

  lemma OverFacts(c: Conn, k: Client)
    requires Serves(c, k) && !k.deal.NoDeal?
    ensures var q := k.deal.q;
            && c.transaction == Some(q) && q !in k.views && q in c.handles && q in c.owed && Known(c, q)
               && c.handles[q].QueuedReply?
            && (InTransaction(c) <==> k.deal.Open?) && c.handles.Keys == k.used
  {
    hide Waits, Reads, Aligned, Views, Healthy, Ordered, Counted, Distinct;
  }

  /** A second transaction throws, and harms nothing when the first is over. */
  lemma SecondBeginServes(c: Conn, c': Conn, k: Client, q: Hid)
    requires Serves(c, k) && Legal(k, Begin(q)) && k.deal.Over? && Good(c') && c'.owed.Keys == c'.handles.Keys
    requires c' == c.(handles := CountedHandles(c)) && SameObjects(c, c') && Undisturbed(c, c', k.deal.q)
    requires Views(c') == Views(c) && (Closed(c') <==> Closed(c))
    ensures Serves(c', After(k, Begin(q))) && Told(k, Begin(q)) == Thrown
  {
    hide *;
    var t := k.deal.q;
    OverFacts(c, k);
    ServesParts(c, k);
    KeysOwned(c, k);
    SecondIs(k, q);
    CountedOthers(c, c', t);
    QueuedIsNotStarted(c', t);
    SameViewsBut(c, c', t, Flag(false));
    SameDeal(c, c', k, k);
    DealServes(c, c', k, k, t);
  }

  lemma SecondIs(k: Client, q: Hid)
    requires Legal(k, Begin(q)) && k.deal.Over?
    ensures After(k, Begin(q)) == k && Told(k, Begin(q)) == Thrown && k.(used := k.used, deal := k.deal) == k
  {
  }

  lemma CountedOthers(c: Conn, c': Conn, t: Hid)
    requires c.transaction == Some(t) && t in c.handles && c.handles[t].QueuedReply?
      && c' == c.(handles := CountedHandles(c))
    ensures c'.handles.Keys == c.handles.Keys && c'.handles[t].QueuedReply? && c'.transaction == c.transaction
    ensures forall g | g in c.handles && g != t :: g in c'.handles && c'.handles[g] == c.handles[g]
  {
  }

  /** What the server sends for EXEC, from what the client knows. */
  lemma ExecIs(c: Conn, k: Client, exec: Str)
    requires Serves(c, k) && Legal(k, Commit(exec)) && k.deal.Open?
    ensures c.transaction == Some(k.deal.q) && Known(c, k.deal.q) && k.deal.q in c.handles
      && c.handles[k.deal.q].QueuedReply?
    ensures InTransaction(c) && AnswersExec(c, exec) && c.handles[k.deal.q].queued < TWO_TO_63
  {
    hide *;
    OverFacts(c, k);
    ServesParts(c, k);
    GoodIsWired(c);
    var i := PlaceOfOpen(c);
    OpenWaiting(c, i);
    KnownParts(c, i);
    WaitsFacts(c, k.waiting, k.replies);
    SameReplies(c, c.list[i + 1..], k.replies);
    CommitIs(k, exec);
    ExecReplyIs(c, i, exec);
  }

  lemma PlaceOfOpen(c: Conn) returns (i: nat)
    requires Good(c) && InTransaction(c)
    ensures i == IndexOf(c.list, c.transaction.value) < |c.list| && c.list[i] == c.transaction.value
    ensures Known(c, c.list[i]) && IsOpen(c.handles[c.list[i]])
  {
    i := OpenPlace(c);
    hide Healthy, Ordered, Counted, Aligned;
    IndexIs(c.list, i);
  }

  lemma {:induction false} SameReplies(c: Conn, l: seq<Hid>, replies: map<Hid, Reply>)
    requires AllKnown(c, l) && forall h | h in l :: h in replies && h in c.owed && c.owed[h] == replies[h]
    ensures Answers(c, l) == ReplyTexts(replies, l)
  {
    if l != [] {
      hide Encode;
      assert l[0] in l;
      SameReplies(c, l[1..], replies);
    }
  }

  lemma CommitIs(k: Client, exec: Str)
    requires Legal(k, Commit(exec))
    ensures !k.deal.NoDeal? && After(k, Commit(exec)) == k.(deal := Over(k.deal.q)) && Told(k, Commit(exec)) == Quiet
    ensures k.deal.Open? ==>
              |k.waiting| < TWO_TO_63 && exec == EncodeHeader(|k.waiting|) + ReplyTexts(k.replies, k.waiting)
  {
    hide EncodeHeader, ReplyTexts;
  }

  lemma ExecReplyIs(c: Conn, i: nat, exec: Str)
    requires c.transaction.Some? && i == IndexOf(c.list, c.transaction.value) < |c.list| && AllKnown(c, c.list[i + 1..])
    requires exec == EncodeHeader(|c.list[i + 1..]|) + Answers(c, c.list[i + 1..])
    ensures AnswersExec(c, exec)
  {
    hide EncodeHeader, Answers;
  }

  lemma CommitServes(c: Conn, c': Conn, k: Client, exec: Str)
    requires Serves(c, k) && Legal(k, Commit(exec)) && Good(c') && Closed(c') && c'.owed.Keys == c'.handles.Keys
    requires Views(c') == Views(c) && c'.transaction == c.transaction && SameObjects(c, c') && k.deal.q in c'.handles
    requires c'.handles == c.handles[k.deal.q := c'.handles[k.deal.q]] && Undisturbed(c, c', k.deal.q)
    ensures Serves(c', After(k, Commit(exec)))
  {
    hide *;
    CommitIs(k, exec);
    var q := k.deal.q;
    OverFacts(c, k);
    ServesParts(c, k);
    KeysOwned(c, k);
    ObjectsKeepTypes(c, c');
    StillQueued(c.handles[q], c'.handles[q]);
    QueuedIsNotStarted(c', q);
    SameViewsBut(c, c', q, Flag(false));
    OpenIsTransaction(c');
    OverDeal(c', After(k, Commit(exec)), q);
    DealServes(c, c', k, After(k, Commit(exec)), q);
  }

  lemma StillQueued(a: Handle, b: Handle)
    requires a.QueuedReply? && SameType(a, b)
    ensures b.QueuedReply?
  {
  }

  lemma OverDeal(c: Conn, k: Client, q: Hid)
    requires k.deal == Over(q) && q !in k.views && c.transaction == Some(q) && !InTransaction(c)
    ensures Deals(c, k)
  {
  }

  lemma EndIs(k: Client)
    requires Legal(k, Finish)
    ensures !k.deal.NoDeal? && After(k, Finish) == k.(used := k.used - {k.deal.q}, deal := NoDeal)
      && Told(k, Finish) == Quiet
    ensures k.deal.Open? ==> k.waiting == []
  {
  }

  lemma EndServes(c: Conn, c': Conn, k: Client)
    requires Serves(c, k) && Legal(k, Finish) && Good(c') && c'.owed.Keys == c'.handles.Keys
      && c.owed.Keys == c.handles.Keys
    requires Views(c') == Views(c) - {k.deal.q} && c'.transaction == None && c'.handles == c.handles - {k.deal.q}
    requires Undisturbed(c, c', k.deal.q)
    ensures Serves(c', After(k, Finish))
  {
    hide *;
    EndIs(k);
    var q := k.deal.q;
    OverFacts(c, k);
    ServesParts(c, k);
    KeysOwned(c, k);
    QueuedIsNotStarted(c', q);
    SameViewsBut(c, c', q, Flag(false));
    OverDealNone(c', After(k, Finish));
    DealServes(c, c', k, After(k, Finish), q);
  }

  lemma OverDealNone(c: Conn, k: Client)
    requires k.deal == NoDeal && c.transaction == None
    ensures Deals(c, k)
  {
  }

  // ---------------------------------------------------------------- the client's conditions are the exact ones

  /** Dropping an enumerator leaves none of its bytes in the stream if and only if the client may drop it. */
  lemma DropIsExact(c: Conn, k: Client, h: Hid)
    requires Serves(c, k) && Owns(k, h) && k.kinds[h] == MultiBulk && MayRead(k, h)
    ensures h in c.handles && Known(c, h) && c.handles[h].Enumerator? && View(c, h).Items?
    ensures Legal(k, Drop(h)) <==>
            !(c.handles[h].conn && (!c.handles[h].headerDone || AfterNil(View(c, h).items) != []))
  {
    ServedHandle(c, k, h);
    Freshness(c, h);
    NoItemsLeft();
    if h !in k.waiting {
      ServedEnumerator(c, k, h);
    }
    hide Good, Tells, Waits, Deals, Waiting, IsFresh, AfterNil, IsStarted;
  }

  /**
   A client may read a handle exactly when it can be read: a handle still waited for in an open transaction
   finds nothing in the stream (`Connection.ForceTooEarly`).
   */
  lemma MayReadIsExact(c: Conn, k: Client, h: Hid)
    requires Serves(c, k) && Owns(k, h)
    ensures h in c.handles && (MayRead(k, h) <==> Closed(c) || Drained(c.handles[h]))
    ensures !MayRead(k, h) ==> InTransaction(c) && IsFresh(c, h)
  {
    ServedHandle(c, k, h);
    ServedOpen(c, k);
    Freshness(c, h);
    hide Good, Tells, Waits, Reads, Waiting, IsFresh, Closed;
  }

  /** Assigning another enumerator to `h` keeps stream and list in step if and only if it is legal. */
  lemma OverwriteIsExact(c: Conn, k: Client, h: Hid, src: Hid)
    requires Serves(c, k) && Owns(k, h) && Owns(k, src) && k.kinds[h] == k.kinds[src] == MultiBulk && MayRead(k, h)
    requires h != src
    ensures h in c.handles && c.handles[h].Enumerator?
    ensures Legal(k, Overwrite(h, src)) <==> !(c.handles[h].conn && !c.handles[h].headerDone)
  {
    ServedHandle(c, k, h);
    Freshness(c, h);
    hide Good, Tells, Waits, Deals, Waiting, IsFresh, IsStarted;
  }

  /** And it hands over all there was to tell exactly if the source was not put aside with elements left. */
  lemma AssignsAllIff(c: Conn, k: Client, h: Hid, src: Hid)
    requires Serves(c, k) && Legal(k, Overwrite(h, src)) && k.kinds[h] == MultiBulk && !Throws(k, Overwrite(h, src))
    ensures After(k, Overwrite(h, src)).views[h] == k.views[src] <==> !IsAside(k, src) || k.views[src] == Items([])
    ensures src in c.handles && Known(c, src) && c.handles[src].Enumerator?
    ensures IsAside(k, src) && k.views[src] != Items([]) ==> !c.handles[src].conn && View(c, src) == k.views[src]
  {
    TakenIs(c, k, Overwrite(h, src));
    ServedHandle(c, k, src);
    OverwriteIs(c, k, Overwrite(h, src));
    ReachedIs(k, h, None);
    NotWaiting(k.waiting, h);
    assert Reached(k, h, None) == k;
    AssignedIs(k, h, src);
    hide Good, Tells, Waits, Deals, Waiting, IsFresh, Reads;
  }

  /** A first transaction finds nothing outstanding if and only if the client may begin it. */
  lemma BeginIsExact(c: Conn, k: Client, q: Hid)
    requires Serves(c, k) && k.deal.NoDeal? && q !in k.used
    ensures AllKnown(c, c.list) && (Legal(k, Begin(q)) <==> AllDrained(c, c.list))
  {
    ServedOpen(c, k);
    NothingOutstanding(c);
    if Legal(k, Begin(q)) {
      MayBegin(c, k, q);
    }
    if AllDrained(c, c.list) {
      WaitsFacts(c, k.waiting, k.replies);
      if k.reading.Some? {
        AtItsEnd(c, k, k.reading.value);
      }
    }
  }

  lemma AtItsEnd(c: Conn, k: Client, h: Hid)
    requires Serves(c, k) && k.reading == Some(h) && !IsStarted(c, h)
    ensures IsRead(k, h)
  {
    assert IsReading(c, k, h);
    hide Good, Waits, Waiting, Deals;
    if c.handles[h].conn {
      ReadingTells(c, k, h);
      UnreadFrame(c, h);
    }
  }

  lemma ReadingTells(c: Conn, k: Client, h: Hid)
    requires Tells(c, k) && IsReading(c, k, h)
    ensures Known(c, h) && View(c, h) == k.views[h]
  {
    ViewAt(c, h);
  }

  // ---------------------------------------------------------------- sessions

  /** A read of the connection, for the client that is told the same at once. */
  method PerformRead(c: Connection, call: Call, ghost k: Client) returns (told: Notice)
    requires c.Valid() && Serves(c.State(), k) && Legal(k, call) && (call.Force? || call.NextOf?)
    modifies c, c.ioStream, c.ioStream.inBuffer
    ensures c.Valid()
    ensures Serves(c.State(), After(k, call)) && told == Told(k, call)
  {
    hide Good, Closed, Views, View, Serves, Starts, Waits, Waiting, Behind, IsFresh, SameObjects, Enumerated,
         Forced, After, Told, Undisturbed, MayRead;
    ghost var before := c.State();
    ServesParts(before, k);
    GoodKnown(before);
    ServedHandle(before, k, call.h);
    KindIs(before.handles[call.h], k.kinds[call.h]);
    Freshness(before, call.h);
    if call.Force? {
      ForceIs(k, call.h);
      var answer := c.Result(call.h);
      GoodKnown(c.State());
      ForceServes(before, c.State(), k, call.h);
      return Gave(answer);
    }
    NextIs(k, call.h);
    UnreadFrame(before, call.h);
    var next := c.NextOptional(call.h);
    NextServes(before, c.State(), k, call.h);
    return if next.Some? then Gave(Text(next.value)) else Gave(Items([]));
  }

  /** A copy, or the end of a handle. */
  method PerformMove(c: Connection, call: Call, ghost k: Client) returns (told: Notice)
    requires c.Valid() && Serves(c.State(), k) && Legal(k, call) && (call.CopyOf? || call.Drop?)
    modifies c, c.ioStream, c.ioStream.inBuffer
    ensures c.Valid()
    ensures Serves(c.State(), After(k, call)) && told == Told(k, call)
  {
    hide Good, Closed, Views, View, Serves, Starts, StartsAs, Waits, Waiting, Behind, Replaced, IsFresh,
         SameObjects, After, Told, Undisturbed, MayRead, AfterNil, TellsTwice;
    ghost var before := c.State();
    ServesParts(before, k);
    GoodKnown(before);
    match call
    case CopyOf(h, src) =>
      CopyIs(before, k, h, src);
      ServedHandle(before, k, src);
      c.Copy(h, src);
      CopyServes(before, c.State(), k, h, src);
      return Quiet;
    case Drop(h) =>
      DropIs(k, h);
      ServedHandle(before, k, h);
      DropIsClean(before, k, h);
      c.Destroy(h);
      DropServes(before, c.State(), k, h);
      return Quiet;
  }

  /** The assignment of one simple handle to another, or to itself. */
  method PerformAssign(c: Connection, call: Call, ghost k: Client) returns (told: Notice)
    requires c.Valid() && Serves(c.State(), k) && Legal(k, call) && call.Overwrite? && k.kinds[call.h] != MultiBulk
    modifies c, c.ioStream, c.ioStream.inBuffer
    ensures c.Valid()
    ensures Serves(c.State(), After(k, call)) && told == Told(k, call)
  {
    hide Good, Closed, Views, View, Serves, Starts, StartsAs, Waits, Waiting, Behind, Replaced, IsFresh,
         SameObjects, After, Told, Undisturbed, MayRead, Throws;
    ghost var before := c.State();
    var h, src := call.h, call.src;
    ServesParts(before, k);
    GoodKnown(before);
    OverwriteIs(before, k, call);
    ServedHandle(before, k, h);
    ServedHandle(before, k, src);
    Freshness(before, h);
    c.AssignSimple(h, src);
    if h == src {
      SelfAssigned(before, c.State(), k, h);
    } else {
      OverwriteServes(before, c.State(), k, call, c.handles[src].stored);
    }
    return Quiet;
  }

  /** The assignment of one enumerator to another. */
  method PerformTake(c: Connection, call: Call, ghost k: Client) returns (told: Notice)
    requires c.Valid() && Serves(c.State(), k) && Legal(k, call) && call.Overwrite? && k.kinds[call.h] == MultiBulk
    modifies c, c.ioStream, c.ioStream.inBuffer
    ensures c.Valid()
    ensures Serves(c.State(), After(k, call)) && told == Told(k, call)
  {
    hide Good, Closed, Views, View, Serves, Starts, StartsAs, Waits, Waiting, Behind, Replaced, IsFresh,
         SameObjects, After, Told, Undisturbed, MayRead, AfterNil, SameFields, Throws, Drained;
    ghost var before := c.State();
    var h, src := call.h, call.src;
    ServesParts(before, k);
    GoodKnown(before);
    OverwriteIs(before, k, call);
    ServedHandle(before, k, h);
    ServedHandle(before, k, src);
    ThrowsIff(before, k, call);
    TakenIs(before, k, call);
    var thrown := c.AssignEnumerator(h, src);
    if thrown {
      ThrownIs(k, call);
      ThrownServes(before, c.State(), k, call);
      return Thrown;
    }
    TakenServes(before, c.State(), k, call, if before.handles[src].conn then View(before, src) else Items([]),
                Spent(before.handles[src]));
    return Quiet;
  }

  /** A transaction is begun, committed or ended. */
  method PerformDeal(c: Connection, call: Call, ghost k: Client) returns (told: Notice)
    requires c.Valid() && Serves(c.State(), k) && Legal(k, call) && (call.Begin? || call.Commit? || call.Finish?)
    modifies c, c.ioStream, c.ioStream.inBuffer
    ensures c.Valid()
    ensures Serves(c.State(), After(k, call)) && told == Told(k, call)
  {
    hide Good, Closed, Views, View, Serves, Waits, Waiting, SameObjects, After, Told, Undisturbed, AllKnown,
         AllDrained, AnswersExec, CountedHandles;
    ghost var before := c.State();
    ServesParts(before, k);
    GoodKnown(before);
    KeysOwned(before, k);
    ServedOpen(before, k);
    match call
    case Begin(q) =>
      if k.deal.NoDeal? {
        MayBegin(before, k, q);
      } else {
        OverFacts(before, k);
      }
      var ok := c.BeginTransaction(q);
      if ok {
        QueuedNow(c.State(), q);
        BeginServes(before, c.State(), k, q);
        return Quiet;
      }
      SecondBeginServes(before, c.State(), k, q);
      return Thrown;
    case Commit(exec) =>
      CommitIs(k, exec);
      OverFacts(before, k);
      if k.deal.Open? {
        ExecIs(before, k, exec);
      }
      var _ := c.CommitTransaction(exec);
      ObjectsKeepTypes(before, c.State());
      CommitServes(before, c.State(), k, exec);
      return Quiet;
    case Finish =>
      EndIs(k);
      OverFacts(before, k);
      WaitsFacts(before, k.waiting, k.replies);
      c.EndTransaction();
      EndServes(before, c.State(), k);
      return Quiet;
  }

  lemma QueuedNow(c: Conn, q: Hid)
    requires InTransaction(c) && c.transaction == Some(q)
    ensures q in c.handles && c.handles[q].QueuedReply?
  {
  }

  /** One call on the connection. */
  method Perform(c: Connection, call: Call, ghost k: Client) returns (told: Notice)
    requires c.Valid() && Serves(c.State(), k) && Legal(k, call)
    modifies c, c.ioStream, c.ioStream.inBuffer
    ensures c.Valid()
    ensures Serves(c.State(), After(k, call)) && told == Told(k, call)
  {
    hide Good, Closed, Views, Serves, Waits, Waiting, AnswerOf, WellTyped, Fits, NewHandle, IsStarted, AfterIssue;
    match call
    case Command(h, kind, reply) =>
      ghost var before := c.State();
      ServesParts(before, k);
      KeysOwned(before, k);
      c.Issue(h, kind, reply);
      CommandServes(before, c.State(), k, call);
      return Quiet;
    case Force(_) => told := PerformRead(c, call, k);
    case NextOf(_) => told := PerformRead(c, call, k);
    case CopyOf(_, _) => told := PerformMove(c, call, k);
    case Overwrite(h, _) =>
      ghost var before := c.State();
      ServesParts(before, k);
      OverwriteIs(before, k, call);
      ServedHandle(before, k, h);
      if c.handles[h].Simple? {
        told := PerformAssign(c, call, k);
      } else {
        told := PerformTake(c, call, k);
      }
    case Drop(_) => told := PerformMove(c, call, k);
    case Begin(_) => told := PerformDeal(c, call, k);
    case Commit(_) => told := PerformDeal(c, call, k);
    case Finish => told := PerformDeal(c, call, k);
  }

  /** Any session: the client is told what it would be told without a pipeline, call by call. */
  method Session(c: Connection, calls: seq<Call>, ghost k: Client) returns (told: seq<Notice>)
    requires c.Valid() && Serves(c.State(), k) && AllLegal(k, calls)
    modifies c, c.ioStream, c.ioStream.inBuffer
    ensures c.Valid()
    ensures told == AllTold(k, calls)
  {
    hide Serves, Legal, After, Told;
    ghost var now := k;
    told := [];
    for i := 0 to |calls|
      invariant c.Valid() && Serves(c.State(), now) && AllLegal(now, calls[i..])
      invariant told + AllTold(now, calls[i..]) == AllTold(k, calls)
    {
      var notice := Perform(c, calls[i], now);
      assert calls[i..][1..] == calls[i + 1..];
      told := told + [notice];
      now := After(now, calls[i]);
    }
    assert AllTold(now, calls[|calls|..]) == [];
  }

  /** A new connection serves a client without handles. */
  method Connect() returns (c: Connection)
    ensures fresh(c) && fresh(c.ioStream) && fresh(c.ioStream.inBuffer) && c.Valid()
    ensures Serves(c.State(), NEW_CLIENT)
  {
    c := new Connection();
    NewIsServed(c.State());
  }

  lemma NewIsServed(c: Conn)
    requires Good(c) && Closed(c) && c.handles == map[] && c.list == [] && c.transaction == None
    ensures Serves(c, NEW_CLIENT)
  {
    GoodKnown(c);
  }
}
