/**
 The connection as the source updates it: its reply list, its reply objects and the input stream.
 Reply objects are named by their addresses; exceptions of the stream readers cannot happen here,
 because the server's replies are well typed.
 */
module RedisConnection {
  import opened Bytes
  import opened RedisWire
  import opened RedisHandles
  import opened RedisPipeline
  import opened RedisTransactions
  import opened RedisWaiting
  import opened RedisStream
  import opened SocketBuffer

  /** What next() gives: an element, false at the end, or NullReplyException for a nil element. */
  datatype Outcome = Element(text: Str) | End | NullReply

  class Connection {
    const ioStream: StreamBuf
    var outstandingReplies: seq<Hid>
    var handles: map<Hid, Handle>
    var transaction: Option<Hid>
    ghost var owed: map<Hid, Reply>

    ghost predicate Valid()
      reads ioStream
    {
      ioStream.Valid()
    }

    /** What the server has sent and the connection has not read. */
    ghost function Input(): Str
      reads ioStream, ioStream.inBuffer
    {
      if ioStream.Valid() then ioStream.Stream() else []
    }

    ghost function State(): Conn
      reads this, ioStream, ioStream.inBuffer
    {
      Conn(Input(), outstandingReplies, handles, transaction, owed)
    }

    constructor ()
      ensures Valid() && fresh(ioStream) && fresh(ioStream.inBuffer)
      ensures Good(State()) && Closed(State()) && Views(State()) == map[]
      ensures outstandingReplies == [] && handles == map[] && transaction == None
    {
      ioStream := new StreamBuf([]);
      outstandingReplies := [];
      handles := map[];
      transaction := None;
      owed := map[];
      new;
      NothingIssued(State());
    }

    /** BaseReply::clearPendingResults */
    method ClearPendingResults(h: Hid)
      requires Valid() && Good(State()) && Closed(State()) && h in outstandingReplies
      modifies this, ioStream, ioStream.inBuffer
      ensures Valid()
      ensures Forced(old(State()), State(), IndexOf(old(outstandingReplies), h))
      decreases IndexOf(outstandingReplies, h), 0
    {
      hide Valid, Input, Good, Closed, Views, View, Read, Frames, SameTypes, Forced, AllDrained, AllKnown, IndexOf,
           Listed;
      GoodKnown(State());
      var cur := outstandingReplies[0];
      ghost var c := State();
      ghost var k: nat := 0;
      ghost var i := IndexOf(c.list, h);
      ForcedNone(c);
      while cur != h
        invariant Valid() && k <= i && c.list[k] == cur && Forced(c, State(), k)
        decreases i - k
      {
        var reply := cur;
        ghost var c1 := State();
        ForcedParts(c, c1, k);
        NextInLine(c, c1, k);
        cur := outstandingReplies[IndexOf(outstandingReplies, cur) + 1];
        ReadResult(reply);
        ForcedStep(c, c1, State(), k);
        k := k + 1;
      }
      UnlinkedAt(c, k);
    }

    /** The virtual readResult: keep what the stream holds for the handle. */
    method ReadResult(h: Hid)
      requires Valid() && Good(State()) && Closed(State()) && h in outstandingReplies
      requires AllDrained(State(), outstandingReplies[..IndexOf(outstandingReplies, h)])
      modifies this, ioStream, ioStream.inBuffer
      ensures Valid()
      ensures Forced(old(State()), State(), IndexOf(old(outstandingReplies), h) + 1)
      decreases IndexOf(outstandingReplies, h), 5
    {
      hide Valid, Input, Good, Closed, Views, View, Forced, AllDrained, IndexOf, Frames, SameTypes, Drained;
      GoodLists(State());
      match handles[h]
      case Simple(_, _, _) =>
        var _ := Result(h);
      case Enumerator(_, _, _, _) =>
        ReadRest(h);
      case QueuedReply(_, _, _) =>
        QueuedIsDrained(State(), h);
        DrainedIsRead(State(), IndexOf(outstandingReplies, h));
    }

    /** result() of the simple replies; the source has one for each type. */
    method Result(h: Hid) returns (answer: Answer)
      requires Valid() && Good(State()) && h in handles && handles[h].Simple? && (Closed(State()) || !handles[h].conn)
      modifies this, ioStream, ioStream.inBuffer
      ensures Valid()
      ensures answer == View(old(State()), h)
      ensures Good(State()) && Views(State()) == Views(old(State())) && SameObjects(old(State()), State())
      ensures Closed(old(State())) ==> Closed(State())
      ensures old(handles[h].conn) ==> Forced(old(State()), State(), IndexOf(old(outstandingReplies), h) + 1)
      ensures !old(handles[h].conn) ==> State() == old(State())
      ensures h in handles && handles[h].Simple? && !handles[h].conn && h !in outstandingReplies
      ensures Waits(State(), Behind(Waiting(old(State())), h), old(owed)) && Starts(old(State()), State(), h)
      ensures transaction == old(transaction)
      decreases IndexOf(outstandingReplies, h), 2
    {
      hide Valid, Input, Good, Closed, Views, View, Forced, IndexOf, SameObjects, Waits, Waiting, Behind, Starts,
           IsFresh;
      ghost var c, k := State(), IndexOf(outstandingReplies, h);
      GoodKnown(c);
      Freshness(c, h);
      if handles[h].conn {
        ConnectedIsListed(c, h);
        ReadOwn(h);
        ForcedWaits(c, State(), k);
        ForcedParts(c, State(), k + 1);
        ForcedObjects(c, State(), k + 1);
      } else {
        LooseSimple(c, h);
        ObjectsKept(c);
        NothingRead(c, h);
      }
      return handles[h].stored;
    }

    /** The first part of result(): a connected handle reads its answer, after everything in front of it. */
    method ReadOwn(h: Hid)
      requires Valid() && Good(State()) && Closed(State()) && h in outstandingReplies && Known(State(), h)
      requires handles[h].Simple? && handles[h].conn
      modifies this, ioStream, ioStream.inBuffer
      ensures Valid()
      ensures Forced(old(State()), State(), IndexOf(old(outstandingReplies), h) + 1)
      ensures h in handles && handles[h] == Simple(false, old(handles)[h].kind, View(old(State()), h))
      ensures h !in outstandingReplies
      decreases IndexOf(outstandingReplies, h), 1
    {
      hide Valid, Input, Good, Closed, Views, View, Read, Frames, Forced, ReadAnswer, AllDrained, IndexOf,
           Unlinked, SameObjects, SameTypes;
      ghost var c, k := State(), IndexOf(outstandingReplies, h);
      ClearPendingResults(h);
      ghost var c1 := State();
      ForcedParts(c, c1, k);
      NextInLine(c, c1, k);
      SameView(c, c1, h);
      AnswerRead(c1, IndexOf(c1.list, h));
      var answer := ReadNext(handles[h].kind);
      handles := handles[h := Simple(false, handles[h].kind, answer)];
      outstandingReplies := Unlinked(outstandingReplies, h);
      ForcedStep(c, c1, State(), k);
    }

    /** The server sends more. */
    method Receive(more: Str)
      requires Valid()
      modifies ioStream`unreceived
      ensures Valid() && Input() == old(Input()) + more
    {
      ioStream.Arrive(more);
    }

    /** readStatusCodeReply of a line that is there */
    method ReadLine()
      requires Valid() && ReadStatus(Input()).Some?
      modifies ioStream, ioStream.inBuffer
      ensures Valid() && Input() == ReadStatus(old(Input())).value.1
    {
      hide ReadStatus;
      var _ := ReadStatusReply(ioStream);
    }

    /** readIntegerReply of a number that is there */
    method ReadCount() returns (n: int)
      requires Valid() && ReadInteger(Input()).Some?
      modifies ioStream, ioStream.inBuffer
      ensures Valid() && ReadInteger(old(Input())) == Some((n, Input()))
    {
      hide ReadInteger;
      var read := ReadIntegerReply(ioStream);
      n := read.value;
    }

    /** What result() reads, by the kind of the reply. */
    method ReadNext(kind: Kind) returns (answer: Answer)
      requires Valid() && ReadAnswer(kind, Input()).Some?
      modifies ioStream, ioStream.inBuffer
      ensures Valid() && ReadAnswer(kind, old(Input())) == Some((answer, Input()))
    {
      hide ReadStatus, ReadInteger, ReadBulk;
      match kind
      case Void =>
        var _ := ReadStatusReply(ioStream);
        answer := Flag(true);
      case Bool =>
        var n := ReadIntegerReply(ioStream);
        answer := Flag(n.value > 0);
      case Int =>
        var n := ReadIntegerReply(ioStream);
        answer := Number(n.value);
      case String =>
        var item := ReadBulkReply(ioStream);
        answer := Text(item.value);
    }

    /** The last part of nextOptional: the next element, or the end of the reply. */
    method NextElement(h: Hid) returns (next: Option<Option<Str>>)
      requires Valid() && Good(State()) && h in outstandingReplies && Known(State(), h) && handles[h].Enumerator?
      requires handles[h].conn && handles[h].headerDone && (Closed(State()) || Drained(handles[h]))
      modifies this, ioStream, ioStream.inBuffer
      ensures Valid()
      ensures Good(State()) && (Closed(State()) <==> Closed(old(State()))) && transaction == old(transaction)
      ensures Closed(old(State())) ==> Enumerated(old(State()), State(), IndexOf(old(outstandingReplies), h))
      ensures Known(State(), h) && handles[h].Enumerator? && handles[h].conn == next.Some?
      ensures handles[h].conn ==> handles[h].headerDone
      ensures handles == old(handles)[h := handles[h]] && SameObjects(old(State()), State())
      ensures var items := View(old(State()), h).items;
              if items == [] then next == None && Views(State()) == Views(old(State()))
              else next == Some(items[0]) && Views(State()) == Views(old(State()))[h := Items(items[1..])]
      ensures Undisturbed(old(State()), State(), h)
      ensures Waits(State(), Behind(Waiting(old(State())), h), old(owed)) && Starts(old(State()), State(), h)
    {
      hide Good, Closed, Views, View, Forced, Enumerated, Frame, Frames, Part, ReadBulk, IndexOf, SameObjects,
           Waits, Waiting, Behind, Starts, IsFresh, ChangesOne, Unlinked, Undisturbed;
      ghost var c, k := State(), IndexOf(outstandingReplies, h);
      GoodKnown(c);
      KnownAt(c, k);
      EnumeratorFacts(c, k);
      Freshness(c, h);
      if handles[h].count <= 0 {
        if Closed(c) {
          EndRead(c, k);
        }
        EndDrained(c, h);
        handles := handles[h := Enumerator(false, true, 0, [])];
        outstandingReplies := Unlinked(outstandingReplies, h);
        assert State() == AfterEnd(c, h);
        Freshness(State(), h);
        OneChange(c, State(), h);
        OneChangeWaits(c, State(), h);
        return None;
      }
      ElementRead(c, k);
      ghost var left := ReadBulk(Input()).value.1;
      var read := ReadBulkReply(ioStream);
      ghost var items := ItemsOf(owed[h]);
      handles := handles[h := Enumerator(true, true, handles[h].count - 1, [])];
      owed := owed[h := Reply.Multi(items[1..])];
      assert State() == AfterItem(c, h, items[1..], left);
      EnumeratedParts(c, State(), k);
      ForcedNone(c);
      TypesAreObjects(c, State());
      Freshness(State(), h);
      OneChange(c, State(), h);
      OneChangeWaits(c, State(), h);
      return Some(read.value);
    }

    /** The header of a multi-bulk reply, after everything in front of it. */
    method ReadHeaderOf(h: Hid)
      requires Valid() && Good(State()) && Closed(State()) && h in outstandingReplies && Known(State(), h)
      requires handles[h].Enumerator? && handles[h].conn && !handles[h].headerDone
      modifies this, ioStream, ioStream.inBuffer
      ensures Valid()
      ensures Enumerated(old(State()), State(), IndexOf(old(outstandingReplies), h))
      ensures Known(State(), h) && Views(State()) == Views(old(State())) && View(State(), h) == View(old(State()), h)
      ensures handles[h].Enumerator? && handles[h].conn && handles[h].headerDone
      decreases IndexOf(outstandingReplies, h), 1
    {
      hide Good, Closed, Views, View, Forced, Enumerated, Frame, Frames, ReadHeader, IndexOf;
      ghost var c, k := State(), IndexOf(outstandingReplies, h);
      ClearPendingResults(h);
      ghost var c1 := State();
      NextInLine(c, c1, k);
      ForcedParts(c, c1, k);
      ghost var k1 := IndexOf(c1.list, h);
      HeaderRead(c1, k1);
      ghost var items := ItemsOf(owed[h]);
      ghost var left := ReadHeader(Input()).value.1;
      var count := ReadMultiHeader(ioStream);
      handles := handles[h := Enumerator(true, true, count.value, [])];
      owed := owed[h := Reply.Multi(items)];
      assert State() == AfterItem(c1, h, items, left);
      EnumeratedAfterForced(c, c1, State(), k, k1);
      SameView(c, State(), h);
    }

    /** MultiBulkEnumerator::nextOptional; the outer None is its false. */
    method NextOptional(h: Hid) returns (next: Option<Option<Str>>)
      requires Valid() && Good(State()) && h in handles && handles[h].Enumerator?
      requires Closed(State()) || Drained(handles[h])
      modifies this, ioStream, ioStream.inBuffer
      ensures Valid()
      ensures Good(State()) && owed.Keys == handles.Keys && Known(State(), h) && handles[h].Enumerator?
      ensures var items := View(old(State()), h).items;
              if items == [] then next == None && Views(State()) == Views(old(State()))
              else next == Some(items[0]) && Views(State()) == Views(old(State()))[h := Items(items[1..])]
      ensures handles[h].conn == (old(handles[h].conn) && next.Some?)
      ensures old(handles[h].conn ==> handles[h].headerDone) ==>
                handles == old(handles)[h := handles[h]] && Undisturbed(old(State()), State(), h)
      ensures handles[h].conn ==> handles[h].headerDone
      ensures old(handles[h].conn) && Closed(old(State())) ==>
                Enumerated(old(State()), State(), IndexOf(old(outstandingReplies), h))
      ensures SameObjects(old(State()), State())
      ensures (Closed(State()) <==> Closed(old(State()))) && transaction == old(transaction)
      ensures Waits(State(), Behind(Waiting(old(State())), h), old(owed)) && Starts(old(State()), State(), h)
      ensures !old(handles[h].conn) ==>
                State() == old(State()).(handles := old(handles)[h := old(handles[h]).(pending := handles[h].pending)])
      decreases IndexOf(outstandingReplies, h), 2
    {
      hide Valid, Input, Good, Closed, Views, View, Forced, Enumerated, Frame, Frames, Part, ReadBulk, ReadHeader,
           IndexOf, SameObjects, Waits, Waiting, Behind, Starts, IsFresh, ChangesOne, Undisturbed;
      ghost var c, k := State(), IndexOf(outstandingReplies, h);
      GoodKnown(c);
      Freshness(c, h);
      if handles[h].pending != [] {
        PendingIsLoose(c, h);
        LooseTypes(c, h, handles[h].pending[1..]);
        TypesAreObjects(c, c.(handles := c.handles[h := c.handles[h].(pending := c.handles[h].pending[1..])]));
        next := Some(handles[h].pending[0]);
        handles := handles[h := handles[h].(pending := handles[h].pending[1..])];
        GoodKnown(State());
        LooseKeepsOpen(c, State(), h);
        Freshness(State(), h);
        OneChange(c, State(), h);
        OneChangeWaits(c, State(), h);
        return next;
      }
      if !handles[h].conn {
        LooseView(c, h);
        TypesKept(c);
        TypesAreObjects(c, c);
        OneChange(c, c, h);
        OneChangeWaits(c, c, h);
        return None;
      }
      ConnectedIsListed(c, h);
      if !handles[h].headerDone {
        ReadHeaderOf(h);
        ghost var c1 := State();
        EnumeratorStays(c, c1, k);
        EnumeratedParts(c, c1, k);
        next := NextElement(h);
        EnumeratedTwice(c, c1, State(), k, IndexOf(c1.list, h));
        EnumeratedWaits(c, State(), k);
        EnumeratedParts(c, State(), k);
        TypesAreObjects(c, State());
      } else {
        next := NextElement(h);
      }
      GoodKnown(State());
    }

    /** MultiBulkEnumerator::readResult */
    method ReadRest(h: Hid)
      requires Valid() && Good(State()) && Closed(State()) && h in outstandingReplies && handles[h].Enumerator?
      requires AllDrained(State(), outstandingReplies[..IndexOf(outstandingReplies, h)])
      modifies this, ioStream, ioStream.inBuffer
      ensures Valid()
      ensures Forced(old(State()), State(), IndexOf(old(outstandingReplies), h) + 1)
      decreases IndexOf(outstandingReplies, h), 3
    {
      hide Valid, Input, Good, Closed, Views, View, Forced, Enumerated, Frame, Frames, IndexOf, AllDrained,
           SameTypes, Draining, Rest, Fresh, Drained;
      ghost var c, k := State(), IndexOf(outstandingReplies, h);
      KnownAt(c, k);
      EnumeratorFacts(c, k);
      if !(handles[h].conn && (!handles[h].headerDone || handles[h].count > 0)) {
        DrainedIsRead(c, k);
        return;
      }
      GoodKnown(c);
      var readPending := [];
      var tmp := NextOptional(h);
      ghost var rest := Rest(View(c, h).items);
      DrainingStarts(c, State(), k, tmp);
      while tmp.Some?
        invariant Valid() && Draining(c, State(), k, readPending, tmp, rest)
        decreases tmp.Some?, |rest|
      {
        ghost var c1 := State();
        ghost var k1 := DrainingPlace(c, c1, k, readPending, tmp.value, rest);
        ghost var item, aside := tmp.value, readPending;
        readPending := readPending + [tmp.value];
        tmp := NextOptional(h);
        DrainingGoesOn(c, c1, State(), k, k1, aside, item, rest, tmp);
        rest := Rest(rest);
      }
      DrainingEnds(c, State(), k, readPending, rest);
      assert handles[h].pending + readPending == readPending;
      handles := handles[h := handles[h].(pending := handles[h].pending + readPending)];
    }

    /** A command: the server's reply will be `reply`, and `h` is the handle returned for it. */
    method Issue(h: Hid, kind: Kind, reply: Reply)
      requires Valid() && Good(State()) && h !in handles && WellTyped(kind, reply) && Fits(reply)
      modifies this, ioStream, ioStream.inBuffer
      ensures Valid()
      ensures Good(State()) && (Closed(State()) <==> Closed(old(State())))
      ensures State() == AfterIssue(old(State()), h, kind, reply)
      ensures Views(State()) == Views(old(State()))[h := AnswerOf(kind, reply)]
      ensures handles.Keys == old(handles).Keys + {h} && handles[h] == NewHandle(kind)
      ensures SameTypes(old(State()), State()) && transaction == old(transaction) && owed.Keys == handles.Keys
      ensures Waits(State(), Waiting(old(State())) + [h], old(owed)[h := reply])
      ensures forall g: Hid :: IsStarted(State(), g) ==> IsStarted(old(State()), g)
      ensures forall g | g in old(handles) && !old(handles)[g].QueuedReply? :: handles[g] == old(handles)[g]
    {
      hide Valid, Input, Good, Closed, Views, AnswerOf, WellTyped, Fits, Encode, NewHandle, Waits, Waiting, IsStarted;
      ghost var c := State();
      IssueGood(c, h, kind, reply);
      IssueWaits(c, h, kind, reply);
      var queueing := transaction.Some? && transaction.value in handles && IsOpen(handles[transaction.value]);
      Receive(if queueing then Encode(Status(QUEUED)) else Encode(reply));
      owed := owed[h := reply];
      outstandingReplies := outstandingReplies + [h];
      if transaction.Some? && transaction.value in handles && handles[transaction.value].QueuedReply? {
        var q := handles[transaction.value];
        handles := handles[transaction.value := q.(queued := q.queued + 1)];
      }
      handles := handles[h := NewHandle(kind)];
      assert State() == AfterIssue(c, h, kind, reply);
    }

    /** BaseReply's part of copying: `dst` takes over the wait of `src`, and its place in the list. */
    method TakeOver(dst: Hid, taken: Handle, src: Hid, left: Handle)
      requires Wired(State()) && CanTransfer(State(), dst, taken, src, left)
      modifies this
      ensures State() == Transferred(old(State()), dst, taken, src, left)
    {
      ghost var c := State();
      TransferKeepsList(c, dst, taken, src, left);
      hide Valid, Input, Healthy, Ordered, Counted, InPlace;
      if handles[src].conn {
        InPlaceIsReplaced(outstandingReplies, src, dst);
        outstandingReplies := InPlace(outstandingReplies, src, dst);
      }
      owed := owed[dst := owed[src]];
      handles := handles[dst := taken][src := left];
    }

    /** The copy constructors. */
    method Copy(dst: Hid, src: Hid)
      requires Good(State()) && dst !in handles && Known(State(), src) && !handles[src].QueuedReply?
      modifies this
      ensures Good(State()) && (Closed(State()) <==> Closed(old(State())))
      ensures Views(State()) == Views(old(State()))[dst := View(old(State()), src)][src :=
                (match old(handles)[src] case Simple(_, _, stored) => stored case _ => Items([]))]
      ensures Known(State(), src)
      ensures View(State(), src) == View(old(State()), src) <==> TellsTwice(old(State()), src)
      ensures handles == old(handles)[dst := old(handles)[src]][src := MovedFrom(old(handles)[src])]
      ensures owed.Keys == handles.Keys && transaction == old(transaction) && src in old(owed)
      ensures Waits(State(), Replaced(Waiting(old(State())), src, dst), old(owed)[dst := old(owed)[src]])
      ensures StartsAs(old(State()), State(), dst, src)
    {
      hide Valid, Input, Waits, Waiting, StartsAs, Replaced;
      ghost var c := State();
      var h := handles[src];
      var left := MovedFrom(h);
      TransferGood(c, dst, h, src, left);
      TransferViews(c, dst, h, src, left);
      TransferTells(c, dst, h, src, left);
      TransferWaits(c, dst, h, src, left);
      CopyTellsTwice(c, dst, src);
      hide Good, Closed, Views, View;
      TakeOver(dst, h, src, left);
    }

    /** operator= of the simple replies: the old wait is finished first. Assigned to itself, a handle is only read. */
    method AssignSimple(dst: Hid, src: Hid)
      requires Valid() && Good(State()) && Known(State(), dst) && Known(State(), src)
      requires handles[dst].Simple? && handles[src].Simple? && handles[dst].kind == handles[src].kind
      requires Closed(State()) || !handles[dst].conn
      modifies this, ioStream, ioStream.inBuffer
      ensures Valid()
      ensures Good(State()) && src in handles && handles[src].Simple? && SameObjects(old(State()), State())
      ensures (Closed(State()) <==> Closed(old(State()))) && owed.Keys == handles.Keys
      ensures transaction == old(transaction) && src in old(owed)
      ensures Views(State()) == Views(old(State()))[dst := View(old(State()), src)][src := handles[src].stored]
      ensures handles[src].stored == if src in Behind(Waiting(old(State())), dst) then Default(old(handles)[src].kind)
                                     else View(old(State()), src)
      ensures if dst == src then Waits(State(), Behind(Waiting(old(State())), dst), old(owed))
              else Waits(State(), Replaced(Behind(Waiting(old(State())), dst), src, dst),
                         old(owed)[dst := old(owed)[src]])
      ensures Starts(old(State()), State(), dst)
      ensures dst == src && !old(handles[dst].conn) ==> State() == old(State())
      ensures !old(handles[dst].conn) ==> handles == old(handles)[dst := old(handles)[src]][src := handles[src]]
    {
      hide Valid, Input, Good, Wired, Closed, Views, View, Forced, IndexOf, Waits, Waiting, Behind, Starts,
           StartsAs, Replaced, SameObjects, IsFresh;
      ghost var c := State();
      GoodKnown(c);
      var _ := Result(dst);
      ghost var c1 := State();
      ObjectsKeepTypes(c, c1);
      GoodKnown(c1);
      Unforced(c, c1, dst, src);
      Freshness(c1, dst);
      Freshness(c1, src);
      WaitingIn(c1, src);
      WaitsFacts(c1, Behind(Waiting(c), dst), c.owed);
      StoredOrDefault(c1, src);
      if dst == src {
        ViewIs(c, dst);
        return;
      }
      TakeSimple(dst, src);
      TransferChain(c, c1, State(), Behind(Waiting(c), dst), dst, src);
      SimpleStarts(c, c1, State(), dst, src);
      ObjectsTwice(c, c1, State());
    }

    /** The rest of that operator=, BaseReply's part and the stored result. */
    method TakeSimple(dst: Hid, src: Hid)
      requires Good(State()) && Known(State(), dst) && Known(State(), src) && dst != src
      requires handles[dst].Simple? && handles[src].Simple? && handles[dst].kind == handles[src].kind
        && !handles[dst].conn
      modifies this
      ensures Good(State()) && src in handles && handles[src].Simple? && SameObjects(old(State()), State())
      ensures (Closed(State()) <==> Closed(old(State()))) && owed.Keys == handles.Keys
      ensures transaction == old(transaction) && src in old(owed)
      ensures Views(State()) == Views(old(State()))[dst := View(old(State()), src)][src := handles[src].stored]
      ensures Waits(State(), Replaced(Waiting(old(State())), src, dst), old(owed)[dst := old(owed)[src]])
      ensures StartsAs(old(State()), State(), dst, src)
      ensures handles == old(handles)[dst := old(handles)[src]][src := handles[src]]
      ensures handles[src].stored == old(handles)[src].stored
    {
      hide Valid, Input, Good, Wired, Closed, Views, View, Waits, Waiting, StartsAs, Replaced;
      ghost var c := State();
      GoodKnown(c);
      GoodIsWired(c);
      var taken := handles[src];
      var left := MovedFrom(taken);
      TransferGood(c, dst, taken, src, left);
      TransferViews(c, dst, taken, src, left);
      TransferTells(c, dst, taken, src, left);
      TransferWaits(c, dst, taken, src, left);
      TakeOver(dst, taken, src, left);
    }

    /** MultiBulkEnumerator::next */
    method Next(h: Hid) returns (r: Outcome)
      requires Valid() && Good(State()) && Known(State(), h) && handles[h].Enumerator?
      requires Closed(State()) || Drained(handles[h])
      modifies this, ioStream, ioStream.inBuffer
      ensures Valid()
      ensures Good(State()) && owed.Keys == handles.Keys && Known(State(), h) && handles[h].Enumerator?
      ensures var items := View(old(State()), h).items;
              if items == [] then r == End && Views(State()) == Views(old(State()))
              else r == (if items[0].Some? then Element(items[0].value) else NullReply) &&
                   Views(State()) == Views(old(State()))[h := Items(items[1..])]
      ensures handles[h].conn == (old(handles[h].conn) && r != End)
      ensures SameObjects(old(State()), State()) && transaction == old(transaction)
      ensures Closed(State()) <==> Closed(old(State()))
      ensures handles[h].conn ==> handles[h].headerDone
      ensures old(handles[h].conn ==> handles[h].headerDone) ==>
                handles == old(handles)[h := handles[h]] && Undisturbed(old(State()), State(), h)
    {
      hide Valid, Input, Good, Closed, Views, View, Forced, Enumerated, IndexOf, SameObjects, Waits, Waiting,
           Starts, Undisturbed;
      var next := NextOptional(h);
      match next
      case None => return End;
      case Some(None) => return NullReply;
      case Some(Some(text)) => return Element(text);
    }

    /** Discarding a started enumerator's unread elements with next(); false when a nil element throws. */
    method Drain(h: Hid) returns (ok: bool)
      requires Valid() && Good(State()) && Closed(State()) && Known(State(), h) && handles[h].Enumerator?
      requires handles[h].conn && handles[h].headerDone
      modifies this, ioStream, ioStream.inBuffer
      ensures Valid()
      ensures Good(State()) && Closed(State()) && owed.Keys == handles.Keys && Known(State(), h)
        && handles[h].Enumerator?
      ensures handles == old(handles)[h := handles[h]] && handles[h].conn == !ok && transaction == old(transaction)
      ensures handles[h].conn ==> handles[h].headerDone
      ensures ok <==> None !in View(old(State()), h).items
      ensures ok ==> AfterNil(View(old(State()), h).items) == []
      ensures Views(State()) == Views(old(State()))[h := Items(AfterNil(View(old(State()), h).items))]
      ensures Undisturbed(old(State()), State(), h)
    {
      hide Valid, Input, Good, Closed, Views, View, Forced, Enumerated, IndexOf, SameObjects, Undisturbed;
      ghost var c := State();
      GoodKnown(c);
      ViewIs(c, h);
      EnumeratorTells(c, h);
      StaysUndisturbed(c, h);
      ghost var rest := View(c, h).items;
      ok := true;
      while true
        invariant Valid() && Good(State()) && Closed(State()) && owed.Keys == handles.Keys && Known(State(), h)
        invariant handles[h].Enumerator? && handles[h].conn && handles[h].headerDone && transaction == old(transaction)
        invariant handles == old(handles)[h := handles[h]] && Undisturbed(c, State(), h)
        invariant AfterNil(rest) == AfterNil(View(c, h).items) && (None in rest <==> None in View(c, h).items)
        invariant View(State(), h) == Items(rest) && Views(State()) == Views(c)[h := Items(rest)]
        decreases |rest|
      {
        ghost var c1 := State();
        var r := Next(h);
        UndisturbedTwice(c, c1, State(), h);
        if r == End {
          return true;
        }
        ViewOfUpdate(c1, State(), h, rest[1..]);
        if r == NullReply {
          return false;
        }
        assert rest == [rest[0]] + rest[1..];
        rest := rest[1..];
      }
    }

    /** The first part of the enumerators' operator=: discarding what is unread; false when a nil element throws. */
    method Discard(h: Hid) returns (ok: bool)
      requires Valid() && Good(State()) && Known(State(), h) && handles[h].Enumerator?
      requires Closed(State()) || Drained(handles[h])
      modifies this, ioStream, ioStream.inBuffer
      ensures Valid()
      ensures Good(State()) && owed.Keys == handles.Keys && SameObjects(old(State()), State())
      ensures handles == old(handles)[h := handles[h]] && handles[h].Enumerator? && Known(State(), h)
      ensures transaction == old(transaction) && (Closed(State()) <==> Closed(old(State())))
      ensures Closed(State()) || Drained(handles[h])
      ensures !ok <==> old(handles[h].conn && handles[h].count > 0) && None in View(old(State()), h).items
      ensures !ok ==> handles[h].conn && handles[h].headerDone
      ensures !ok ==> Views(State()) == Views(old(State()))[h := Items(AfterNil(View(old(State()), h).items))]
      ensures ok ==> Views(State()) == Views(old(State()))[h := View(State(), h)]
      ensures ok ==> (Unread(handles[h]) <==> old(handles[h].conn && !handles[h].headerDone))
      ensures Undisturbed(old(State()), State(), h)
    {
      hide Valid, Input, Good, Closed, Views, View, Undisturbed, SameObjects, AfterNil;
      ghost var c := State();
      GoodKnown(c);
      EnumeratorTells(c, h);
      UnreadFrame(c, h);
      StaysUndisturbed(c, h);
      ObjectsKept(c);
      ViewIs(c, h);
      ok := true;
      if handles[h].conn && handles[h].count > 0 {
        ok := Drain(h);
        OneType(c, State(), h);
        ViewAt(State(), h);
      }
    }

    /**
     operator= of the enumerators. It throws when an unread element is nil; it puts the stream out of
     step exactly when the old reply's header was unread; and what `src` had put aside is not taken over.
     */
    method AssignEnumerator(dst: Hid, src: Hid) returns (thrown: bool)
      requires Valid() && Good(State()) && CanTake(State(), dst, src)
      modifies this, ioStream, ioStream.inBuffer
      ensures Valid()
      ensures owed.Keys == handles.Keys && SameObjects(old(State()), State()) && transaction == old(transaction)
      ensures Closed(State()) <==> Closed(old(State()))
      ensures thrown <==> old(handles[dst].conn && handles[dst].count > 0) && None in View(old(State()), dst).items
      ensures thrown ==>
                Good(State()) && handles[dst].conn && handles[dst].headerDone && Undisturbed(old(State()), State(), dst)
      ensures thrown ==> Views(State()) == Views(old(State()))[dst := Items(AfterNil(View(old(State()), dst).items))]
      ensures !thrown ==> (Good(State()) <==> !old(handles[dst].conn && !handles[dst].headerDone))
      ensures !thrown ==>
                Views(State()) == Views(old(State()))[dst := if old(handles[src].conn) then View(old(State()),
                  src) else Items([])]
                                                     [src := Spent(old(handles[src]))]
      ensures handles == old(handles)[dst := handles[dst]][src := handles[src]]
      ensures if thrown then handles[src] == old(handles[src]) && handles[dst].Enumerator?
              else SameFields(old(handles[src]), handles[dst])
      ensures !thrown && !IsFresh(old(State()), dst) ==>
                Waits(State(), Replaced(Waiting(old(State())), src, dst), old(owed)[dst := old(owed[src])]) &&
                StartsAs(old(State()), State(), dst, src)
    {
      hide Valid, Input, Good, Wired, Closed, Views, View, AfterNil, Waits, Waiting, StartsAs, Replaced,
           Undisturbed, SameObjects, IsFresh, IsStarted, Spent, Drained, SameFields, Unread;
      ghost var c := State();
      GoodKnown(c);
      Freshness(c, dst);
      ViewAt(c, src);
      var ok := Discard(dst);
      ghost var c1 := State();
      NotUpdated(c.handles, dst, c1.handles[dst], src);
      if !ok {
        return true;
      }
      ViewAt(c1, src);
      Freshness(c1, dst);
      NotUpdated(Views(c), dst, View(c1, dst), src);
      TakePlace(dst, src);
      UpdatedAgain(c.handles, dst, c1.handles[dst], handles[dst]);
      UpdatedAgain(Views(c), dst, View(c1, dst), if c.handles[src].conn then View(c, src) else Items([]));
      ObjectsTwice(c, c1, State());
      if !IsFresh(c, dst) {
        UndisturbedParts(c, c1, dst);
        StillNotFresh(c, c1, dst);
        TransferChain(c, c1, State(), Waiting(c), dst, src);
        StartsAsChain(c, c1, State(), dst, src);
      }
      return false;
    }

    /** The rest of that operator=: pending.clear(), the places in the list, and the fields. */
    method TakePlace(dst: Hid, src: Hid)
      requires Good(State()) && CanTake(State(), dst, src)
      modifies this
      ensures owed.Keys == handles.Keys && SameObjects(old(State()), State()) && transaction == old(transaction)
      ensures Closed(State()) <==> Closed(old(State()))
      ensures Good(State()) <==> !Unread(old(handles[dst]))
      ensures Views(State()) == Views(old(State()))[dst := if old(handles[src].conn) then View(old(State()),
        src) else Items([])]
                                                   [src := Spent(old(handles[src]))]
      ensures handles == old(handles)[dst := handles[dst]][src := handles[src]]
        && SameFields(old(handles[src]), handles[dst])
      ensures !IsFresh(old(State()), dst) ==>
                Waits(State(), Replaced(Waiting(old(State())), src, dst), old(owed)[dst := old(owed[src])]) &&
                StartsAs(old(State()), State(), dst, src)
    {
      hide Valid, Input, Good, Wired, Closed, Views, View, Unread, Waits, Waiting, StartsAs, Replaced, IsFresh,
           IsStarted, SameObjects, Unlinked, Spent, Drained, CanTransfer, Transferred;
      ghost var c := State();
      TakeIsTransfer(c, dst, src);
      ResetGood(c, dst);
      TakeKept(c, dst, src);
      TakeTells(c, dst, src);
      TakeTypes(c, dst, src);
      if !IsFresh(c, dst) {
        TakeWaits(c, dst, src);
      }
      outstandingReplies := Unlinked(outstandingReplies, dst);
      handles := handles[dst := Enumerator(false, handles[dst].headerDone, handles[dst].count, [])];
      assert State() == Reset(c, dst);
      var h := handles[src];
      TakeOver(dst, Enumerator(h.conn, h.headerDone, h.count, []), src, Enumerator(false, h.headerDone, h.count,
        h.pending));
      assert State() == AfterTake(c, dst, src);
    }

    /** The end of a reply object: its link and its storage. */
    method Free(h: Hid)
      requires Good(State()) && Known(State(), h) && !handles[h].QueuedReply?
        && (Closed(State()) || Drained(handles[h]))
      modifies this
      ensures State() == Freed(old(State()), h) && owed.Keys == handles.Keys
        && (Closed(State()) <==> Closed(old(State())))
      ensures Good(State()) <==> Frame(old(State()), h) == []
      ensures Views(State()) == Views(old(State())) - {h}
      ensures !IsFresh(old(State()), h) ==> Undisturbed(old(State()), State(), h)
    {
      hide Valid, Input, Good, Closed, Views, Frame, Unlinked, Undisturbed, IsFresh;
      ghost var c := State();
      Loosened(c, h);
      if !IsFresh(c, h) {
        FreeWaits(c, h);
      }
      outstandingReplies := Unlinked(outstandingReplies, h);
      handles := handles - {h};
      owed := owed - {h};
    }

    /**
     The destructors. The stream stays in step exactly when no enumerator goes with its header unread or
     with elements behind a nil one.
     */
    method Destroy(h: Hid)
      requires Valid() && Good(State()) && Known(State(), h) && !handles[h].QueuedReply?
        && (Closed(State()) || Drained(handles[h]))
      modifies this, ioStream, ioStream.inBuffer
      ensures Valid()
      ensures owed.Keys == handles.Keys && Views(State()) == Views(old(State())) - {h}
      ensures handles.Keys == old(handles).Keys - {h} && (Closed(State()) <==> Closed(old(State())))
      ensures transaction == old(transaction)
      ensures forall g | g in handles :: SameType(old(handles)[g], handles[g])
      ensures Good(State()) <==>
              !(old(handles[h].Enumerator? && handles[h].conn) &&
                (old(!handles[h].headerDone) || AfterNil(View(old(State()), h).items) != []))
      ensures !IsFresh(old(State()), h) ==> handles == old(handles) - {h}
      ensures old(handles[h].Simple? || !IsFresh(State(), h)) ==>
                Waits(State(), Behind(Waiting(old(State())), h), old(owed)) && Starts(old(State()), State(), h)
    {
      hide Valid, Input, Good, Wired, Closed, Views, View, Frame, Aligned, AfterNil, Forced, SameObjects, SameType,
           Waits, Waiting, Undisturbed, Starts, Behind, IsFresh, IsStarted;
      ghost var c := State();
      GoodKnown(c);
      Freshness(c, h);
      if handles[h].Simple? {
        var _ := Result(h);
        GoodKnown(State());
        ObjectsKeepTypes(c, State());
        UnlistedFrame(State(), h);
      } else {
        EnumeratorTells(c, h);
        UnreadFrame(c, h);
        StaysUndisturbed(c, h);
        if handles[h].conn && handles[h].count > 0 {
          var _ := Drain(h);
        }
        ghost var c1 := State();
        OthersKeepTypes(c, c1, h);
        GoodKnown(c1);
        ViewAt(c1, h);
        ViewAt(c, h);
        UnreadFrame(c1, h);
        NoItemsLeft();
        if !IsFresh(c, h) {
          UndisturbedStarts(c, c1, h);
        }
      }
      ghost var c2 := State();
      Freshness(c2, h);
      Free(h);
      if c.handles[h].Simple? || !IsFresh(c, h) {
        ThenUndisturbed(c, c2, State(), h);
      }
    }

    /**
     Transaction's constructor. It throws when the connection already has a transaction, whose count is
     then one too high, so that an open one can no longer be committed; it does not look whether replies
     are outstanding, and stream and list stay in step exactly when none is.
     */
    method BeginTransaction(q: Hid) returns (ok: bool)
      requires Valid() && Good(State()) && q !in handles && AllKnown(State(), outstandingReplies)
      modifies this, ioStream, ioStream.inBuffer
      ensures Valid()
      ensures owed.Keys == handles.Keys && SameTypes(old(State()), State()) && (ok <==> old(transaction) == None)
      ensures ok ==> (Good(State()) <==> AllDrained(old(State()), old(outstandingReplies)))
      ensures ok ==> State() == AfterBegin(old(State()), q)
      ensures ok ==> InTransaction(State()) && transaction == Some(q) && handles == old(handles)[q := handles[q]]
      ensures ok ==> Views(State()) == Views(old(State()))[q := Flag(false)] && Undisturbed(old(State()), State(), q)
      ensures !ok ==> State() == old(State()).(handles := CountedHandles(old(State())))
      ensures !ok ==> (Good(State()) <==> Closed(old(State()))) && (Closed(State()) <==> Closed(old(State())))
      ensures !ok ==> Views(State()) == Views(old(State())) && SameObjects(old(State()), State()) &&
                      Undisturbed(old(State()), State(), old(transaction.value))
    {
      hide Valid, Input, Good, Closed, Views, View, Encode, AllDrained, AllKnown, Frames, Undisturbed, SameObjects;
      ghost var c := State();
      GoodKnown(c);
      if transaction.Some? {
        NestedBegin(c);
        KeysCounted(c);
        CountedWaits(c);
        CountedIsOneChange(c);
        CountedViews(c);
        LooseCount(c);
        ObjectsKeepTypes(c, c.(handles := CountedHandles(c)));
        var q := transaction.value;
        handles := handles[q := handles[q].(queued := handles[q].queued + 1)];
        return false;
      }
      BeginGoodIff(c, q);
      BeginWaits(c, q);
      outstandingReplies := outstandingReplies + [q];
      handles := handles[q := QueuedReply(true, 0, false)];
      Receive(Encode(Status(OK)));
      owed := owed[q := Status(OK)];
      transaction := Some(q);
      assert State() == AfterBegin(c, q);
      return true;
    }

    /**
     Transaction::commit with QueuedReply::readResult; `reply` is what the server sends for EXEC. The
     stream is left at the first element of that reply, for the handles to read in any order.
     */
    method CommitTransaction(reply: Str) returns (ok: bool)
      requires Valid() && Good(State()) && transaction.Some? && Known(State(), transaction.value)
      requires InTransaction(State()) ==> AnswersExec(State(), reply) && handles[transaction.value].queued < TWO_TO_63
      modifies this, ioStream, ioStream.inBuffer
      ensures Valid()
      ensures ok && Good(State()) && Closed(State()) && owed.Keys == handles.Keys
      ensures Views(State()) == Views(old(State())) && outstandingReplies == old(outstandingReplies)
      ensures transaction == old(transaction) && SameObjects(old(State()), State())
      ensures handles == old(handles)[old(transaction).value := handles[old(transaction).value]]
      ensures old(InTransaction(State())) ==> StandsBehind(State(), old(transaction).value)
      ensures Undisturbed(old(State()), State(), old(transaction).value)
    {
      hide Valid, Input, Good, Closed, Views, View, Encode, AllKnown, Frames, QueuedLines, ReadStatus, ReadInteger,
           Answers, EncodeHeader, Undisturbed, SameObjects, Waiting;
      ghost var c := State();
      GoodKnown(c);
      OpenIsTransaction(c);
      var q := transaction.value;
      if !(handles[q].QueuedReply? && handles[q].conn) {
        StaysUndisturbed(c, q);
        ObjectsKept(c);
        return true;
      }
      ghost var k := IndexOf(outstandingReplies, q);
      ghost var gap := BeforeExec(c, k);
      OpenWaiting(c, k);
      Receive(reply);
      var count := handles[q].queued;
      handles := handles[q := QueuedReply(false, count, true)];
      gap := ReadLines(q, count, gap, reply);
      ghost var answers := Answers(c, c.list[k + 1..]);
      assert Input() == gap + EncodeHeader(count) + answers;
      HeaderIsReadAsInteger(gap, count, answers);
      var expectedCount := ReadCount();
      CommitAligned(c, k);
      CommitViews(c, k);
      CommitWaits(c, k);
      assert State() == AfterCommit(c, k);
      GoodKnown(State());
      return count == expectedCount;
    }

    /**
     clearPendingResults for a handle of a transaction that is still open: the lines of the transaction are
     read, and then the first handle waited for finds nothing to read, whatever it is.
     */
    method ForceTooEarly(h: Hid) returns (blocked: Hid)
      requires Valid() && Good(State()) && InTransaction(State()) && IsFresh(State(), h)
      modifies this, ioStream, ioStream.inBuffer
      ensures Valid()
      ensures Waiting(old(State())) != [] && blocked == Waiting(old(State()))[0]
      ensures Blank(Input()) && FindsNothing(Input())
    {
      hide Valid, Input, Good, Closed, Waiting, Encode, QueuedLines, FindsNothing;
      ghost var c := State();
      ghost var k := OpenPlaces(c, h);
      ghost var gap := BeforeExec(c, k);
      GoodDistinct(c);
      var i := 0;
      blocked := outstandingReplies[0];
      while blocked != h && !Fresh(handles[blocked])
        invariant i <= k + 1 && outstandingReplies == c.list && blocked == c.list[i] && blocked in handles
        invariant i <= k ==> handles == c.handles && Input() == c.input
        invariant Valid() && (i == k + 1 ==> Blank(Input()))
        invariant forall j | k < j < |c.list| :: c.list[j] in handles && handles[c.list[j]] == c.handles[c.list[j]]
        decreases |c.list| - i
      {
        if handles[blocked].QueuedReply? && handles[blocked].conn {
          var queued := handles[blocked].queued;
          handles := handles[blocked := QueuedReply(false, queued, false)];
          assert gap + (Encode(Status(OK)) + QueuedLines(queued)) + [] == Input();
          ghost var _ := ReadLines(blocked, queued, gap, []);
        }
        i := i + 1;
        blocked := outstandingReplies[i];
      }
      NothingToRead(Input());
    }

    /** The start of QueuedReply::readResult: the +OK of MULTI and one +QUEUED for every queued handle. */
    method ReadLines(q: Hid, count: nat, ghost gap: Str, ghost rest: Str) returns (ghost left: Str)
      requires Valid() && Blank(gap) && Input() == gap + (Encode(Status(OK)) + QueuedLines(count)) + rest
      modifies ioStream, ioStream.inBuffer
      ensures Valid() && Blank(left) && Input() == left + rest && left == [NEWLINE]
    {
      hide Valid, Input, Encode, QueuedLines, ReadStatus;
      assert Input() == gap + (Encode(Status(OK)) + (QueuedLines(count) + rest));
      LineRead(gap, OK, QueuedLines(count) + rest);
      ReadLine();
      left := [NEWLINE];
      for i := 0 to count
        invariant Valid() && Blank(left) && left == [NEWLINE] && Input() == left + (QueuedLines(count - i) + rest)
      {
        QueuedFirst(count - i);
        ghost var more := QueuedLines(count - i - 1) + rest;
        assert Input() == left + (Encode(Status(QUEUED)) + more);
        LineRead(left, QUEUED, more);
        ReadLine();
      }
      NoLines();
      assert [] + rest == rest;
    }

    /** Transaction::abort, up to the answer to DISCARD, which is +OK. */
    method ReadDiscard(q: Hid)
      requires Valid() && Good(State()) && q in outstandingReplies && Known(State(), q)
      requires IsOpen(handles[q])
      modifies ioStream, ioStream.inBuffer
      ensures Valid() && Input() == [NEWLINE]
    {
      hide Valid, Input, Good, Encode, QueuedLines, ReadStatus;
      ghost var gap := BeforeExec(State(), IndexOf(outstandingReplies, q));
      Receive(Encode(Status(OK)));
      gap := ReadLines(q, handles[q].queued, gap, Encode(Status(OK)));
      assert Encode(Status(OK)) + [] == Encode(Status(OK));
      LineRead(gap, OK, []);
      ReadLine();
    }

    /**
     The end of the Transaction object. Without a commit before, it aborts: DISCARD is answered with +OK,
     and stream and list stay in step if and only if no command was queued.
     */
    method EndTransaction()
      requires Valid() && Good(State()) && transaction.Some? && Known(State(), transaction.value)
      modifies this, ioStream, ioStream.inBuffer
      ensures Valid()
      ensures owed.Keys == handles.Keys && transaction == None && Closed(State())
      ensures handles == old(handles) - {old(transaction).value}
      ensures Good(State()) <==> !(old(InTransaction(State())) && Waiting(old(State())) != [])
      ensures Views(State()) == Views(old(State())) - {old(transaction).value}
      ensures Undisturbed(old(State()), State(), old(transaction).value)
    {
      hide Valid, Input, Good, Closed, Views, View, Encode, AllKnown, Frames, QueuedLines, ReadStatus, Unlinked,
           Undisturbed, Waiting;
      ghost var c := State();
      GoodKnown(c);
      OpenIsTransaction(c);
      KeysCounted(c);
      GoodDistinct(c);
      var q := transaction.value;
      if handles[q].QueuedReply? && handles[q].conn {
        ghost var k := IndexOf(outstandingReplies, q);
        ReadDiscard(q);
        AbortGood(c, k);
        AbortKeeps(c, k);
      } else {
        EndGood(c, q);
        EndWaits(c, q);
        EndCloses(c, q);
      }
      transaction := None;
      outstandingReplies := Unlinked(outstandingReplies, q);
      handles := handles - {q};
      owed := owed - {q};
    }
  }
}
