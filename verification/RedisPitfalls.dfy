/**
 Short histories of a new connection on which the source fails its client: each condition a client must
 keep can be broken in a few calls.
 */
module RedisPitfalls {
  import opened Bytes
  import opened RedisWire
  import opened RedisPipeline
  import opened RedisHandles
  import opened RedisTransactions
  import opened RedisWaiting
  import opened RedisConnection

  const X: Str := [0x78]

  /** An enumerator that something was read behind has no bytes left in the stream. */
  lemma PutAside(c: Conn, h: Hid)
    requires Good(c) && Known(c, h) && c.handles[h].Enumerator? && !IsFresh(c, h) && !IsStarted(c, h)
    requires View(c, h).Items? && View(c, h).items != []
    ensures !c.handles[h].conn
  {
    Freshness(c, h);
    UnreadFrame(c, h);
  }

  lemma NothingWaits(c: Conn)
    requires c.list == []
    ensures Waiting(c) == []
  {
  }

  lemma BehindTheSecond()
    ensures Behind([0, 1, 2], 1) == [2] && Behind([2], 2) == []
  {
    assert [0, 1, 2][1..] == [1, 2];
    assert IndexOf([0, 1, 2], 1) == 1;
  }

  /** A list of one element, a number and an empty list are asked for, in this order. */
  method AskForThree() returns (c: Connection)
    ensures fresh(c) && fresh(c.ioStream) && fresh(c.ioStream.inBuffer) && c.Valid()
    ensures Good(c.State()) && Closed(c.State()) && c.owed.Keys == c.handles.Keys == {0, 1, 2}
    ensures Views(c.State()) == map[0 := Items([Some(X)]), 1 := Number(7), 2 := Items([])]
    ensures c.handles[0].Enumerator? && c.handles[1].Simple? && c.handles[2].Enumerator?
      && Waiting(c.State()) == [0, 1, 2]
  {
    hide Connection.Valid, Connection.Input, Good, Closed, Views, Waiting, IsStarted, SameTypes, AfterIssue;
    c := new Connection();
    NothingWaits(c.State());
    c.Issue(0, MultiBulk, Reply.Multi([Some(X)]));
    c.Issue(1, Int, Integer(7));
    c.Issue(2, MultiBulk, Reply.Multi([]));
  }

  /** The number is forced, which puts the first list aside, and the empty list read to its end. */
  method ForceTheSecond() returns (c: Connection)
    ensures fresh(c) && fresh(c.ioStream) && fresh(c.ioStream.inBuffer) && c.Valid()
    ensures Good(c.State()) && Closed(c.State()) && c.owed.Keys == c.handles.Keys == {0, 1, 2}
    ensures Views(c.State()) == map[0 := Items([Some(X)]), 1 := Number(7), 2 := Items([])]
    ensures c.handles[0].Enumerator? && !c.handles[0].conn && c.handles[2].Enumerator? && !c.handles[2].conn
  {
    hide Good, Closed, Views, View, Waiting, IsStarted, SameTypes, Behind, Forced, Enumerated, IsFresh, Drained;
    c := AskForThree();
    ghost var before := c.State();
    BehindTheSecond();
    ViewAt(before, 2);
    var _ := c.Result(1);
    ghost var c1 := c.State();
    GoodKnown(c1);
    ViewAt(c1, 2);
    ObjectsKeepTypes(before, c1);
    var _ := c.NextOptional(2);
    ObjectsKeepTypes(c1, c.State());
    ViewAt(c.State(), 0);
    WaitingIn(c.State(), 0);
    PutAside(c.State(), 0);
  }

  /** What the first list had put aside is lost to the enumerator it is assigned to, and stays with its source. */
  method PutAsideIsLost() returns (thrown: bool, lost: Option<Option<Str>>, kept: Option<Option<Str>>)
    ensures !thrown && lost == None && kept == Some(Some(X))
  {
    hide Good, Closed, Views, View, Waiting, IsStarted, SameTypes, Behind, Forced, Enumerated, IsFresh, SameObjects;
    var c := ForceTheSecond();
    ghost var before := c.State();
    ViewAt(before, 0);
    LooseView(before, 0);
    thrown := c.AssignEnumerator(2, 0);
    ghost var taken := c.State();
    ViewAt(taken, 2);
    ObjectsKeepTypes(before, taken);
    lost := c.NextOptional(2);
    ViewAt(c.State(), 0);
    ObjectsKeepTypes(taken, c.State());
    kept := c.NextOptional(0);
  }

  /** An enumerator destroyed with its header unread leaves its reply to the handles behind it. */
  method DroppedUnread() returns (c: Connection)
    ensures c.handles == map[] && !Good(c.State())
  {
    hide Good, Closed, Views, View, Waiting, IsStarted, SameTypes;
    c := new Connection();
    c.Issue(0, MultiBulk, Reply.Multi([Some(X)]));
    GoodKnown(c.State());
    c.Destroy(0);
  }

  /** The second of two transactions throws, and the first can no longer be committed. */
  method SecondTransaction() returns (c: Connection, first: bool, second: bool)
    ensures first && !second && c.transaction == Some(0) && !Good(c.State())
  {
    hide Good, Closed, Views, Undisturbed;
    c := new Connection();
    first := c.BeginTransaction(0);
    GoodKnown(c.State());
    OpenIsTransaction(c.State());
    second := c.BeginTransaction(1);
  }

  /** A transaction begun while a number is outstanding takes the number for its own reply, and throws. */
  method BegunTooEarly() returns (c: Connection, ok: bool)
    ensures ok && !Good(c.State()) && ReadStatus(c.Input()) == None
  {
    hide Good, Closed, Views, Undisturbed, Encode, ReadStatus;
    c := new Connection();
    c.Issue(0, Int, Integer(7));
    ghost var before := c.State();
    GoodKnown(before);
    ok := c.BeginTransaction(1);
    EarlyBeginThrows(before, 1, 0, []);
    assert AfterBegin(before, 1).input + [] == c.Input();
  }

  /** A transaction that ends without a commit leaves its commands waiting for ever. */
  method Aborted() returns (c: Connection, ok: bool)
    ensures ok && c.transaction == None && !Good(c.State()) && Waiting(c.State()) == [1]
  {
    hide Good, Closed, Views, IsStarted, SameTypes, Undisturbed, Waiting, Encode;
    c := new Connection();
    ghost var before := c.State();
    NothingWaits(before);
    GoodKnown(before);
    ok := c.BeginTransaction(0);
    UndisturbedParts(before, c.State(), 0);
    ghost var begun := c.State();
    c.Issue(1, Int, Integer(7));
    ghost var issued := c.State();
    OpenIsTransaction(begun);
    OpenIsTransaction(issued);
    c.EndTransaction();
    UndisturbedParts(issued, c.State(), 0);
  }

  /** A copy of a number not yet read takes the reply with it: the original tells 0 from then on. */
  method CopyForgets() returns (copied: Answer, original: Answer)
    ensures copied == Number(7) && original == Number(0)
  {
    hide Connection.Valid, Connection.Input, Good, Closed, Views, View, Waiting, IsStarted, AfterIssue, Forced,
         Starts, StartsAs, Behind, Replaced, SameObjects, TellsTwice;
    var c := new Connection();
    c.Issue(0, Int, Integer(7));
    ghost var before := c.State();
    GoodKnown(before);
    ViewAt(before, 0);
    c.Copy(1, 0);
    ghost var moved := c.State();
    ViewAt(moved, 1);
    copied := c.Result(1);
    ghost var read := c.State();
    GoodKnown(read);
    ObjectsKeepTypes(moved, read);
    ViewAt(read, 0);
    original := c.Result(0);
  }

  /** A command of a transaction that is forced before the commit waits for what the server has not sent. */
  method ForcedBeforeCommit() returns (c: Connection, blocked: Hid)
    ensures blocked == 1 && FindsNothing(c.Input())
  {
    hide Connection.Valid, Connection.Input, Good, Closed, Views, IsStarted, SameTypes, Undisturbed, Waiting,
         Encode, FindsNothing;
    c := new Connection();
    ghost var before := c.State();
    NothingWaits(before);
    GoodKnown(before);
    var _ := c.BeginTransaction(0);
    UndisturbedParts(before, c.State(), 0);
    ghost var begun := c.State();
    c.Issue(1, Int, Integer(7));
    OpenIsTransaction(begun);
    OpenIsTransaction(c.State());
    WaitingIn(c.State(), 1);
    blocked := c.ForceTooEarly(1);
  }
}
