/**
 The client of a connection as it sees itself: what its handles have to tell if every reply is there at
 once, what it still waits for, which calls it may make, and what each of them tells it. Two losses are the
 code's own: a copy takes a reply not yet read away from its original, and an assignment does not take over
 what an enumerator has put aside.
 */
module RedisClient {
  import opened Bytes
  import opened RedisWire
  import opened RedisPipeline
  import opened RedisHandles
  import opened RedisWaiting

  datatype Call =
    | Command(h: Hid, kind: Kind, reply: Reply)
    | Force(h: Hid)
    | NextOf(h: Hid)
    | CopyOf(h: Hid, src: Hid)
    | Overwrite(h: Hid, src: Hid)
    | Drop(h: Hid)
    | Begin(q: Hid)
    | Commit(exec: Str)
    | Finish

  datatype Deal = NoDeal | Open(q: Hid) | Over(q: Hid)

  /**
   The client without a pipeline: what each of its handles has to tell, their kinds, the objects in use,
   and its transaction. From its own calls it also knows for which commands it still waits, with their
   replies, and which enumerator it is reading.
   */
  datatype Client = Client(views: map<Hid, Answer>, kinds: map<Hid, Kind>, used: set<Hid>,
                           waiting: seq<Hid>, replies: map<Hid, Reply>, reading: Option<Hid>, deal: Deal)

  const NEW_CLIENT := Client(map[], map[], {}, [], map[], None, NoDeal)

  predicate Owns(k: Client, h: Hid) {
    h in k.views && h in k.kinds && h in k.used && (k.kinds[h] == MultiBulk ==> k.views[h].Items?)
  }

  /** Until the commit there is no reply to the commands of a transaction. */
  predicate MayRead(k: Client, h: Hid) {
    k.deal.Open? ==> h !in k.waiting
  }

  function ReplyTexts(replies: map<Hid, Reply>, w: seq<Hid>): Str {
    if w == [] then [] else (if w[0] in replies then Encode(replies[w[0]]) else []) + ReplyTexts(replies, w[1..])
  }

  /**
   Replies are well typed, and handles are used as their types allow. An enumerator may be dropped when
   its header has been read and no element would be left behind a nil one, and assigned over, by another,
   when its header has been read. A transaction begins when nothing is outstanding, and ends with a commit
   or without commands.
   */
  predicate Legal(k: Client, call: Call) {
    match call
    case Command(h, kind, reply) => h !in k.used && WellTyped(kind, reply) && Fits(reply)
    case Force(h) => Owns(k, h) && k.kinds[h] != MultiBulk && MayRead(k, h)
    case NextOf(h) => Owns(k, h) && k.kinds[h] == MultiBulk && MayRead(k, h)
    case CopyOf(h, src) => h !in k.used && Owns(k, src)
    case Overwrite(h, src) =>
      && Owns(k, h) && Owns(k, src) && k.kinds[h] == k.kinds[src] && MayRead(k, h)
      && (k.kinds[h] == MultiBulk ==> h !in k.waiting && h != src)
    case Drop(h) =>
      && Owns(k, h) && MayRead(k, h)
      && (k.kinds[h] == MultiBulk ==> h !in k.waiting && (k.reading == Some(h) ==> AfterNil(k.views[h].items) == []))
    case Begin(q) =>
      (match k.deal
       case NoDeal => q !in k.used && k.waiting == [] && (k.reading.Some? ==> IsRead(k, k.reading.value))
       case Over(_) => q !in k.used
       case Open(_) => false)
    case Commit(exec) =>
      && !k.deal.NoDeal?
      && (k.deal.Open? ==>
            |k.waiting| < TWO_TO_63 && exec == EncodeHeader(|k.waiting|) + ReplyTexts(k.replies, k.waiting))
    case Finish => !k.deal.NoDeal? && (k.deal.Open? ==> k.waiting == [])
  }

  predicate IsRead(k: Client, h: Hid) {
    h in k.views && k.views[h] == Items([])
  }

  /** An unread element that is nil makes the assignment throw. */
  predicate Throws(k: Client, call: Call) {
    match call
    case Overwrite(h, _) =>
      k.reading == Some(h) && h in k.views && k.views[h].Items? && None in k.views[h].items
    case Begin(_) => k.deal.Over?
    case _ => false
  }

  /** What forcing `h`, or starting to read it, takes off the client's list. */
  function Reached(k: Client, h: Hid, reading: Option<Hid>): Client {
    k.(waiting := Behind(k.waiting, h), reading := if h in k.waiting then reading else k.reading)
  }

  /** An enumerator whose elements, if it has any left, are no longer in the stream. */
  predicate IsAside(k: Client, h: Hid) {
    h in k.kinds && k.kinds[h] == MultiBulk && h !in k.waiting && k.reading != Some(h)
  }

  /** What the source of a copy has to tell afterwards: a simple one still its answer if it has been read. */
  function Left(k: Client, src: Hid): Answer
    requires Owns(k, src)
  {
    if k.kinds[src] == MultiBulk || src in k.waiting then Default(k.kinds[src]) else k.views[src]
  }

  /** `h` waits in the place of `src`, and they have to tell `taken` and `left`. */
  function Moved(k: Client, h: Hid, src: Hid, taken: Answer, left: Answer): Client
    requires Owns(k, src)
  {
    k.(views := k.views[h := taken][src := left], kinds := k.kinds[h := k.kinds[src]], used := k.used + {h},
       waiting := Replaced(k.waiting, src, h),
       replies := if src in k.replies then k.replies[h := k.replies[src]] else k.replies,
       reading := if k.reading == Some(src) then Some(h) else if k.reading == Some(h) then None else k.reading)
  }

  /** An assignment does not take over what its source had put aside. */
  function Assigned(k: Client, h: Hid, src: Hid): Client
    requires Owns(k, src)
  {
    if IsAside(k, src) then Moved(k, h, src, Items([]), k.views[src])
    else Moved(k, h, src, k.views[src], Left(k, src))
  }

  /** The call as a client sees it for whom every reply is there at once. */
  function After(k: Client, call: Call): Client
    requires Legal(k, call)
  {
    match call
    case Command(h, kind, reply) =>
      k.(views := k.views[h := AnswerOf(kind, reply)], kinds := k.kinds[h := kind], used := k.used + {h},
         waiting := k.waiting + [h], replies := k.replies[h := reply])
    case Force(h) => Reached(k, h, None)
    case NextOf(h) =>
      var items := k.views[h].items;
      Reached(k, h, Some(h)).(views := if items == [] then k.views else k.views[h := Items(items[1..])])
    case CopyOf(h, src) => Moved(k, h, src, k.views[src], Left(k, src))
    case Overwrite(h, src) =>
      if Throws(k, call) then k.(views := k.views[h := Items(AfterNil(k.views[h].items))])
      else if h == src then Reached(k, h, None)
      else Assigned(Reached(k, h, None), h, src)
    case Drop(h) =>
      Reached(k, h, None).(views := k.views - {h}, kinds := k.kinds - {h}, used := k.used - {h},
                           reading := if h in k.waiting || k.reading == Some(h) then None else k.reading)
    case Begin(q) => if k.deal.Over? then k else k.(used := k.used + {q}, deal := Open(q))
    case Commit(_) => k.(deal := Over(k.deal.q))
    case Finish => k.(used := k.used - {k.deal.q}, deal := NoDeal)
  }

  datatype Notice = Quiet | Gave(answer: Answer) | Thrown

  /** What the call tells the client: an answer, an element, the end of a reply, an exception, or nothing. */
  function Told(k: Client, call: Call): Notice
    requires Legal(k, call)
  {
    match call
    case Force(h) => Gave(k.views[h])
    case NextOf(h) => if k.views[h].items == [] then Gave(Items([])) else Gave(Text(k.views[h].items[0]))
    case _ => if Throws(k, call) then Thrown else Quiet
  }

  predicate AllLegal(k: Client, calls: seq<Call>)
    decreases |calls|
  {
    calls == [] || (Legal(k, calls[0]) && AllLegal(After(k, calls[0]), calls[1..]))
  }

  function AllTold(k: Client, calls: seq<Call>): seq<Notice>
    requires AllLegal(k, calls)
    decreases |calls|
  {
    if calls == [] then [] else [Told(k, calls[0])] + AllTold(After(k, calls[0]), calls[1..])
  }
}
