/**
 Transactions: the replies +OK and +QUEUED that MULTI and the queued commands get at once, and the
 replies proper that come with EXEC, one for each queued handle in order.
 */
module RedisTransactions {
  import opened Bytes
  import opened RedisWire
  import opened RedisPipeline
  import opened RedisHandles
  import opened RedisWaiting

  // ---------------------------------------------------------------- opening

  /** MULTI has been sent, and its reply object listed as the connection's transaction. */
  function AfterBegin(c: Conn, q: Hid): Conn {
    Conn(c.input + Encode(Status(OK)), c.list + [q], c.handles[q := QueuedReply(true, 0, false)], Some(q),
         c.owed[q := Status(OK)])
  }

  lemma BeginWired(c: Conn, q: Hid)
    requires Good(c) && Closed(c) && AllKnown(c, c.list) && AllDrained(c, c.list) && q !in c.handles
    ensures Wired(AfterBegin(c, q))
  {
    var c' := AfterBegin(c, q);
    hide Aligned, Encode, Distinct;
    forall i, j | 0 <= i < j < |c'.list| ensures InOrder(c'.handles[c'.list[i]], c'.handles[c'.list[j]]) {
      assert j < |c.list| ==> InOrder(c.handles[c.list[i]], c.handles[c.list[j]]);
      assert Drained(c.handles[c.list[i]]) && !IsOpen(c.handles[c.list[i]]);
    }
    DistinctSnoc(c.list, q);
  }

  lemma DistinctSnoc(l: seq<Hid>, q: Hid)
    requires Distinct(l) && q !in l
    ensures Distinct(l + [q])
  {
  }

  lemma BeginViews(c: Conn, q: Hid)
    requires c.owed.Keys == c.handles.Keys && q !in c.handles
    ensures var c' := AfterBegin(c, q);
            c'.owed.Keys == c'.handles.Keys && Views(c') == Views(c)[q := Flag(false)]
  {
    hide Encode;
  }

  lemma NothingInStream(c: Conn)
    requires Good(c) && AllKnown(c, c.list) && AllDrained(c, c.list)
    ensures Frames(c, c.list) == []
  {
    hide Ordered, Counted, Aligned;
    DrainedFrames(c, c.list);
  }

  lemma BeginFrames(c: Conn, q: Hid)
    requires Wired(AfterBegin(c, q))
    ensures var c' := AfterBegin(c, q);
            AllKnown(c', c'.list) && Frames(c', c'.list) == Encode(Status(OK))
  {
    var c' := AfterBegin(c, q);
    OpenFrames(c', |c.list|);
    hide Wired, Frames, Encode;
    assert Encode(Status(OK)) + [] == Encode(Status(OK));
  }

  /** With nothing outstanding, a transaction can be opened, and its own frame is the whole stream. */
  lemma BeginGood(c: Conn, q: Hid)
    requires Good(c) && Closed(c) && AllKnown(c, c.list) && AllDrained(c, c.list) && q !in c.handles
    ensures var c' := AfterBegin(c, q);
            && Good(c') && InTransaction(c') && c.owed.Keys == c.handles.Keys && c'.owed.Keys == c'.handles.Keys
            && Views(c') == Views(c)[q := Flag(false)]
  {
    hide *;
    GoodKnown(c);
    BeginWired(c, q);
    BeginViews(c, q);
    NothingInStream(c);
    BeginFrames(c, q);
    BeginIsOpen(c, q);
    ExtendAligned(c, AfterBegin(c, q), Encode(Status(OK)));
  }

  /** And only then: a reply still outstanding would be taken for the transaction's own. */
  lemma BeginGoodIff(c: Conn, q: Hid)
    requires Good(c) && c.transaction == None && q !in c.handles && AllKnown(c, c.list)
    ensures var c' := AfterBegin(c, q);
            && (Good(c') <==> AllDrained(c, c.list)) && InTransaction(c')
            && c.owed.Keys == c.handles.Keys && c'.owed.Keys == c'.handles.Keys
            && Views(c') == Views(c)[q := Flag(false)] && SameTypes(c, c')
  {
    hide *;
    GoodKnown(c);
    OpenIsTransaction(c);
    BeginIsOpen(c, q);
    BeginViews(c, q);
    BeginTypes(c, q);
    if AllDrained(c, c.list) {
      NotInTransaction(c);
      BeginGood(c, q);
    }
    if Good(AfterBegin(c, q)) {
      BegunIsDrained(c, q);
    }
  }

  lemma NotInTransaction(c: Conn)
    requires c.transaction == None
    ensures !InTransaction(c)
  {
  }

  lemma BeginTypes(c: Conn, q: Hid)
    requires q !in c.handles
    ensures SameTypes(c, AfterBegin(c, q))
  {
    hide Encode;
  }

  lemma BegunIsDrained(c: Conn, q: Hid)
    requires q !in c.handles && AllKnown(c, c.list) && Good(AfterBegin(c, q))
    ensures AllDrained(c, c.list)
  {
    var c' := AfterBegin(c, q);
    hide Encode, Aligned, Healthy, Counted, Distinct;
    forall i | 0 <= i < |c.list| ensures Drained(c.handles[c.list[i]]) {
      assert InOrder(c'.handles[c'.list[i]], c'.handles[c'.list[|c.list|]]);
    }
  }

  /**
   If the first reply outstanding is not a status line, the commit of a transaction begun too early
   throws as it reads it.
   */
  lemma EarlyBeginThrows(c: Conn, q: Hid, k: nat, more: Str)
    requires Good(c) && c.transaction == None && q !in c.handles && k < |c.list| && AllDrained(c, c.list[..k])
    requires !Drained(c.handles[c.list[k]]) && !(c.handles[c.list[k]].Simple? && c.handles[c.list[k]].kind == Void)
    ensures ReadStatus(AfterBegin(c, q).input + more) == None
  {
    hide *;
    OpenIsTransaction(c);
    NotInTransaction(c);
    FirstByte(c, k);
    var gap := FrontFrame(c, k);
    var rest := Frames(c, c.list[k + 1..]) + Encode(Status(OK)) + more;
    var frame := Frame(c, c.list[k]);
    BeginIsOpen(c, q);
    assert AfterBegin(c, q).input + more == gap + (frame + rest);
    CodeIsRead(gap, frame + rest);
    WrongCode(gap + (frame + rest));
  }

  lemma WrongCode(s: Str)
    requires ExtractChar(s).Some? && ExtractChar(s).value.0 != PLUS
    ensures ReadStatus(s) == None
  {
    hide ExtractChar, ExtractLine;
  }

  lemma FirstByte(c: Conn, k: nat)
    requires Good(c) && Closed(c) && k < |c.list| && !Drained(c.handles[c.list[k]])
    requires !(c.handles[c.list[k]].Simple? && c.handles[c.list[k]].kind == Void)
    ensures Known(c, c.list[k])
    ensures var frame := Frame(c, c.list[k]);
            frame != [] && frame[0] != PLUS && !IsSpace(frame[0])
  {
    assert Known(c, c.list[k]) && !IsOpen(c.handles[c.list[k]]);
    assert Sound(c.handles[c.list[k]], c.owed[c.list[k]]);
    hide Ordered, Counted, Aligned, Distinct;
  }

  lemma BeginWaits(c: Conn, q: Hid)
    requires Good(c) && q !in c.handles
    ensures Undisturbed(c, AfterBegin(c, q), q)
  {
    hide *;
    BeginIsOneChange(c, q);
    OneChangeWaits(c, AfterBegin(c, q), q);
  }

  lemma BeginIsOneChange(c: Conn, q: Hid)
    requires q !in c.handles
    ensures ChangesOne(c, AfterBegin(c, q), q)
  {
    hide Encode, Unlinked;
  }

  /** Nothing is outstanding when nothing is waited for and no reply is under way. */
  lemma NothingOutstanding(c: Conn)
    requires Good(c) && Closed(c)
    ensures AllKnown(c, c.list) && (AllDrained(c, c.list) <==> Waiting(c) == [] && forall h: Hid :: !IsStarted(c, h))
  {
    GoodDistinct(c);
    if AllDrained(c, c.list) {
      forall h: Hid ensures !IsStarted(c, h) && !IsFresh(c, h) {
        if h in c.handles && c.handles[h].conn {
          assert Drained(c.handles[c.list[IndexOf(c.list, h)]]);
        }
      }
      NoneFresh(c, c.list);
    } else {
      var i :| 0 <= i < |c.list| && !Drained(c.handles[c.list[i]]);
      FreshInList(c, c.list, c.list[i]);
      UndrainedKinds(c, i);
    }
  }

  lemma UndrainedKinds(c: Conn, i: nat)
    requires Good(c) && Closed(c) && i < |c.list| && Known(c, c.list[i]) && !Drained(c.handles[c.list[i]])
    ensures IsFresh(c, c.list[i]) || IsStarted(c, c.list[i])
  {
    assert Sound(c.handles[c.list[i]], c.owed[c.list[i]]);
    hide Ordered, Counted, Aligned, Distinct;
  }

  lemma BeginIsOpen(c: Conn, q: Hid)
    ensures var c' := AfterBegin(c, q);
            InTransaction(c') && c'.input == c.input + Encode(Status(OK))
              && [] + Encode(Status(OK)) == Encode(Status(OK))
  {
  }

  /** A second Transaction on the connection throws, but only after its reply has counted itself in the first. */
  lemma NestedBegin(c: Conn)
    requires Good(c) && c.transaction.Some?
    ensures Good(c.(handles := CountedHandles(c))) <==> Closed(c)
  {
    var c', t := c.(handles := CountedHandles(c)), c.transaction.value;
    OpenIsTransaction(c);
    if InTransaction(c) {
      var k := OpenPlace(c);
      assert c'.handles[t].queued == |c.list| - k;
      MiscountedIsBad(c', k);
    } else {
      CountedWired(c);
      hide Good, CountedHandles;
      CountedAligned(c, c', t);
    }
  }

  lemma CountedWaits(c: Conn)
    requires Good(c) && c.transaction.Some?
    ensures Undisturbed(c, c.(handles := CountedHandles(c)), c.transaction.value)
  {
    hide *;
    KeysCounted(c);
    CountedIsOneChange(c);
    OneChangeWaits(c, c.(handles := CountedHandles(c)), c.transaction.value);
  }

  lemma CountedViews(c: Conn)
    requires Good(c) && c.transaction.Some? && CountedHandles(c).Keys == c.handles.Keys && c.owed.Keys == c.handles.Keys
    requires c.transaction.value in c.handles && c.handles[c.transaction.value].QueuedReply?
    ensures Views(c.(handles := CountedHandles(c))) == Views(c)
  {
    hide Good;
  }

  lemma LooseCount(c: Conn)
    requires c.transaction.Some? && CountedHandles(c).Keys == c.handles.Keys
    ensures Closed(c.(handles := CountedHandles(c))) <==> Closed(c)
  {
    var c' := c.(handles := CountedHandles(c));
    if Closed(c') {
      forall h | h in c.handles ensures !IsOpen(c.handles[h]) {
        assert !IsOpen(c'.handles[h]);
      }
    }
  }

  lemma CountedIsOneChange(c: Conn)
    requires c.transaction.Some? && c.transaction.value in c.handles && c.handles[c.transaction.value].QueuedReply?
    ensures ChangesOne(c, c.(handles := CountedHandles(c)), c.transaction.value)
    ensures SameObjects(c, c.(handles := CountedHandles(c)))
  {
    hide Unlinked;
  }

  lemma MiscountedIsBad(c: Conn, k: nat)
    requires k < |c.list| && Known(c, c.list[k]) && IsOpen(c.handles[c.list[k]])
    requires c.handles[c.list[k]].queued != |c.list| - 1 - k
    ensures !Wired(c)
  {
  }

  lemma CountedFlags(c: Conn)
    requires Good(c) && c.transaction.Some?
    ensures CountedHandles(c).Keys == c.handles.Keys && AllKnown(c, c.list)
    ensures forall h | h in c.handles :: SameFlags(c.handles[h], CountedHandles(c)[h])
  {
    hide Healthy, Ordered, Counted, Aligned, Distinct;
  }

  lemma CountedOrdered(c: Conn)
    requires Good(c) && c.transaction.Some?
    ensures AllKnown(c.(handles := CountedHandles(c)), c.list) && Ordered(c.(handles := CountedHandles(c)))
  {
    CountedFlags(c);
    var c' := c.(handles := CountedHandles(c));
    hide Healthy, Counted, Aligned, Distinct, SameFlags, InOrder, CountedHandles;
    forall i, j | 0 <= i < j < |c.list| ensures InOrder(c'.handles[c.list[i]], c'.handles[c.list[j]]) {
      SameFlagsOrder(c.handles[c.list[i]], c'.handles[c.list[i]], c.handles[c.list[j]], c'.handles[c.list[j]]);
    }
  }

  lemma CountedWired(c: Conn)
    requires Good(c) && c.transaction.Some? && !InTransaction(c)
    ensures Wired(c.(handles := CountedHandles(c))) && CountedHandles(c).Keys == c.handles.Keys
    ensures forall h | h in c.handles :: SameFlags(c.handles[h], CountedHandles(c)[h])
    ensures AllKnown(c, c.list) && NoneOpen(c, c.list)
  {
    OpenIsTransaction(c);
    NoneOpenIn(c, c.list);
    CountedFlags(c);
    CountedOrdered(c);
    hide Distinct, Aligned, Ordered, WellTyped, Fits;
  }

  lemma CountedAligned(c: Conn, c': Conn, t: Hid)
    requires Good(c) && Wired(c') && c' == c.(handles := c'.handles) && AllKnown(c, c.list) && NoneOpen(c, c.list)
    requires c'.handles.Keys == c.handles.Keys && forall h | h in c.handles :: SameFlags(c.handles[h], c'.handles[h])
    ensures Good(c')
  {
    IssueFramesOld(c, c', c.list);
    hide Wired, Frames;
    var gap :| AlignedAt(c, gap);
    assert AlignedAt(c', gap);
  }

  // ---------------------------------------------------------------- committing

  /** The elements of EXEC's reply: each listed handle's own reply, in order. */
  function Answers(c: Conn, l: seq<Hid>): Str
    requires AllKnown(c, l)
  {
    if l == [] then [] else Encode(c.owed[l[0]]) + Answers(c, l[1..])
  }

  /** What the server sends for EXEC. */
  function ExecReply(c: Conn, k: nat): Str
    requires k < |c.list| && AllKnown(c, c.list[k + 1..])
  {
    EncodeHeader(|c.list| - 1 - k) + Answers(c, c.list[k + 1..])
  }

  predicate AnswersExec(c: Conn, reply: Str)
    requires c.transaction.Some?
  {
    var k := IndexOf(c.list, c.transaction.value);
    k < |c.list| && AllKnown(c, c.list[k + 1..]) && reply == ExecReply(c, k)
  }

  /** The next bytes are the first reply behind the handle `q`. */
  predicate StandsBehind(c: Conn, q: Hid) {
    var k := IndexOf(c.list, q);
    k < |c.list| && AllKnown(c, c.list[k + 1..]) && c.input == CRLF + Frames(c, c.list[k + 1..])
  }

  function AfterCommit(c: Conn, k: nat): Conn
    requires k < |c.list| && AllKnown(c, c.list[k + 1..])
  {
    c.(input := CRLF + Answers(c, c.list[k + 1..]), handles := c.handles[c.list[k] := QueuedReply(false,
      |c.list| - 1 - k, true)])
  }

  /** The stream at commit, before EXEC: the +OK and one +QUEUED for every handle issued. */
  lemma BeforeExec(c: Conn, k: nat) returns (gap: Str)
    requires Good(c) && k < |c.list| && Known(c, c.list[k]) && IsOpen(c.handles[c.list[k]])
    ensures Blank(gap) && c.input == gap + (Encode(Status(OK)) + QueuedLines(|c.list| - 1 - k))
    ensures AllKnown(c, c.list[k + 1..]) && c.handles[c.list[k]] == QueuedReply(true, |c.list| - 1 - k, false)
  {
    hide *;
    gap := GapBefore(c);
    GoodIsWired(c);
    OpenFrames(c, k);
    OpenFacts(c, k);
  }

  lemma OpenFacts(c: Conn, k: nat)
    requires Good(c) && k < |c.list| && Known(c, c.list[k]) && IsOpen(c.handles[c.list[k]])
    ensures AllKnown(c, c.list[k + 1..]) && c.handles[c.list[k]] == QueuedReply(true, |c.list| - 1 - k, false)
    ensures Frame(c, c.list[k]) == Encode(Status(OK)) + QueuedLines(|c.list| - 1 - k)
  {
    assert Sound(c.handles[c.list[k]], c.owed[c.list[k]]);
    hide Aligned, Encode, QueuedLines, Ordered, Distinct;
  }

  lemma {:induction false} FreshFrames(c: Conn, c': Conn, l: seq<Hid>)
    requires AllKnown(c, l) && AllKnown(c', l)
    requires forall j | 0 <= j < |l| :: Fresh(c'.handles[l[j]]) && c'.owed[l[j]] == c.owed[l[j]]
    ensures Frames(c', l) == Answers(c, l)
  {
    if l != [] {
      assert Fresh(c'.handles[l[0]]);
      hide Encode;
      FreshFrames(c, c', l[1..]);
    }
  }

  lemma CommitOrdered(c: Conn, k: nat)
    requires Good(c) && k < |c.list| && Known(c, c.list[k]) && IsOpen(c.handles[c.list[k]])
      && AllKnown(c, c.list[k + 1..])
    ensures AllKnown(AfterCommit(c, k), c.list) && Ordered(AfterCommit(c, k))
  {
    var c' := AfterCommit(c, k);
    hide Distinct, Aligned, Answers, Healthy, Counted;
    forall i, j | 0 <= i < j < |c.list| ensures InOrder(c'.handles[c.list[i]], c'.handles[c.list[j]]) {
      assert InOrder(c.handles[c.list[i]], c.handles[c.list[j]]);
    }
  }

  lemma CommitWired(c: Conn, k: nat)
    requires Good(c) && k < |c.list| && Known(c, c.list[k]) && IsOpen(c.handles[c.list[k]])
      && AllKnown(c, c.list[k + 1..])
    ensures Wired(AfterCommit(c, k)) && Closed(AfterCommit(c, k))
  {
    CommitOrdered(c, k);
    forall h | h in c.handles && h != c.list[k] ensures !IsOpen(c.handles[h]) {
      OnlyOneOpen(c, h, c.list[k]);
    }
    hide Distinct, Aligned, Answers, Ordered, WellTyped, Fits;
  }

  lemma OpenIsTheOne(c: Conn, h: Hid)
    requires Good(c) && Known(c, h) && IsOpen(c.handles[h])
    ensures c.transaction == Some(h)
  {
    assert h == c.list[IndexOf(c.list, h)];
  }

  lemma OnlyOneOpen(c: Conn, h: Hid, q: Hid)
    requires Good(c) && Known(c, h) && Known(c, q) && IsOpen(c.handles[q]) && h != q
    ensures !IsOpen(c.handles[h])
  {
    OpenIsTheOne(c, q);
    if IsOpen(c.handles[h]) {
      OpenIsTheOne(c, h);
    }
  }

  lemma CommitParts(c: Conn, k: nat)
    requires Good(c) && k < |c.list| && Known(c, c.list[k]) && IsOpen(c.handles[c.list[k]])
      && AllKnown(c, c.list[k + 1..])
    ensures var c', tail := AfterCommit(c, k), c.list[k + 1..];
            && AllKnown(c', c'.list) && AllKnown(c', c'.list[k..]) && AllKnown(c', c.list[..k])
            && AllDrained(c', c.list[..k]) && NoneOpen(c', c.list[..k])
            && AllKnown(c', tail)
            && (forall j | 0 <= j < |tail| :: Fresh(c'.handles[tail[j]]) && c'.owed[tail[j]] == c.owed[tail[j]])
            && c'.list[k..][0] == c.list[k] && c'.list[k..][1..] == tail && Known(c', c.list[k])
            && Frame(c', c.list[k]) == []
            && !IsOpen(c'.handles[c.list[k]])
  {
    var q := c.list[k];
    hide Answers, Aligned, Healthy;
    forall j | 0 <= j < k ensures Drained(c.handles[c.list[j]]) && !IsOpen(c.handles[c.list[j]]) {
      assert InOrder(c.handles[c.list[j]], c.handles[q]);
    }
    forall j | k < j < |c.list| ensures Fresh(c.handles[c.list[j]]) {
      assert InOrder(c.handles[q], c.handles[c.list[j]]);
    }
  }

  lemma CommitAligned(c: Conn, k: nat)
    requires Good(c) && k < |c.list| && Known(c, c.list[k]) && IsOpen(c.handles[c.list[k]])
      && AllKnown(c, c.list[k + 1..])
    ensures var c' := AfterCommit(c, k);
            && Good(c') && Closed(c') && AllKnown(c', c.list[k + 1..]) && c'.input == CRLF + Frames(c', c.list[k + 1..])
  {
    hide *;
    var c', tail := AfterCommit(c, k), c.list[k + 1..];
    CommitWired(c, k);
    CommitParts(c, k);
    FreshFrames(c, c', tail);
    CommitState(c, k);
    FramesFrom(c', k);
    FirstFrame(c', c'.list[k..]);
    LineEndIsBlank();
    AlignedSo(c', CRLF);
  }

  lemma CommitState(c: Conn, k: nat)
    requires k < |c.list| && AllKnown(c, c.list[k + 1..])
    ensures var c' := AfterCommit(c, k);
            c'.list == c.list && c'.input == CRLF + Answers(c, c.list[k + 1..])
  {
  }

  lemma FirstFrame(c: Conn, l: seq<Hid>)
    requires AllKnown(c, l) && l != [] && Known(c, l[0]) && !IsOpen(c.handles[l[0]]) && Frame(c, l[0]) == []
    ensures AllKnown(c, l[1..]) && Frames(c, l) == Frames(c, l[1..])
  {
  }

  lemma CommitViews(c: Conn, k: nat)
    requires k < |c.list| && AllKnown(c, c.list[k + 1..]) && c.owed.Keys == c.handles.Keys
    requires c.list[k] in c.handles && c.handles[c.list[k]].QueuedReply?
    ensures c.owed.Keys == AfterCommit(c, k).handles.Keys && Views(AfterCommit(c, k)) == Views(c)
  {
    hide Answers;
  }

  /** While the transaction is open, the handles behind it are those waited for. */
  lemma OpenWaiting(c: Conn, k: nat)
    requires Good(c) && k < |c.list| && Known(c, c.list[k]) && IsOpen(c.handles[c.list[k]])
    ensures Waiting(c) == c.list[k + 1..] && c.handles[c.list[k]].queued == |Waiting(c)|
  {
    OpenNeighbours(c, k);
    hide *;
    FreshAround(c, c.list, k);
    NoneFresh(c, c.list[..k]);
    AllFresh(c, c.list[k + 1..]);
    WaitingIs(c);
    assert [] + [] + c.list[k + 1..] == c.list[k + 1..];
  }

  lemma OpenNeighbours(c: Conn, k: nat)
    requires Good(c) && k < |c.list| && Known(c, c.list[k]) && IsOpen(c.handles[c.list[k]])
    ensures (forall h | h in c.list[..k] :: !IsFresh(c, h)) && !IsFresh(c, c.list[k])
    ensures forall h | h in c.list[k + 1..] :: IsFresh(c, h)
    ensures c.handles[c.list[k]].queued == |c.list| - 1 - k
  {
    hide Healthy, Aligned, Distinct;
    forall h | h in c.list[..k] ensures !IsFresh(c, h) {
      var j :| 0 <= j < k && c.list[j] == h;
      assert InOrder(c.handles[c.list[j]], c.handles[c.list[k]]);
    }
    forall h | h in c.list[k + 1..] ensures IsFresh(c, h) {
      var j :| 0 <= j < |c.list[k + 1..]| && c.list[k + 1..][j] == h;
      assert InOrder(c.handles[c.list[k]], c.handles[c.list[k + 1 + j]]);
    }
  }

  lemma CommitWaits(c: Conn, k: nat)
    requires Good(c) && k < |c.list| && AllKnown(c, c.list[k + 1..]) && Known(c, c.list[k])
      && IsOpen(c.handles[c.list[k]])
    ensures Undisturbed(c, AfterCommit(c, k), c.list[k]) && SameObjects(c, AfterCommit(c, k))
  {
    hide *;
    CommitIsOneChange(c, k);
    OneChangeWaits(c, AfterCommit(c, k), c.list[k]);
  }

  lemma CommitIsOneChange(c: Conn, k: nat)
    requires k < |c.list| && AllKnown(c, c.list[k + 1..]) && Known(c, c.list[k]) && IsOpen(c.handles[c.list[k]])
    ensures ChangesOne(c, AfterCommit(c, k), c.list[k]) && SameObjects(c, AfterCommit(c, k))
  {
    hide Unlinked, Answers;
  }

  lemma QueuedFirst(n: nat)
    requires n > 0
    ensures QueuedLines(n) == Encode(Status(QUEUED)) + QueuedLines(n - 1)
  {
  }

  lemma NoLines()
    ensures QueuedLines(0) == []
  {
  }

  lemma KeysCounted(c: Conn)
    requires Good(c) && c.transaction.Some?
    ensures c.transaction.value in c.handles && c.handles[c.transaction.value].QueuedReply?
    ensures CountedHandles(c).Keys == c.handles.Keys
  {
    hide Healthy, Ordered, Counted, Distinct, Aligned;
  }

  /** One +OK or +QUEUED line is read and leaves its line feed behind. */
  lemma LineRead(gap: Str, text: Str, s: Str)
    requires Blank(gap) && (text == OK || text == QUEUED)
    ensures ReadStatus(gap + (Encode(Status(text)) + s)) == Some((text, [NEWLINE] + s)) && Blank([NEWLINE])
  {
    hide Encode, ReadStatus;
    assert gap + (Encode(Status(text)) + s) == gap + Encode(Status(text)) + s;
    StatusIsRead(gap, text, s);
  }

  /** The Transaction object goes away after a commit. */
  lemma EndGood(c: Conn, q: Hid)
    requires Good(c) && c.transaction == Some(q) && !InTransaction(c) && q in c.owed
    ensures var c' := Freed(c.(transaction := None), q);
            && Good(c') && c.owed.Keys == c.handles.Keys && c'.owed.Keys == c'.handles.Keys
            && Views(c') == Views(c) - {q}
  {
    hide *;
    var c1 := c.(transaction := None);
    GoodKnown(c);
    OpenIsTransaction(c);
    TransactionOver(c, q);
    var left := Loose(c1.handles[q]);
    LooseIsLoose(c1.handles[q]);
    FreedIsErased(c1, q);
    DroppedIsUnlisted(c1, q, left);
    DropGood(c1, q, left);
    EraseGood(Dropped(c1, q, left), q);
  }

  lemma EndWaits(c: Conn, q: Hid)
    requires Good(c) && q in c.handles && c.handles[q].QueuedReply?
    ensures Undisturbed(c, Freed(c.(transaction := None), q), q)
  {
    hide *;
    EndIsOneChange(c, q);
    OneChangeWaits(c, Freed(c.(transaction := None), q), q);
  }

  lemma EndCloses(c: Conn, q: Hid)
    requires Closed(c)
    ensures Closed(Freed(c.(transaction := None), q))
  {
    hide Unlinked;
  }

  lemma EndIsOneChange(c: Conn, q: Hid)
    requires q in c.handles && c.handles[q].QueuedReply?
    ensures ChangesOne(c, Freed(c.(transaction := None), q), q)
  {
    hide Unlinked;
  }

  // ---------------------------------------------------------------- reading before the commit

  /** Neither a simple reply nor the header of an enumerator can be read. */
  ghost predicate FindsNothing(s: Str) {
    (forall kind: Kind :: ReadAnswer(kind, s) == None) && ReadHeader(s) == None
  }

  lemma NothingToRead(s: Str)
    requires Blank(s)
    ensures FindsNothing(s)
  {
    SkipAll(s);
  }

  lemma {:induction false} SkipAll(s: Str)
    requires Blank(s)
    ensures SkipSpace(s) == []
  {
    if s != [] {
      SkipAll(s[1..]);
    }
  }

  /** The list while a transaction is open: read handles, the transaction, and those waited for. */
  lemma OpenPlaces(c: Conn, h: Hid) returns (k: nat)
    requires Good(c) && InTransaction(c) && IsFresh(c, h)
    ensures k + 1 < |c.list| && AllKnown(c, c.list) && c.list[k] == c.transaction.value && IsOpen(c.handles[c.list[k]])
    ensures forall i | 0 <= i < k :: Drained(c.handles[c.list[i]]) && c.list[i] != h && !IsOpen(c.handles[c.list[i]])
    ensures c.list[k] != h && Fresh(c.handles[c.list[k + 1]]) && Waiting(c) != [] && Waiting(c)[0] == c.list[k + 1]
  {
    k := OpenPlace(c);
    GoodKnown(c);
    OpenWaiting(c, k);
    WaitingIn(c, h);
    forall i | 0 <= i < k ensures Drained(c.handles[c.list[i]]) && c.list[i] != h && !IsOpen(c.handles[c.list[i]]) {
      assert InOrder(c.handles[c.list[i]], c.handles[c.list[k]]);
    }
    hide Good;
    WaitingIn(c, c.list[k + 1]);
  }

  // ---------------------------------------------------------------- aborting

  /** DISCARD has been answered: the replies of the queued handles will never come. */
  function AfterAbort(c: Conn, k: nat): Conn
    requires k < |c.list|
  {
    Freed(c.(input := [NEWLINE], transaction := None), c.list[k])
  }

  lemma {:induction false} SomeFrames(c: Conn, l: seq<Hid>, i: nat)
    requires AllKnown(c, l) && NoneOpen(c, l) && i < |l| && Frame(c, l[i]) != []
    ensures Frames(c, l) != []
  {
    hide Frame;
    assert !IsOpen(c.handles[l[0]]);
    if i > 0 {
      SomeFrames(c, l[1..], i - 1);
    }
  }

  /** A stream of white space is in step only with a client that waits for nothing. */
  lemma BlankStream(c: Conn)
    requires Good(c) && Closed(c) && Blank(c.input)
    ensures Waiting(c) == []
  {
    hide *;
    WaitingIs(c);
    GoodKnown(c);
    NoneOpenIn(c, c.list);
    var gap := GapBefore(c);
    FramesStartAt(c);
    if Frames(c, c.list) != [] {
      NotBlank(gap, Frames(c, c.list));
    }
    forall h | h in c.list ensures !IsFresh(c, h) {
      var i :| 0 <= i < |c.list| && c.list[i] == h;
      FreshFrame(c, h);
      if Frame(c, h) != [] {
        SomeFrames(c, c.list, i);
      }
    }
    NoneFresh(c, c.list);
  }

  lemma NotBlank(gap: Str, s: Str)
    requires s != [] && !IsSpace(s[0])
    ensures !Blank(gap + s)
  {
    assert (gap + s)[|gap|] == s[0];
  }

  lemma FreshFrame(c: Conn, h: Hid)
    requires Known(c, h)
    ensures IsFresh(c, h) ==> Frame(c, h) != []
  {
  }

  lemma AbortKeeps(c: Conn, k: nat)
    requires Good(c) && k < |c.list| && c.list[k] in c.handles && c.handles[c.list[k]].QueuedReply?
    ensures var c' := AfterAbort(c, k);
            Undisturbed(c, c', c.list[k]) && c.owed.Keys == c.handles.Keys && c'.owed.Keys == c'.handles.Keys
            && Views(c') == Views(c) - {c.list[k]}
  {
    hide *;
    GoodKnown(c);
    AbortIsOneChange(c, k);
    OneChangeWaits(c, AfterAbort(c, k), c.list[k]);
    AbortViews(c, k);
  }

  lemma AbortIsOneChange(c: Conn, k: nat)
    requires k < |c.list| && c.list[k] in c.handles && c.handles[c.list[k]].QueuedReply?
    ensures ChangesOne(c, AfterAbort(c, k), c.list[k])
  {
    hide Unlinked;
  }

  lemma AbortViews(c: Conn, k: nat)
    requires k < |c.list| && c.owed.Keys == c.handles.Keys
    ensures var c' := AfterAbort(c, k);
            c'.owed.Keys == c'.handles.Keys && Views(c') == Views(c) - {c.list[k]}
  {
    hide Unlinked;
  }

  lemma AbortCloses(c: Conn, k: nat)
    requires Good(c) && k < |c.list| && Known(c, c.list[k]) && IsOpen(c.handles[c.list[k]])
    ensures Closed(AfterAbort(c, k))
  {
    var c' := AfterAbort(c, k);
    forall h | h in c'.handles ensures !IsOpen(c'.handles[h]) {
      OnlyOneOpen(c, h, c.list[k]);
    }
  }

  /** An abort leaves the stream in step if and only if no handle was queued. */
  lemma AbortGood(c: Conn, k: nat)
    requires Good(c) && k < |c.list| && Known(c, c.list[k]) && IsOpen(c.handles[c.list[k]])
    ensures var c' := AfterAbort(c, k);
            Closed(c') && (Good(c') <==> Waiting(c) == [])
  {
    hide *;
    var c' := AfterAbort(c, k);
    AbortCloses(c, k);
    OpenKind(c, c.list[k]);
    AbortKeeps(c, k);
    UndisturbedParts(c, c', c.list[k]);
    WaitsFacts(c', Waiting(c), c.owed);
    if Good(c') {
      AbortInput(c, k);
      BlankStream(c');
    }
    if Waiting(c) == [] {
      EmptyAbort(c, k);
    }
  }

  lemma OpenKind(c: Conn, h: Hid)
    requires Known(c, h) && IsOpen(c.handles[h])
    ensures h in c.handles && c.handles[h].QueuedReply?
  {
  }

  lemma AbortInput(c: Conn, k: nat)
    requires k < |c.list|
    ensures Blank(AfterAbort(c, k).input)
  {
    hide Unlinked;
  }

  /** With nothing queued, aborting is committing, but for the line ending left behind. */
  lemma EmptyAbort(c: Conn, k: nat)
    requires Good(c) && k < |c.list| && Known(c, c.list[k]) && IsOpen(c.handles[c.list[k]]) && Waiting(c) == []
    ensures Good(AfterAbort(c, k))
  {
    hide *;
    OpenWaiting(c, k);
    var q := c.list[k];
    GoodKnown(c);
    KnownParts(c, k);
    CommitAligned(c, k);
    var c1 := AfterCommit(c, k);
    CommitState(c, k);
    NoFrames(c1, k);
    BlankInput(c1, k);
    CommittedIs(c, k);
    EndGood(c1.(input := [NEWLINE]), q);
  }

  lemma NoFrames(c: Conn, k: nat)
    requires k < |c.list| && c.list[k + 1..] == [] && AllKnown(c, c.list[k + 1..])
    ensures Frames(c, c.list[k + 1..]) == [] && CRLF + [] == CRLF
  {
  }

  lemma BlankInput(c: Conn, k: nat)
    requires Good(c) && Closed(c) && k < |c.list| && c.input == CRLF
    ensures var c' := c.(input := [NEWLINE]);
            Good(c') && Closed(c')
  {
    hide *;
    var c' := c.(input := [NEWLINE]);
    GoodIsWired(c);
    GoodKnown(c);
    InputIsFree(c, c');
    var gap := GapBefore(c);
    FramesStartAt(c);
    LineEndIsBlank();
    if Frames(c, c.list) != [] {
      NotBlank(gap, Frames(c, c.list));
    }
    WiredKnown(c');
    SameButInput(c, c');
    OneIsBlank();
    assert [NEWLINE] + [] == [NEWLINE];
    AlignedSo(c', [NEWLINE]);
  }

  lemma OneIsBlank()
    ensures Blank([NEWLINE])
  {
  }

  lemma SameButInput(c: Conn, c': Conn)
    requires c' == c.(input := c'.input) && AllKnown(c, c.list)
    ensures AllKnown(c', c'.list) && Frames(c', c'.list) == Frames(c, c.list)
  {
    FramesEqual(c, c.list, c', c.list);
  }

  lemma CommittedIs(c: Conn, k: nat)
    requires Good(c) && k < |c.list| && AllKnown(c, c.list[k + 1..]) && Known(c, c.list[k])
      && IsOpen(c.handles[c.list[k]])
    ensures var c2, q := AfterCommit(c, k).(input := [NEWLINE]), c.list[k];
            c2.transaction == Some(q) && !InTransaction(c2) && q in c2.owed
              && Freed(c2.(transaction := None), q) == AfterAbort(c, k)
  {
    OpenIsTheOne(c, c.list[k]);
    hide Good, Unlinked, Answers;
    var c2 := AfterCommit(c, k);
    assert c2.handles - {c.list[k]} == c.handles - {c.list[k]};
  }

  lemma TransactionOver(c: Conn, q: Hid)
    requires Good(c) && c.transaction == Some(q) && Closed(c) && q in c.owed
    ensures var c1 := c.(transaction := None);
            && Good(c1) && Closed(c1) && c1.owed.Keys == c1.handles.Keys && Known(c1, q) && Frame(c1, q) == []
            && q in c1.handles && c.owed.Keys == c.handles.Keys && Views(c1) == Views(c)
  {
    var c1 := c.(transaction := None);
    hide InOrder, Distinct, Sound;
    assert !IsOpen(c.handles[q]);
    FramesEqual(c, c.list, c1, c.list);
    var gap :| AlignedAt(c, gap);
    assert AlignedAt(c1, gap);
  }
}
