/**
 From a key to its node: the slot ranges of CLUSTER SLOTS in an ordered map, searched by predecessor.
 */
module SlotRouting {
  import opened Bytes
  import opened SlotHash

  /** A connection, by its address. */
  type Conn = nat

  type Unsigned = n: nat | n < TWO_TO_32

  /** An entry of the ordered map: the slots `first` to `last` and the connection to their node. */
  datatype Node = Node(first: Unsigned, last: Unsigned, conn: Conn)

  datatype Error = NodeSearch | NotInitialized | ConnectionFailed

  predicate Contains(n: Node, slot: nat) {
    n.first <= slot <= n.last
  }

  /** The comparator looks at the first slots only, so the map holds one entry for each. */
  predicate SortedNodes(nodes: seq<Node>) {
    forall i, j :: 0 <= i < j < |nodes| ==> nodes[i].first < nodes[j].first
  }

  /** No range is empty, and no two overlap. */
  predicate Disjoint(nodes: seq<Node>) {
    && (forall i :: 0 <= i < |nodes| ==> nodes[i].first <= nodes[i].last)
    && (forall i, j :: 0 <= i < j < |nodes| ==> nodes[i].last < nodes[j].first || nodes[j].last < nodes[i].first)
  }

  predicate IsEmpty(n: Node) {
    n.last < n.first
  }

  /** A range that is not empty ends before the next one starts. */
  predicate EndsInTime(nodes: seq<Node>, i: nat)
    requires i < |nodes|
  {
    IsEmpty(nodes[i]) || i + 1 == |nodes| || nodes[i].last < nodes[i + 1].first
  }

  predicate Ordered(nodes: seq<Node>) {
    forall i :: 0 <= i < |nodes| ==> EndsInTime(nodes, i)
  }

  lemma DisjointIsOrdered(nodes: seq<Node>)
    requires SortedNodes(nodes) && Disjoint(nodes)
    ensures Ordered(nodes)
  {
  }

  predicate Covered(nodes: seq<Node>, slot: nat) {
    exists k :: 0 <= k < |nodes| && Contains(nodes[k], slot)
  }

  predicate Covers(nodes: seq<Node>) {
    forall slot: nat :: slot < SLOTS ==> Covered(nodes, slot)
  }

  /** std::map::lower_bound: the place of the first entry not before `first`. */
  function LowerBound(nodes: seq<Node>, first: nat): (k: nat)
    ensures k <= |nodes| && (k < |nodes| ==> nodes[k].first >= first)
    ensures forall i :: 0 <= i < k ==> nodes[i].first < first
  {
    if nodes == [] || nodes[0].first >= first then 0
    else
      var k := LowerBound(nodes[1..], first);
      assert forall i :: 0 < i < k + 1 ==> nodes[i] == nodes[1..][i - 1];
      k + 1
  }

  /** std::map::insert, which leaves an entry with the same first slot alone. */
  function Inserted(nodes: seq<Node>, n: Node): seq<Node> {
    var k := LowerBound(nodes, n.first);
    if k < |nodes| && nodes[k].first == n.first then nodes else nodes[..k] + [n] + nodes[k..]
  }

  lemma InsertedIsSorted(nodes: seq<Node>, n: Node)
    requires SortedNodes(nodes)
    ensures SortedNodes(Inserted(nodes, n))
    ensures forall m :: m in nodes ==> m in Inserted(nodes, n)
    ensures (forall m :: m in nodes ==> m.first != n.first) ==> n in Inserted(nodes, n)
    ensures forall m :: m in Inserted(nodes, n) ==> m in nodes || m == n
  {
    var k := LowerBound(nodes, n.first);
    assert nodes == nodes[..k] + nodes[k..];
  }

  /** A row of the reply to CLUSTER SLOTS, as far as it is read. */
  datatype Reply = Array(elements: seq<Reply>) | Integer(n: int) | Text(s: Str) | OtherReply

  /** (unsigned int) of a long long. */
  function Unsigned32(n: int): Unsigned {
    n % TWO_TO_32
  }

  /** (int) of a long long. */
  function Signed32(n: int): (p: int)
    ensures 0 - TWO_TO_31 <= p < TWO_TO_31 && (n - p) % TWO_TO_32 == 0
  {
    if n % TWO_TO_32 < TWO_TO_31 then n % TWO_TO_32 else n % TWO_TO_32 - TWO_TO_32
  }

  predicate IsSlotRow(r: Reply) {
    && r.Array? && |r.elements| >= 3 && r.elements[0].Integer? && r.elements[1].Integer?
    && r.elements[2].Array? && |r.elements[2].elements| >= 2
    && r.elements[2].elements[0].Text? && r.elements[2].elements[1].Integer?
  }

  /** The entries of the rows before the first one that is malformed or whose node does not answer. */
  function Rows(rows: seq<Reply>, connect: (Str, int) -> Option<Conn>): seq<Node> {
    if rows == [] || !IsSlotRow(rows[0]) then []
    else
      match connect(rows[0].elements[2].elements[0].s, Signed32(rows[0].elements[2].elements[1].n))
      case None => []
      case Some(conn) =>
        [Node(Unsigned32(rows[0].elements[0].n), Unsigned32(rows[0].elements[1].n), conn)] + Rows(rows[1..], connect)
  }

  function InsertAll(nodes: seq<Node>, more: seq<Node>): seq<Node> {
    if more == [] then nodes else Inserted(InsertAll(nodes, more[..|more| - 1]), more[|more| - 1])
  }

  // ---------------------------------------------------------------- what the reply says

  /** A row tells of a range of slots, from its first integer to its second. */
  predicate Ranges(row: Reply, from: int, to: int) {
    row.Array? && |row.elements| >= 3 && row.elements[0] == Integer(from) && row.elements[1] == Integer(to)
  }

  /** And of its node, by host and port. */
  predicate Serves(row: Reply, host: Str, port: int) {
    && row.Array? && |row.elements| >= 3 && row.elements[2].Array?
    && |row.elements[2].elements| >= 2 && row.elements[2].elements[..2] == [Text(host), Integer(port)]
  }

  /** The map's entry for a row: the range as unsigned ints and the connection to the row's own node. */
  ghost predicate IsEntry(row: Reply, connect: (Str, int) -> Option<Conn>, n: Node) {
    && (exists from, to :: Ranges(row, from, to) && n.first == from % 0x1_0000_0000 && n.last == to % 0x1_0000_0000)
    && (exists host, port :: Serves(row, host, port) && connect(host, Signed32(port)) == Some(n.conn))
  }

  ghost predicate HasEntry(row: Reply, connect: (Str, int) -> Option<Conn>) {
    exists n: Node :: IsEntry(row, connect, n)
  }

  /** The entry is that of some row, and no row in front of that one starts with the same slot. */
  ghost predicate IsFirstEntry(rows: seq<Reply>, connect: (Str, int) -> Option<Conn>, n: Node) {
    exists k :: 0 <= k < |rows| && IsEntry(rows[k], connect, n)
      && forall j, m: Node :: 0 <= j < k && IsEntry(rows[j], connect, m) ==> m.first != n.first
  }

  lemma RowEntry(row: Reply, connect: (Str, int) -> Option<Conn>, n: Node)
    ensures IsEntry(row, connect, n) <==>
            && IsSlotRow(row)
            && var e := row.elements;
               connect(e[2].elements[0].s, Signed32(e[2].elements[1].n))
                 == Some(n.conn) && n.first == Unsigned32(e[0].n) && n.last == Unsigned32(e[1].n)
  {
    if IsSlotRow(row) {
      var e := row.elements;
      assert Ranges(row, e[0].n, e[1].n);
      assert Serves(row, e[2].elements[0].s, e[2].elements[1].n);
    }
    if IsEntry(row, connect, n) {
      var from, to :| Ranges(row, from, to) && n.first == from % 0x1_0000_0000 && n.last == to % 0x1_0000_0000;
      var host, port :| Serves(row, host, port) && connect(host, Signed32(port)) == Some(n.conn);
      assert row.elements[2].elements[0] == row.elements[2].elements[..2][0] == Text(host);
      assert row.elements[2].elements[1] == row.elements[2].elements[..2][1] == Integer(port);
    }
    hide Unsigned32, Signed32;
  }

  /** Rows gives the entries of the rows, one for each, up to the first row that has none. */
  lemma {:induction false} RowsAreEntries(rows: seq<Reply>, connect: (Str, int) -> Option<Conn>)
    ensures var all := Rows(rows, connect);
            && |all| <= |rows|
            && (forall k, n: Node | 0 <= k < |all| :: IsEntry(rows[k], connect, n) <==> n == all[k])
            && (|all| < |rows| ==> !HasEntry(rows[|all|], connect))
  {
    hide IsEntry, IsSlotRow, Unsigned32, Signed32;
    if rows != [] {
      forall n: Node ensures IsEntry(rows[0], connect, n) ==> Rows(rows, connect) != [] && Rows(rows, connect)[0] == n {
        RowEntry(rows[0], connect, n);
      }
      if Rows(rows, connect) != [] {
        RowEntry(rows[0], connect, Rows(rows, connect)[0]);
        RowsAreEntries(rows[1..], connect);
        var (all, rest) := (Rows(rows, connect), Rows(rows[1..], connect));
        assert all[1..] == rest;
        forall k, n: Node | 0 <= k < |all| ensures IsEntry(rows[k], connect, n) <==> n == all[k] {
          if k > 0 {
            assert rows[k] == rows[1..][k - 1] && all[k] == rest[k - 1];
          }
        }
      }
    }
  }

  lemma NothingInserted()
    ensures InsertAll([], []) == []
  {
  }

  lemma InsertAllSnoc(nodes: seq<Node>, more: seq<Node>, n: Node)
    ensures InsertAll(nodes, more + [n]) == Inserted(InsertAll(nodes, more), n)
  {
    assert (more + [n])[..|more|] == more;
  }

  /** What Init builds is always in the map's order. */
  lemma {:induction false} InsertAllIsSorted(nodes: seq<Node>, more: seq<Node>)
    requires SortedNodes(nodes)
    ensures SortedNodes(InsertAll(nodes, more))
  {
    if more != [] {
      InsertAllIsSorted(nodes, more[..|more| - 1]);
      InsertedIsSorted(InsertAll(nodes, more[..|more| - 1]), more[|more| - 1]);
    }
  }

  predicate StartsBefore(rows: seq<Node>, k: nat, first: nat)
    requires k <= |rows|
  {
    exists j :: 0 <= j < k && rows[j].first == first
  }

  /** The row stands in `rows`, and none in front of it starts with the same slot. */
  predicate IsFirst(rows: seq<Node>, n: Node) {
    exists k :: 0 <= k < |rows| && rows[k] == n && !StartsBefore(rows, k, n.first)
  }

  predicate HasStart(nodes: seq<Node>, first: nat) {
    exists m :: m in nodes && m.first == first
  }

  lemma InsertedMembers(nodes: seq<Node>, n: Node)
    requires SortedNodes(nodes)
    ensures forall m :: m in Inserted(nodes, n) <==> m in nodes || (m == n && !HasStart(nodes, n.first))
  {
    InsertedIsSorted(nodes, n);
    if HasStart(nodes, n.first) {
      var m :| m in nodes && m.first == n.first;
      var i :| 0 <= i < |nodes| && nodes[i] == m;
      var k := LowerBound(nodes, n.first);
      assert k <= i;
    }
  }

  /** Of the rows that start with the same slot the first is in the map, and nothing else is. */
  lemma {:induction false} InsertAllHoldsRows(rows: seq<Node>)
    ensures forall n :: n in InsertAll([], rows) <==> IsFirst(rows, n)
    ensures forall first: nat :: HasStart(InsertAll([], rows), first) <==> StartsBefore(rows, |rows|, first)
    ensures SortedNodes(InsertAll([], rows))
  {
    hide Inserted, SortedNodes, IsFirst, HasStart, StartsBefore;
    InsertAllIsSorted([], rows);
    if rows == [] {
      NoRows();
    } else {
      var before, last := rows[..|rows| - 1], rows[|rows| - 1];
      var nodes := InsertAll([], before);
      InsertAllIsSorted([], before);
      InsertAllHoldsRows(before);
      InsertedMembers(nodes, last);
      assert rows == before + [last];
      forall n ensures n in InsertAll([], rows) <==> IsFirst(rows, n) {
        FirstOfMore(before, last, n);
      }
      forall first: nat ensures HasStart(InsertAll([], rows), first) <==> StartsBefore(rows, |rows|, first) {
        StartOfMore(before, last, nodes, InsertAll([], rows), first);
      }
    }
  }

  lemma NoRows()
    ensures forall n :: n in InsertAll([], []) <==> IsFirst([], n)
    ensures forall first: nat :: HasStart(InsertAll([], []), first) <==> StartsBefore([], 0, first)
  {
  }

  lemma StartOfMore(before: seq<Node>, last: Node, nodes: seq<Node>, nodes': seq<Node>, first: nat)
    requires HasStart(nodes, first) <==> StartsBefore(before, |before|, first)
    requires forall m :: m in nodes' <==> m in nodes || (m == last && !HasStart(nodes, last.first))
    ensures HasStart(nodes', first) <==> StartsBefore(before + [last], |before| + 1, first)
  {
    var rows := before + [last];
    if HasStart(nodes', first) {
      var m :| m in nodes' && m.first == first;
      if m !in nodes {
        assert rows[|before|].first == first;
      } else {
        var j :| 0 <= j < |before| && before[j].first == first;
        assert rows[j].first == first;
      }
    }
    if StartsBefore(rows, |rows|, first) {
      var j :| 0 <= j < |rows| && rows[j].first == first;
      if j < |before| {
        assert before[j].first == first;
        var m :| m in nodes && m.first == first;
        assert m in nodes';
      } else if HasStart(nodes, first) {
        var m :| m in nodes && m.first == first;
        assert m in nodes';
      } else {
        assert last in nodes';
      }
    }
  }

  lemma FirstOfMore(before: seq<Node>, last: Node, n: Node)
    ensures IsFirst(before + [last], n)
       <==> IsFirst(before, n) || (n == last && !StartsBefore(before, |before|, last.first))
  {
    var rows := before + [last];
    forall k | 0 <= k <= |before|
      ensures StartsBefore(rows, k, n.first) == StartsBefore(before, k, n.first)
    {
      assert forall j :: 0 <= j < k ==> rows[j] == before[j];
    }
    if IsFirst(before, n) {
      var k :| 0 <= k < |before| && before[k] == n && !StartsBefore(before, k, n.first);
      assert rows[k] == n && !StartsBefore(rows, k, n.first);
    }
    if n == last && !StartsBefore(before, |before|, last.first) {
      assert rows[|before|] == n && !StartsBefore(rows, |before|, n.first);
    }
    if IsFirst(rows, n) {
      var k :| 0 <= k < |rows| && rows[k] == n && !StartsBefore(rows, k, n.first);
      if k < |before| {
        assert before[k] == n;
      }
    }
  }

  /** The map that Init fills, told by the rows of the reply. */
  lemma InitHoldsEntries(rows: seq<Reply>, connect: (Str, int) -> Option<Conn>)
    ensures |Rows(rows, connect)| == |rows| <==> forall k | 0 <= k < |rows| :: HasEntry(rows[k], connect)
    ensures |Rows(rows, connect)| == |rows| ==>
              forall n: Node :: n in InsertAll([], Rows(rows, connect)) <==> IsFirstEntry(rows, connect, n)
  {
    var all := Rows(rows, connect);
    RowsAreEntries(rows, connect);
    InsertAllHoldsRows(all);
    hide Rows, InsertAll, IsEntry;
    forall k | 0 <= k < |all| ensures HasEntry(rows[k], connect) {
      assert IsEntry(rows[k], connect, all[k]);
    }
    if |all| == |rows| {
      forall n: Node ensures IsFirst(all, n) <==> IsFirstEntry(rows, connect, n) {
        FirstIsEntry(rows, connect, all, n);
      }
    }
  }

  lemma FirstIsEntry(rows: seq<Reply>, connect: (Str, int) -> Option<Conn>, all: seq<Node>, n: Node)
    requires |all| == |rows|
    requires forall k, m: Node | 0 <= k < |all| :: IsEntry(rows[k], connect, m) <==> m == all[k]
    ensures IsFirst(all, n) <==> IsFirstEntry(rows, connect, n)
  {
    hide IsEntry;
    if IsFirst(all, n) {
      var k :| 0 <= k < |all| && all[k] == n && !StartsBefore(all, k, n.first);
      assert IsEntry(rows[k], connect, n);
      forall j, m: Node | 0 <= j < k && IsEntry(rows[j], connect, m) ensures m.first != n.first {
        assert all[j] == m;
      }
    }
    if IsFirstEntry(rows, connect, n) {
      var k :| 0 <= k < |rows| && IsEntry(rows[k], connect, n)
        && forall j, m: Node :: 0 <= j < k && IsEntry(rows[j], connect, m) ==> m.first != n.first;
      forall j | 0 <= j < k ensures all[j].first != n.first {
        assert IsEntry(rows[j], connect, all[j]);
      }
      assert all[k] == n && !StartsBefore(all, k, n.first);
    }
  }

  class Cluster {
    var nodes: seq<Node>
    var readytouse: bool
    var isMoved: bool

    constructor ()
      ensures nodes == [] && !readytouse && !isMoved
    {
      nodes := [];
      readytouse := false;
      isMoved := false;
    }

    method Insert(n: Node)
      modifies this`nodes
      ensures nodes == Inserted(old(nodes), n)
    {
      var k := LowerBound(nodes, n.first);
      if !(k < |nodes| && nodes[k].first == n.first) {
        nodes := nodes[..k] + [n] + nodes[k..];
      }
    }

    /**
     Ready exactly when every row is well formed and every node answers; then the map holds the entries of
     the rows, and of rows that start with the same slot the first one's.
     */
    method Init(reply: Reply, connect: (Str, int) -> Option<Conn>) returns (r: Result<bool, Error>)
      requires nodes == [] && !readytouse
      modifies this`nodes, this`readytouse
      ensures readytouse == r.Ok? && (r.Err? ==> r.error == ConnectionFailed)
      ensures r.Ok? <==> reply.Array? && forall k | 0 <= k < |reply.elements| :: HasEntry(reply.elements[k], connect)
      ensures r.Ok? ==> forall n: Node :: n in nodes <==> IsFirstEntry(reply.elements, connect, n)
      ensures SortedNodes(nodes)
      ensures reply.Array? ==> nodes == InsertAll([], Rows(reply.elements, connect))
    {
      hide Inserted, InsertAll, Unsigned32, Signed32, HasEntry, IsFirstEntry, IsEntry;
      if !reply.Array? {
        return Err(ConnectionFailed);
      }
      assert InsertAll([], []) == [] by { NothingInserted(); }
      var rows := reply.elements;
      ghost var all := Rows(rows, connect);
      InitHoldsEntries(rows, connect);
      InsertAllIsSorted([], all);
      var i := 0;
      while i < |rows|
        invariant i <= |rows| && i <= |all| && all[i..] == Rows(rows[i..], connect)
        invariant nodes == InsertAll([], all[..i])
        invariant !readytouse
      {
        if !IsSlotRow(rows[i]) {
          assert all[..i] == all;
          return Err(ConnectionFailed);
        }
        var conn := connect(rows[i].elements[2].elements[0].s, Signed32(rows[i].elements[2].elements[1].n));
        if conn == None {
          assert all[..i] == all;
          return Err(ConnectionFailed);
        }
        var n := Node(Unsigned32(rows[i].elements[0].n), Unsigned32(rows[i].elements[1].n), conn.value);
        assert rows[i..][1..] == rows[i + 1..];
        assert all[i] == all[i..][0] == n && all[i + 1..] == all[i..][1..];
        Insert(n);
        InsertAllSnoc([], all[..i], n);
        assert all[..i + 1] == all[..i] + [n];
        i := i + 1;
      }
      assert all[..i] == all;
      readytouse := true;
      return Ok(true);
    }

    /** searchBySlots: the last entry that does not start behind the slot, if it reaches the slot. */
    method SearchBySlots(index: nat) returns (r: Result<nat, Error>)
      requires index < TWO_TO_32
      ensures r == Search(nodes, index)
    {
      var node := LowerBound(nodes, Unsigned32(index + 1));
      if node == 0 {
        return Err(NodeSearch);
      }
      node := node - 1;
      if nodes[node].first > index || nodes[node].last < index {
        return Err(NodeSearch);
      }
      return Ok(node);
    }

    method GetConnection(key: Str) returns (r: Result<Node, Error>)
      ensures r == Route(nodes, readytouse, key)
    {
      if !readytouse {
        return Err(NotInitialized);
      }
      var slot := SlotByKey(key);
      var found := SearchBySlots(slot);
      match found
      case Ok(k) => return Ok(nodes[k]);
      case Err(e) => return Err(e);
    }

    method Moved()
      modifies this`isMoved
      ensures isMoved
    {
      isMoved := true;
    }

    method Stop()
      modifies this`readytouse
      ensures !readytouse
    {
      readytouse := false;
    }
  }

  /** What searchBySlots finds; stepping back from the first entry finds nothing. */
  function Search(nodes: seq<Node>, index: nat): (r: Result<nat, Error>)
    ensures r.Ok? ==> r.value < |nodes|
  {
    var k := LowerBound(nodes, Unsigned32(index + 1));
    if k == 0 || nodes[k - 1].first > index || nodes[k - 1].last < index then Err(NodeSearch) else Ok(k - 1)
  }

  function Route(nodes: seq<Node>, ready: bool, key: Str): Result<Node, Error> {
    if !ready then Err(NotInitialized)
    else
      match Search(nodes, SlotOf(Hashed(key)))
      case Ok(k) => Ok(nodes[k])
      case Err(e) => Err(e)
  }

  /** The reference: the first entry, from the front, whose range holds the slot. */
  function Scan(nodes: seq<Node>, slot: nat): Result<nat, Error> {
    if nodes == [] then Err(NodeSearch)
    else if Contains(nodes[0], slot) then Ok(0)
    else match Scan(nodes[1..], slot)
    case Ok(k) => Ok(k + 1)
    case Err(e) => Err(e)
  }

  lemma {:induction false} ScanFinds(nodes: seq<Node>, slot: nat, k: nat)
    requires k < |nodes| && Contains(nodes[k], slot) && forall i | 0 <= i < k :: !Contains(nodes[i], slot)
    ensures Scan(nodes, slot) == Ok(k)
  {
    if k > 0 {
      assert !Contains(nodes[0], slot);
      ScanFinds(nodes[1..], slot, k - 1);
    }
  }

  lemma {:induction false} ScanFails(nodes: seq<Node>, slot: nat)
    requires forall i | 0 <= i < |nodes| :: !Contains(nodes[i], slot)
    ensures Scan(nodes, slot) == Err(NodeSearch)
  {
    if nodes != [] {
      assert !Contains(nodes[0], slot);
      ScanFails(nodes[1..], slot);
    }
  }

  lemma {:induction false} ScanStopsBy(nodes: seq<Node>, slot: nat, k: nat)
    requires k < |nodes| && Contains(nodes[k], slot)
    ensures Scan(nodes, slot).Ok? && Scan(nodes, slot).value <= k
  {
    if !Contains(nodes[0], slot) {
      ScanStopsBy(nodes[1..], slot, k - 1);
    }
  }

  /**
   If each range that is not empty ends before the next one starts, the predecessor search finds what a
   scan of all the ranges finds, and fails exactly when no range holds the slot.
   */
  lemma SearchIsScan(nodes: seq<Node>, slot: nat)
    requires SortedNodes(nodes) && Ordered(nodes) && slot + 1 < TWO_TO_32
    ensures Search(nodes, slot) == Scan(nodes, slot)
    ensures Search(nodes, slot).Err? <==> forall k | 0 <= k < |nodes| :: !Contains(nodes[k], slot)
  {
    hide Unsigned32, SortedNodes, Ordered, LowerBound, Scan, Contains;
    SmallStays(slot + 1);
    var k := LowerBound(nodes, slot + 1);
    SearchLooksAt(nodes, slot, k);
    forall i | 0 <= i < |nodes| && i + 1 != k ensures !Contains(nodes[i], slot) {
      OnlyThePredecessor(nodes, slot, k, i);
    }
    if k > 0 && Contains(nodes[k - 1], slot) {
      ScanFinds(nodes, slot, k - 1);
    } else {
      ScanFails(nodes, slot);
    }
  }

  /** No range that is not empty ends with the last unsigned int. */
  predicate LastIsFree(nodes: seq<Node>) {
    forall i :: 0 <= i < |nodes| ==> IsEmpty(nodes[i]) || nodes[i].last + 1 < TWO_TO_32
  }

  /** Search and scan agree on every unsigned int exactly under that condition; for the last, index + 1 wraps. */
  lemma SearchIsScanIff(nodes: seq<Node>)
    requires SortedNodes(nodes)
    ensures (forall slot: Unsigned :: Search(nodes, slot) == Scan(nodes, slot)) <==> Ordered(nodes) && LastIsFree(nodes)
  {
    if Ordered(nodes) && LastIsFree(nodes) {
      forall slot: Unsigned ensures Search(nodes, slot) == Scan(nodes, slot) {
        if slot + 1 < TWO_TO_32 {
          SearchIsScan(nodes, slot);
        } else {
          ScanFails(nodes, slot);
        }
      }
    } else if !Ordered(nodes) {
      var i :| 0 <= i < |nodes| && !EndsInTime(nodes, i);
      OverlapMisroutes(nodes, i);
    } else {
      var i :| 0 <= i < |nodes| && !IsEmpty(nodes[i]) && nodes[i].last + 1 == TWO_TO_32;
      ScanStopsBy(nodes, nodes[i].last, i);
    }
  }

  /** A range that reaches the start of the next loses that slot to it. */
  lemma OverlapMisroutes(nodes: seq<Node>, i: nat)
    requires SortedNodes(nodes) && i < |nodes| && !EndsInTime(nodes, i)
    ensures Search(nodes, nodes[i + 1].first) != Scan(nodes, nodes[i + 1].first)
  {
    var slot := nodes[i + 1].first;
    assert nodes[i].first < slot;
    ScanStopsBy(nodes, slot, i);
    hide Scan;
    if slot + 1 < TWO_TO_32 {
      hide LowerBound, Unsigned32;
      SmallStays(slot + 1);
      BoundBehind(nodes, i + 1);
      SearchLooksAt(nodes, slot, i + 2);
    } else {
      hide Scan, Unsigned32;
      NothingBelowZero(nodes, slot);
    }
  }

  lemma BoundIs(nodes: seq<Node>, first: nat, k: nat)
    requires k <= |nodes| && (k < |nodes| ==> nodes[k].first >= first)
    requires forall i :: 0 <= i < k ==> nodes[i].first < first
    ensures LowerBound(nodes, first) == k
  {
    var l := LowerBound(nodes, first);
    hide LowerBound;
  }

  lemma BoundBehind(nodes: seq<Node>, i: nat)
    requires SortedNodes(nodes) && i < |nodes|
    ensures LowerBound(nodes, nodes[i].first + 1) == i + 1
  {
    hide LowerBound;
    forall j | 0 <= j < i + 1 ensures nodes[j].first < nodes[i].first + 1 {
      assert j < i ==> nodes[j].first < nodes[i].first;
    }
    BoundIs(nodes, nodes[i].first + 1, i + 1);
  }

  /** For the last unsigned int the bound wraps to zero, and nothing is found. */
  lemma NothingBelowZero(nodes: seq<Node>, slot: nat)
    requires slot + 1 == TWO_TO_32
    ensures Search(nodes, slot) == Err(NodeSearch)
  {
    assert Unsigned32(slot + 1) == 0;
  }

  lemma SmallStays(n: nat)
    requires n < TWO_TO_32
    ensures Unsigned32(n) == n
  {
  }

  lemma SearchLooksAt(nodes: seq<Node>, slot: nat, k: nat)
    requires k == LowerBound(nodes, Unsigned32(slot + 1))
    ensures Search(nodes, slot) == if k > 0 && Contains(nodes[k - 1], slot) then Ok((k - 1) as nat) else Err(NodeSearch)
  {
  }

  lemma OnlyThePredecessor(nodes: seq<Node>, slot: nat, k: nat, i: nat)
    requires SortedNodes(nodes) && Ordered(nodes) && k == LowerBound(nodes, slot + 1) && i < |nodes| && i + 1 != k
    ensures !Contains(nodes[i], slot)
  {
    if i >= k {
      assert nodes[k].first <= nodes[i].first;
    } else {
      assert EndsInTime(nodes, i);
      assert nodes[i + 1].first <= nodes[k - 1].first <= slot;
    }
  }

  /** Without that condition an empty range can hide the range that holds the slot. */
  lemma EmptyRangeHides()
    ensures var nodes := [Node(4, 10, 1), Node(5, 3, 2)];
            SortedNodes(nodes) && Search(nodes, 6).Err? && Scan(nodes, 6) == Ok(0)
  {
    var nodes := [Node(4, 10, 1), Node(5, 3, 2)];
    assert nodes[1..] == [Node(5, 3, 2)] && nodes[1..][1..] == [];
    assert LowerBound(nodes, 7) == 2;
  }

  /** Ranges over all the slots route every key, to the node whose range holds the key's slot. */
  lemma EveryKeyIsRouted(nodes: seq<Node>, key: Str)
    requires SortedNodes(nodes) && Ordered(nodes) && Covers(nodes)
    ensures var r := Route(nodes, true, key);
            r.Ok? && r.value in nodes && Contains(r.value, SlotOf(Hashed(key)))
  {
    hide SlotOf, Hashed, LowerBound;
    var slot := SlotOf(Hashed(key));
    SearchIsScan(nodes, slot);
    assert Covered(nodes, slot);
  }

  /** Keys that share a hash tag go to the same node, whatever the ranges. */
  lemma SameTagSameNode(nodes: seq<Node>, ready: bool, a: Str, s: nat, e: nat, b: Str, t: nat, f: nat)
    requires TagAt(a, s, e) && TagAt(b, t, f) && a[s + 1..e] == b[t + 1..f]
    ensures Route(nodes, ready, a) == Route(nodes, ready, b)
  {
    hide SlotOf, Hashed, Search;
    SameTagSameSlot(a, s, e, b, t, f);
  }

  // ---------------------------------------------------------------- from the reply to the node of a key

  ghost predicate AllAnswer(rows: seq<Reply>, connect: (Str, int) -> Option<Conn>) {
    forall k | 0 <= k < |rows| :: HasEntry(rows[k], connect)
  }

  /** By the rows' integers, no range is empty or beyond unsigned int, and no two overlap. */
  ghost predicate RangesApart(rows: seq<Reply>) {
    && (forall k, from, to | 0 <= k < |rows| && Ranges(rows[k], from, to) :: 0 <= from <= to < 0x1_0000_0000)
    && (forall j, k, a, b, from, to | 0 <= j < k < |rows| && Ranges(rows[j], a, b) && Ranges(rows[k], from, to) ::
          b < from || to < a)
  }

  /** Row `k` has the slot in its range. */
  ghost predicate HoldsSlot(rows: seq<Reply>, k: nat, slot: nat) {
    k < |rows| && exists from, to :: Ranges(rows[k], from, to) && from <= slot <= to
  }

  ghost predicate SlotHeld(rows: seq<Reply>, slot: nat) {
    exists k: nat :: HoldsSlot(rows, k, slot)
  }

  ghost predicate RangesCover(rows: seq<Reply>) {
    forall slot: nat | slot < 16384 :: SlotHeld(rows, slot)
  }

  lemma EntryRange(row: Reply, connect: (Str, int) -> Option<Conn>, n: Node)
    requires IsEntry(row, connect, n)
    requires forall from, to | Ranges(row, from, to) :: 0 <= from <= to < 0x1_0000_0000
    ensures Ranges(row, n.first, n.last)
    ensures forall from, to | Ranges(row, from, to) :: from == n.first && to == n.last
  {
    var from, to :| Ranges(row, from, to) && n.first == from % 0x1_0000_0000 && n.last == to % 0x1_0000_0000;
    assert from == n.first && to == n.last;
  }

  lemma EntriesAreDisjoint(rows: seq<Reply>, connect: (Str, int) -> Option<Conn>, nodes: seq<Node>)
    requires RangesApart(rows) && SortedNodes(nodes) && forall n: Node :: n in nodes <==> IsFirstEntry(rows, connect, n)
    ensures Disjoint(nodes)
  {
    hide IsEntry, Ranges;
    forall i | 0 <= i < |nodes| ensures nodes[i].first <= nodes[i].last {
      assert IsFirstEntry(rows, connect, nodes[i]);
      var k :| 0 <= k < |rows| && IsEntry(rows[k], connect, nodes[i]);
      EntryRange(rows[k], connect, nodes[i]);
    }
    forall i, j | 0 <= i < j < |nodes| ensures nodes[i].last < nodes[j].first || nodes[j].last < nodes[i].first {
      assert IsFirstEntry(rows, connect, nodes[i]) && IsFirstEntry(rows, connect, nodes[j]);
      var k :| 0 <= k < |rows| && IsEntry(rows[k], connect, nodes[i]);
      var l :| 0 <= l < |rows| && IsEntry(rows[l], connect, nodes[j]);
      EntryRange(rows[k], connect, nodes[i]);
      EntryRange(rows[l], connect, nodes[j]);
    }
  }

  /** Every row that does not overlap others has its entry in the map. */
  lemma EntryIsFirst(rows: seq<Reply>, connect: (Str, int) -> Option<Conn>, k: nat) returns (n: Node)
    requires RangesApart(rows) && AllAnswer(rows, connect) && k < |rows|
    ensures IsEntry(rows[k], connect, n) && IsFirstEntry(rows, connect, n) && Ranges(rows[k], n.first, n.last)
  {
    hide IsEntry, Ranges;
    assert HasEntry(rows[k], connect);
    n :| IsEntry(rows[k], connect, n);
    EntryRange(rows[k], connect, n);
    forall j, m: Node | 0 <= j < k && IsEntry(rows[j], connect, m) ensures m.first != n.first {
      EntryRange(rows[j], connect, m);
    }
  }

  lemma EntriesCover(rows: seq<Reply>, connect: (Str, int) -> Option<Conn>, nodes: seq<Node>)
    requires RangesApart(rows) && RangesCover(rows) && AllAnswer(rows, connect)
    requires forall n: Node :: n in nodes <==> IsFirstEntry(rows, connect, n)
    ensures Covers(nodes)
  {
    hide IsEntry, RangesApart, AllAnswer, IsFirstEntry;
    forall slot: nat | slot < SLOTS ensures Covered(nodes, slot) {
      assert SlotHeld(rows, slot);
      var k: nat :| HoldsSlot(rows, k, slot);
      var n := EntryIsFirst(rows, connect, k);
      var from, to :| Ranges(rows[k], from, to) && from <= slot <= to;
      assert from == n.first && to == n.last;
      assert n in nodes;
    }
  }

  /**
   A cluster initialised from a reply whose rows are well formed, whose nodes answer and whose ranges are
   non-empty, do not overlap and cover all slots routes every key, to the node of the one row whose integers
   enclose the key's slot.
   */
  method InitAndRoute(reply: Reply, connect: (Str, int) -> Option<Conn>, key: Str) returns (r: Result<Node, Error>)
    requires reply.Array? && AllAnswer(reply.elements, connect)
    requires RangesApart(reply.elements) && RangesCover(reply.elements)
    ensures r.Ok?
    ensures exists k: nat :: HoldsSlot(reply.elements, k, SlotOf(Hashed(key)))
              && IsEntry(reply.elements[k], connect, r.value)
    ensures forall k: nat | HoldsSlot(reply.elements, k, SlotOf(Hashed(key))) ::
              IsEntry(reply.elements[k], connect, r.value)
  {
    hide SlotOf, Hashed, Rows, InsertAll, Route, RangesCover, IsEntry;
    var cluster := new Cluster();
    var _ := cluster.Init(reply, connect);
    EntriesAreDisjoint(reply.elements, connect, cluster.nodes);
    EntriesCover(reply.elements, connect, cluster.nodes);
    DisjointIsOrdered(cluster.nodes);
    r := cluster.GetConnection(key);
    EveryKeyIsRouted(cluster.nodes, key);
    OwnRow(reply.elements, connect, cluster.nodes, r.value, SlotOf(Hashed(key)));
  }

  lemma OwnRow(rows: seq<Reply>, connect: (Str, int) -> Option<Conn>, nodes: seq<Node>, n: Node, slot: nat)
    requires RangesApart(rows) && forall m: Node :: m in nodes <==> IsFirstEntry(rows, connect, m)
    requires n in nodes && Contains(n, slot)
    ensures exists k: nat :: HoldsSlot(rows, k, slot) && IsEntry(rows[k], connect, n)
    ensures forall k: nat | HoldsSlot(rows, k, slot) :: IsEntry(rows[k], connect, n)
  {
    hide IsEntry, Ranges;
    assert IsFirstEntry(rows, connect, n);
    var l :| 0 <= l < |rows| && IsEntry(rows[l], connect, n);
    EntryRange(rows[l], connect, n);
    assert HoldsSlot(rows, l, slot);
    forall k: nat | HoldsSlot(rows, k, slot) ensures k == l {
      var from, to :| Ranges(rows[k], from, to) && from <= slot <= to;
    }
  }
}
