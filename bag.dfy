/**
 * What the `rosbag` crate hands to bag2rrd: a stream of chunk records, each
 * a chunk of message records (connections and message data) or some other
 * record, where any chunk or message may fail to read.  Both `convert_bag`
 * and `inspect_bag` stop at the first read error (`?`).
 */
module Bag {
  import opened Options
  import opened Wire

  datatype MessageRecord =
    | Connection(id: nat, topic: string, tp: string)
    | MessageData(connId: nat, time: nat, payload: Bytes)

  /** One item of a chunk's message iterator. */
  datatype MessageRead = Message(record: MessageRecord) | MessageError

  datatype ChunkRecord = Chunk(messages: seq<MessageRead>) | OtherRecord

  /** One item of `chunk_records()`. */
  datatype ChunkRead = ChunkOk(record: ChunkRecord) | ChunkError

  function Prepend<T>(acc: seq<T>, rest: Option<seq<T>>): Option<seq<T>>
  {
    if rest.Some? then Some(acc + rest.value) else None
  }

  /** The records of one chunk, or None if one of them fails to read. */
  function MessagesOf(items: seq<MessageRead>): Option<seq<MessageRecord>>
  {
    if |items| == 0 then Some([])
    else if items[0].MessageError? then None
    else Prepend([items[0].record], MessagesOf(items[1..]))
  }

  /** All message records of the bag in order, or None if any chunk or
    * message fails to read. */
  function Flatten(chunks: seq<ChunkRead>): Option<seq<MessageRecord>>
  {
    if |chunks| == 0 then Some([])
    else if chunks[0].ChunkError? then None
    else if chunks[0].record.OtherRecord? then Flatten(chunks[1..])
    else if MessagesOf(chunks[0].record.messages).None? then None
    else Prepend(MessagesOf(chunks[0].record.messages).value, Flatten(chunks[1..]))
  }

  predicate ChunkReadable(c: ChunkRead)
  {
    c.ChunkOk? && (c.record.Chunk? ==> forall j :: 0 <= j < |c.record.messages| ==> c.record.messages[j].Message?)
  }

  lemma {:induction false} MessagesOfSome(items: seq<MessageRead>)
    ensures MessagesOf(items).Some? <==> forall j :: 0 <= j < |items| ==> items[j].Message?
    ensures MessagesOf(items).Some? ==> |MessagesOf(items).value| == |items|
  {
    if |items| > 0 {
      MessagesOfSome(items[1..]);
      assert forall j :: 1 <= j < |items| ==> items[j] == items[1..][j - 1];
    }
  }

  /** The bag reads completely iff no chunk and no message fails. */
  lemma {:induction false} FlattenSome(chunks: seq<ChunkRead>)
    ensures Flatten(chunks).Some? <==> forall i :: 0 <= i < |chunks| ==> ChunkReadable(chunks[i])
  {
    if |chunks| > 0 {
      FlattenSome(chunks[1..]);
      assert forall i :: 1 <= i < |chunks| ==> chunks[i] == chunks[1..][i - 1];
      if chunks[0].ChunkOk? && chunks[0].record.Chunk? {
        MessagesOfSome(chunks[0].record.messages);
      }
    }
  }

  lemma PrependNothing<T>(rest: Option<seq<T>>)
    ensures Prepend([], rest) == rest
  {
    if rest.Some? {
      assert [] + rest.value == rest.value;
    }
  }

  lemma PrependAssoc<T>(a: seq<T>, b: seq<T>, rest: Option<seq<T>>)
    ensures Prepend(a, Prepend(b, rest)) == Prepend(a + b, rest)
  {
    if rest.Some? {
      assert a + (b + rest.value) == (a + b) + rest.value;
    }
  }

  /** The nested `for record in chunk_records() { let record = record?; ...
    * for msg in chunk.messages() { let msg = msg?; ... } }` iteration. */
  method ReadMessages(chunks: seq<ChunkRead>) returns (r: Option<seq<MessageRecord>>)
    ensures r == Flatten(chunks)
  {
    var all: seq<MessageRecord> := [];
    var i := 0;
    assert chunks[0..] == chunks;
    PrependNothing(Flatten(chunks));
    while i < |chunks|
      invariant 0 <= i <= |chunks|
      invariant Flatten(chunks) == Prepend(all, Flatten(chunks[i..]))
    {
      assert chunks[i..][1..] == chunks[i + 1..];
      if chunks[i].ChunkError? {
        return None;
      }
      if chunks[i].record.Chunk? {
        var items := chunks[i].record.messages;
        var inner: seq<MessageRecord> := [];
        var j := 0;
        assert items[0..] == items;
        PrependNothing(MessagesOf(items));
        while j < |items|
          invariant 0 <= j <= |items|
          invariant MessagesOf(items) == Prepend(inner, MessagesOf(items[j..]))
        {
          assert items[j..][1..] == items[j + 1..];
          if items[j].MessageError? {
            return None;
          }
          PrependAssoc(inner, [items[j].record], MessagesOf(items[j + 1..]));
          inner := inner + [items[j].record];
          j := j + 1;
        }
        assert items[j..] == [];
        assert inner + [] == inner;
        PrependAssoc(all, inner, Flatten(chunks[i + 1..]));
        all := all + inner;
      }
      i := i + 1;
    }
    assert chunks[i..] == [];
    assert all + [] == all;
    return Some(all);
  }

  // ---------------------------------------------------------------------
  // Connections
  // ---------------------------------------------------------------------

  /** Connection id to (topic, type). */
  type Connections = map<nat, (string, string)>

  predicate IsConnectionFor(r: MessageRecord, id: nat)
  {
    r.Connection? && r.id == id
  }

  /** The connection map after inserting every connection record in order. */
  function ConnectionMap(rs: seq<MessageRecord>): Connections
  {
    if |rs| == 0 then map[]
    else
      var m := ConnectionMap(rs[..|rs| - 1]);
      var r := rs[|rs| - 1];
      if r.Connection? then m[r.id := (r.topic, r.tp)] else m
  }

  /** The connection-collecting pass: `connections.insert(conn.id, ...)` for
    * every connection record. */
  method CollectConnections(rs: seq<MessageRecord>) returns (conns: Connections)
    ensures conns == ConnectionMap(rs)
  {
    conns := map[];
    var i := 0;
    while i < |rs|
      invariant 0 <= i <= |rs|
      invariant conns == ConnectionMap(rs[..i])
    {
      assert rs[..i + 1][..i] == rs[..i];
      if rs[i].Connection? {
        conns := conns[rs[i].id := (rs[i].topic, rs[i].tp)];
      }
      i := i + 1;
    }
    assert rs[..i] == rs;
  }

  /** An id is mapped iff some connection record declares it, and it maps to
    * the topic and type of the last such record. */
  lemma {:induction false} ConnectionMapLastWins(rs: seq<MessageRecord>, id: nat)
    ensures id in ConnectionMap(rs) <==> exists i :: 0 <= i < |rs| && IsConnectionFor(rs[i], id)
    ensures id in ConnectionMap(rs) ==>
      exists i :: 0 <= i < |rs| && rs[i] == Connection(id, ConnectionMap(rs)[id].0, ConnectionMap(rs)[id].1)
        && forall j :: i < j < |rs| ==> !IsConnectionFor(rs[j], id)
  {
    if |rs| > 0 {
      var front := rs[..|rs| - 1];
      ConnectionMapLastWins(front, id);
      ConnectionMapLast(rs, id);
      assert forall i :: 0 <= i < |front| ==> front[i] == rs[i];
      var last := |rs| - 1;
      if IsConnectionFor(rs[last], id) {
        assert rs[last] == Connection(id, ConnectionMap(rs)[id].0, ConnectionMap(rs)[id].1);
      } else if id in ConnectionMap(rs) {
        var i :| 0 <= i < |front| && front[i] == Connection(id, ConnectionMap(front)[id].0, ConnectionMap(front)[id].1)
                 && forall j :: i < j < |front| ==> !IsConnectionFor(front[j], id);
        LaterNone(rs, front, id, i);
        assert rs[i] == Connection(id, ConnectionMap(rs)[id].0, ConnectionMap(rs)[id].1);
      }
    }
  }

  /** No later record defines `id` when none does before the last and the
    * last does not. */
  lemma LaterNone(rs: seq<MessageRecord>, front: seq<MessageRecord>, id: nat, i: nat)
    requires |rs| > 0 && front == rs[..|rs| - 1]
    requires i < |front| && !IsConnectionFor(rs[|rs| - 1], id)
    requires forall j :: i < j < |front| ==> !IsConnectionFor(front[j], id)
    ensures forall j :: i < j < |rs| ==> !IsConnectionFor(rs[j], id)
  {
    assert forall j :: i < j < |front| ==> front[j] == rs[j];
  }

  /** The last record either defines `id` or leaves its entry as it was. */
  lemma ConnectionMapLast(rs: seq<MessageRecord>, id: nat)
    requires |rs| > 0
    ensures var m, r := ConnectionMap(rs[..|rs| - 1]), rs[|rs| - 1];
      && (IsConnectionFor(r, id) ==> id in ConnectionMap(rs) && ConnectionMap(rs)[id] == (r.topic, r.tp))
      && (!IsConnectionFor(r, id) ==> (id in ConnectionMap(rs) <==> id in m))
      && (!IsConnectionFor(r, id) && id in m ==> ConnectionMap(rs)[id] == m[id])
  {
  }

}
