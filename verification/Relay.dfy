/** The outbox relay: publish, then mark, row by row, with a failure possible anywhere. */
module Relay {
  import opened Rows
  import opened Dags
  import opened Transitions
  import opened Storage
  import opened Engines

  /** Which of the two calls fails for a row. */
  datatype Fault = PublishFails | MarkFails

  function Messages(outbox: seq<OutboxMessage>, rows: seq<nat>): seq<Message>
    requires forall k :: 0 <= k < |rows| ==> rows[k] < |outbox|
  {
    if rows == [] then []
    else Messages(outbox, rows[..|rows| - 1]) + [MessageOf(outbox[rows[|rows| - 1]])]
  }

  function Marked(outbox: seq<OutboxMessage>, rows: seq<nat>): (r: seq<OutboxMessage>)
    ensures |r| == |outbox|
    ensures forall i :: 0 <= i < |r| ==> r[i] == if i in rows then outbox[i].(published := true) else outbox[i]
  {
    seq(|outbox|, i requires 0 <= i < |outbox| => if i in rows then outbox[i].(published := true) else outbox[i])
  }

  /** Rows that are all still to be published. */
  predicate AllPending(outbox: seq<OutboxMessage>, rows: seq<nat>) {
    forall k :: 0 <= k < |rows| ==> rows[k] < |outbox| && !outbox[rows[k]].published
  }

  lemma {:induction false} FetchedSound(outbox: seq<OutboxMessage>, i: nat, limit: int)
    requires i <= |outbox|
    ensures var rows := PendingFrom(outbox, i, limit);
      && |rows| <= (if limit < 0 then 0 else limit)
      && forall r :: r in rows ==> i <= r < |outbox| && !outbox[r].published
    decreases |outbox| - i
  {
    if i < |outbox| && limit > 0 {
      FetchedSound(outbox, i + 1, if outbox[i].published then limit else limit - 1);
    }
  }

  lemma {:induction false} FetchedSorted(outbox: seq<OutboxMessage>, i: nat, limit: int, k: nat, l: nat)
    requires i <= |outbox| && k < l < |PendingFrom(outbox, i, limit)|
    ensures PendingFrom(outbox, i, limit)[k] < PendingFrom(outbox, i, limit)[l]
    decreases |outbox| - i
  {
    if outbox[i].published {
      FetchedSorted(outbox, i + 1, limit, k, l);
    } else {
      var rest := PendingFrom(outbox, i + 1, limit - 1);
      assert PendingFrom(outbox, i, limit) == [i] + rest;
      if k == 0 {
        FetchedSound(outbox, i + 1, limit - 1);
        assert rest[l - 1] in rest;
      } else {
        FetchedSorted(outbox, i + 1, limit - 1, k - 1, l - 1);
      }
    }
  }

  lemma {:induction false} FetchedComplete(outbox: seq<OutboxMessage>, i: nat, limit: int, j: nat)
    requires i <= j < |outbox| && !outbox[j].published && |PendingFrom(outbox, i, limit)| < limit
    ensures j in PendingFrom(outbox, i, limit)
    decreases |outbox| - i
  {
    if i < j {
      FetchedComplete(outbox, i + 1, if outbox[i].published then limit else limit - 1, j);
    }
  }

  /** The fetched rows are pending, ascending, within the limit, and complete if fewer. */
  lemma FetchedArePending(outbox: seq<OutboxMessage>, i: nat, limit: int)
    requires i <= |outbox|
    ensures var rows := PendingFrom(outbox, i, limit);
      && AllPending(outbox, rows) && |rows| <= (if limit < 0 then 0 else limit)
      && (forall k :: 0 <= k < |rows| ==> i <= rows[k])
      && (forall k, l :: 0 <= k < l < |rows| ==> rows[k] < rows[l])
      && (|rows| < limit ==> forall j: nat :: i <= j < |outbox| && !outbox[j].published ==> j in rows)
  {
    hide PendingFrom;
    var rows := PendingFrom(outbox, i, limit);
    FetchedSound(outbox, i, limit);
    forall k | 0 <= k < |rows| ensures i <= rows[k] < |outbox| && !outbox[rows[k]].published {
      assert rows[k] in rows;
    }
    forall k, l | 0 <= k < l < |rows| ensures rows[k] < rows[l] {
      FetchedSorted(outbox, i, limit, k, l);
    }
    if |rows| < limit {
      forall j: nat | i <= j < |outbox| && !outbox[j].published ensures j in rows {
        FetchedComplete(outbox, i, limit, j);
      }
    }
  }

  lemma {:induction false} PublishLeads(d: Dag, w: World, rows: seq<nat>)
    requires AllPending(w.outbox, rows)
    ensures Leads(d, w, w.(stream := w.stream + Messages(w.outbox, rows)))
    decreases |rows|
  {
    if rows == [] {
      assert w.stream + [] == w.stream;
      assert Valid(d, w, []);
    } else {
      var k := |rows| - 1;
      var w1 := w.(stream := w.stream + Messages(w.outbox, rows[..k]));
      PublishLeads(d, w, rows[..k]);
      hide Leads;
      LeadsOne(d, w1, Publish(rows[k]));
      assert w1.stream + [MessageOf(w.outbox[rows[k]])] == w.stream + Messages(w.outbox, rows);
      LeadsTransitive(d, w, w1, w.(stream := w.stream + Messages(w.outbox, rows)));
    }
  }

  lemma {:induction false} MarkLeads(d: Dag, w: World, rows: seq<nat>)
    requires forall k :: 0 <= k < |rows| ==> rows[k] < |w.outbox| && MessageOf(w.outbox[rows[k]]) in w.stream
    ensures Leads(d, w, w.(outbox := Marked(w.outbox, rows)))
    decreases |rows|
  {
    if rows == [] {
      assert Marked(w.outbox, []) == w.outbox;
      assert Valid(d, w, []);
    } else {
      var k := |rows| - 1;
      var w1 := w.(outbox := Marked(w.outbox, rows[..k]));
      MarkLeads(d, w, rows[..k]);
      hide Leads;
      assert MessageOf(w1.outbox[rows[k]]) == MessageOf(w.outbox[rows[k]]);
      LeadsOne(d, w1, MarkPublished(rows[k]));
      MarkedSnoc(w.outbox, rows[..k], rows[k]);
      assert rows == rows[..k] + [rows[k]];
      LeadsTransitive(d, w, w1, w.(outbox := Marked(w.outbox, rows)));
    }
  }

  lemma MarkedSnoc(outbox: seq<OutboxMessage>, rows: seq<nat>, row: nat)
    requires row < |outbox|
    ensures Marked(outbox, rows + [row]) == Marked(outbox, rows)[row := Marked(outbox, rows)[row].(published := true)]
  {
  }

  /** Marking a row does not change its message. */
  lemma MarkedMessage(outbox: seq<OutboxMessage>, rows: seq<nat>, row: nat)
    requires row < |outbox|
    ensures MessageOf(Marked(outbox, rows)[row]) == MessageOf(outbox[row])
  {
  }

  lemma {:induction false} MessagesHold(outbox: seq<OutboxMessage>, rows: seq<nat>, k: nat)
    requires (forall j :: 0 <= j < |rows| ==> rows[j] < |outbox|) && k < |rows|
    ensures MessageOf(outbox[rows[k]]) in Messages(outbox, rows)
    decreases |rows|
  {
    if k < |rows| - 1 {
      MessagesHold(outbox, rows[..|rows| - 1], k);
    }
  }

  /** The rows' messages, one for each and in their order. */
  lemma {:induction false} MessagesInOrder(outbox: seq<OutboxMessage>, rows: seq<nat>, k: nat)
    requires forall j :: 0 <= j < |rows| ==> rows[j] < |outbox|
    ensures |Messages(outbox, rows)| == |rows|
    ensures k < |rows| ==>
      var m := Messages(outbox, rows)[k];
      m.streamName == outbox[rows[k]].streamName && m.payload == outbox[rows[k]].payload
    decreases |rows|
  {
    if rows != [] {
      MessagesInOrder(outbox, rows[..|rows| - 1], k);
    }
  }

  lemma MessagesSnoc(outbox: seq<OutboxMessage>, rows: seq<nat>, row: nat)
    requires (forall j :: 0 <= j < |rows| ==> rows[j] < |outbox|) && row < |outbox|
    ensures Messages(outbox, rows + [row]) == Messages(outbox, rows) + [MessageOf(outbox[row])]
  {
    assert (rows + [row])[..|rows|] == rows;
  }

  /** Some of the fetched rows reached the queue, and at most those are marked. */
  lemma TickLeads(d: Dag, w: World, sent: seq<nat>, marked: seq<nat>)
    requires AllPending(w.outbox, sent) && marked <= sent
    ensures Leads(d, w, w.(stream := w.stream + Messages(w.outbox, sent), outbox := Marked(w.outbox, marked)))
  {
    var w1 := w.(stream := w.stream + Messages(w.outbox, sent));
    PublishLeads(d, w, sent);
    forall k | 0 <= k < |marked| ensures marked[k] < |w.outbox| && MessageOf(w.outbox[marked[k]]) in w1.stream {
      MessagesHold(w.outbox, sent, k);
    }
    hide Leads;
    MarkLeads(d, w1, marked);
    LeadsTransitive(d, w, w1, w1.(outbox := Marked(w.outbox, marked)));
  }

  class OutboxRelay {
    const q: Store
    const batchSize: int

    constructor (store: Store, batch: int)
      ensures q == store && batchSize == batch
    {
      q, batchSize := store, batch;
    }

    /** One poll.  `faults` says for which rows the queue or the store will fail;
        `rollback` whether the store undoes a failed transaction (a message that reached
        the queue is never undone). */
    method Tick(mine: bool, faults: map<nat, Fault>, rollback: bool) returns (published: nat, failed: bool, ghost rows: seq<nat>)
      requires q.Valid()
      modifies q`outbox, q`stream
      ensures q.Valid()
      ensures rows == if mine then PendingFrom(old(q.outbox), 0, batchSize) else []
      ensures published <= |rows| && AllPending(old(q.outbox), rows)
      ensures forall k :: 0 <= k < published ==> rows[k] !in faults
      ensures failed <==> published < |rows|
      ensures failed ==> rows[published] in faults
      ensures q.stream == old(q.stream) + Messages(old(q.outbox), rows[..Sent(rows, published, failed, faults)])
      ensures q.outbox == Marked(old(q.outbox), if failed && rollback then [] else rows[..published])
      ensures failed && faults[rows[published]].MarkFails? ==> MessageOf(old(q.outbox)[rows[published]]) in q.stream
      ensures mine && !failed && |rows| < batchSize ==> forall i :: 0 <= i < |q.outbox| ==> q.outbox[i].published
    {
      hide Messages, Marked, PendingFrom, Reachable, Leads, ValidDag;
      ghost var w := q.Contents();
      var fetched := q.FetchAndLockPendingOutbox(mine, batchSize);
      rows := fetched;
      FetchedArePending(q.outbox, 0, batchSize);
      var before := q.outbox;
      published, failed := RelayRows(fetched, faults);
      if failed && rollback {
        q.outbox := before;
        NothingSent(w);
      }
      TickLeads(q.dag, w, rows[..Sent(rows, published, failed, faults)], if failed && rollback then [] else rows[..published]);
      StepKeepsReachable(q.dag, w, q.Contents());
      assert failed || rows[..published] == rows;
      if failed && faults[rows[published]].MarkFails? {
        MessagesHold(w.outbox, rows[..published + 1], published);
      }
    }

    /** Publishes and marks the rows in turn, up to the first that fails. */
    method RelayRows(rows: seq<nat>, faults: map<nat, Fault>) returns (published: nat, failed: bool)
      requires AllPending(q.outbox, rows)
      modifies q`outbox, q`stream
      ensures published <= |rows| && (failed <==> published < |rows|)
      ensures forall k :: 0 <= k < published ==> rows[k] !in faults
      ensures failed ==> rows[published] in faults
      ensures q.stream == old(q.stream) + Messages(old(q.outbox), rows[..Sent(rows, published, failed, faults)])
      ensures q.outbox == Marked(old(q.outbox), rows[..published])
    {
      hide Messages, Marked, MessageOf;
      ghost var w := q.Contents();
      NothingSent(w);
      published, failed := 0, false;
      while published < |rows|
        invariant published <= |rows| && q.stream == w.stream + Messages(w.outbox, rows[..published])
        invariant q.outbox == Marked(w.outbox, rows[..published])
        invariant forall k :: 0 <= k < published ==> rows[k] !in faults
      {
        var row := rows[published];
        if row in faults && faults[row].PublishFails? {
          return published, true;
        }
        MessagesSnoc(w.outbox, rows[..published], row);
        MarkedSnoc(w.outbox, rows[..published], row);
        assert rows[..published + 1] == rows[..published] + [row];
        MarkedMessage(w.outbox, rows[..published], row);
        q.stream := q.stream + [MessageOf(q.outbox[row])];
        if row in faults {
          return published, true;
        }
        q.MarkOutboxPublished(row);
        published := published + 1;
      }
    }
  }

  /** How many rows reached the queue: a row whose mark failed did. */
  function Sent(rows: seq<nat>, published: nat, failed: bool, faults: map<nat, Fault>): (sent: nat)
    requires published <= |rows| && (failed ==> published < |rows| && rows[published] in faults)
    ensures published <= sent <= |rows|
  {
    if failed && faults[rows[published]].MarkFails? then published + 1 else published
  }

  lemma NothingSent(w: World)
    ensures w.stream + Messages(w.outbox, []) == w.stream && Marked(w.outbox, []) == w.outbox
  {
  }
}
