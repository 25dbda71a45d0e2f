/** The actions as they are committed: alone, or with the pass that ends their transaction. */
module Transactions {
  import opened Rows
  import opened Dags
  import opened Transitions
  import opened Reconciling

  datatype Transaction =
    | Alone(act: Action)
    | WithPass(act: Action, sch: Schedule)
    | Pass(sch: Schedule)

  /** Claims and their display, heartbeats, the marking of expired leases, superseded
      timers, the relay, and cancelling. */
  predicate CommitsAlone(act: Action) {
    || act.Claim? || act.Display? || act.Heartbeat? || act.Expire? || act.FireStale?
    || act.Publish? || act.MarkPublished? || act.Cancel?
  }

  /** Reports, applied expiries, retries and signals end with a pass. */
  predicate CommitsWithPass(act: Action) {
    act.Report? || act.ApplyExpiry? || act.Retry? || act.Deliver?
  }

  /** The message that tells a worker of the attempt has reached the queue. */
  predicate OnStream(w: World, a: nat, key: nat) {
    exists i :: 0 <= i < |w.stream| && w.stream[i].payload.attempt == a && w.stream[i].payload.idempotencyKey == key
  }

  predicate Possible(d: Dag, w: World, tx: Transaction) {
    match tx
    case Alone(act) => CommitsAlone(act) && Enabled(d, w, act) && (act.Claim? ==> OnStream(w, act.a, act.key))
    case WithPass(act, sch) => CommitsWithPass(act) && Enabled(d, w, act) && Fits(d, Apply(d, w, act), sch)
    case Pass(sch) => Fits(d, w, sch)
  }

  function Commit(d: Dag, w: World, tx: Transaction): World
    requires Possible(d, w, tx)
  {
    match tx
    case Alone(act) => Apply(d, w, act)
    case WithPass(act, sch) => Reconcile(d, Apply(d, w, act), sch)
    case Pass(sch) => Reconcile(d, w, sch)
  }

  /** Every transaction is possible when its turn comes. */
  predicate Committable(d: Dag, w: World, txs: seq<Transaction>)
    decreases |txs|, 0
  {
    txs == [] || (var k := |txs| - 1; Committable(d, w, txs[..k]) && Possible(d, Committed(d, w, txs[..k]), txs[k]))
  }

  function Committed(d: Dag, w: World, txs: seq<Transaction>): World
    requires Committable(d, w, txs)
    decreases |txs|, 1
  {
    if txs == [] then w else var k := |txs| - 1; Commit(d, Committed(d, w, txs[..k]), txs[k])
  }

  lemma Extend(d: Dag, w: World, txs: seq<Transaction>, tx: Transaction)
    requires Committable(d, w, txs) && Possible(d, Committed(d, w, txs), tx)
    ensures Committable(d, w, txs + [tx]) && Committed(d, w, txs + [tx]) == Commit(d, Committed(d, w, txs), tx)
  {
    hide Possible, Commit;
    assert (txs + [tx])[..|txs|] == txs;
  }

  lemma First(d: Dag, w: World, tx: Transaction)
    requires Possible(d, w, tx)
    ensures Committable(d, w, [tx]) && Committed(d, w, [tx]) == Commit(d, w, tx)
  {
    hide Possible, Commit;
    assert Committable(d, w, []);
    Extend(d, w, [], tx);
    assert [] + [tx] == [tx];
  }

  lemma {:induction false} Append(d: Dag, w: World, txs: seq<Transaction>, more: seq<Transaction>)
    requires Committable(d, w, txs) && Committable(d, Committed(d, w, txs), more)
    ensures Committable(d, w, txs + more) && Committed(d, w, txs + more) == Committed(d, Committed(d, w, txs), more)
    decreases |more|
  {
    hide Possible, Commit;
    if more == [] {
      assert txs + more == txs;
    } else {
      var k := |more| - 1;
      Append(d, w, txs, more[..k]);
      Extend(d, w, txs + more[..k], more[k]);
      assert txs + more == txs + more[..k] + [more[k]];
    }
  }

  // ------------------------------------------------------ transactions are traces

  /** The action is that of a pass, or the transaction's own. */
  predicate PartOf(act: Action, tx: Transaction) {
    ReconcileAction(act) || (!tx.Pass? && act == tx.act)
  }

  ghost predicate PartOfSome(act: Action, txs: seq<Transaction>) {
    ReconcileAction(act) || exists j :: 0 <= j < |txs| && PartOf(act, txs[j])
  }

  ghost predicate AllParts(tr: seq<Action>, txs: seq<Transaction>) {
    forall i :: 0 <= i < |tr| ==> PartOfSome(tr[i], txs)
  }

  lemma TransactionTrace(d: Dag, w: World, tx: Transaction) returns (tr: seq<Action>)
    requires Possible(d, w, tx)
    ensures Valid(d, w, tr) && After(d, w, tr) == Commit(d, w, tx)
    ensures forall i :: 0 <= i < |tr| ==> PartOf(tr[i], tx)
  {
    hide Enabled, Apply, Fits, Reconcile, Valid, After, OnStream;
    match tx
    case Alone(act) =>
      ActionTrace(d, w, act);
      tr := [act];
    case WithPass(act, sch) =>
      ActionTrace(d, w, act);
      var rest := ReconcileTrace(d, Apply(d, w, act), sch);
      Concat(d, w, [act], rest);
      tr := [act] + rest;
    case Pass(sch) =>
      tr := ReconcileTrace(d, w, sch);
  }

  /** Committed transactions are a trace of their own actions and those of passes. */
  lemma {:induction false} TransactionsTrace(d: Dag, w: World, txs: seq<Transaction>) returns (tr: seq<Action>)
    requires Committable(d, w, txs)
    ensures Valid(d, w, tr) && After(d, w, tr) == Committed(d, w, txs) && AllParts(tr, txs)
    decreases |txs|
  {
    hide Enabled, Apply, Possible, Commit, PartOf;
    if txs == [] {
      tr := [];
    } else {
      var k := |txs| - 1;
      var front := TransactionsTrace(d, w, txs[..k]);
      var last := TransactionTrace(d, Committed(d, w, txs[..k]), txs[k]);
      Concat(d, w, front, last);
      tr := front + last;
      forall i | 0 <= i < |tr| ensures PartOfSome(tr[i], txs) {
        if i < |front| {
          assert tr[i] == front[i];
          FewerParts(front[i], txs, k);
        } else {
          assert tr[i] == last[i - |front|];
        }
      }
    }
  }

  lemma FewerParts(act: Action, txs: seq<Transaction>, k: nat)
    requires k <= |txs| && PartOfSome(act, txs[..k])
    ensures PartOfSome(act, txs)
  {
    if !ReconcileAction(act) {
      var j :| 0 <= j < |txs[..k]| && PartOf(act, txs[..k][j]);
      assert PartOf(act, txs[j]);
    }
  }

  lemma CommittedReachable(d: Dag, w: World, txs: seq<Transaction>)
    requires Reachable(d, w) && Committable(d, w, txs)
    ensures Reachable(d, Committed(d, w, txs))
  {
    hide Enabled, Apply, Created;
    var tr := TransactionsTrace(d, w, txs);
    assert Leads(d, w, Committed(d, w, txs));
    StepKeepsReachable(d, w, Committed(d, w, txs));
  }
}
