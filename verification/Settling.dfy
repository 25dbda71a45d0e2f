/** When one reconcile pass is enough, whatever the order in which it visits the steps. */
module Settling {
  import opened Rows
  import opened Dags
  import opened Transitions
  import opened Reconciling
  import opened Skips
  import opened Convergence

  /** The dependencies step n still waits for. */
  function Awaited(d: Dag, steps: map<Name, Step>, n: Name): set<Name>
    requires n in d
  {
    set dep | dep in d[n].dependsOn && !(dep in steps && steps[dep].status == StepCompleted)
  }

  /** A signal_wait step that the second loop will complete if it finds a signal for it. */
  ghost predicate Ripe(d: Dag, steps: map<Name, Step>, m: Name) {
    m in d && m in steps && Undispatched(steps[m].status) && SignalWait(d, m) && DepsCompleted(d, steps, m)
  }

  /** Step m completes, in this loop, if it finds a signal: it is WAITING in the first, ripe in the second. */
  ghost predicate Expects(d: Dag, ph: Phase, steps: map<Name, Step>, m: Name) {
    m in d && m in steps && if ph == Dispatching then Ripe(d, steps, m) else steps[m].status == StepWaiting
  }

  /** The index f gives m is that of an unprocessed signal m wants. */
  predicate Serves(d: Dag, signals: seq<Signal>, f: map<Name, nat>, m: Name) {
    && m in d && m in f && f[m] < |signals|
    && !signals[f[m]].processed && signals[f[m]].name == WantedSignal(d, m)
  }

  /** f serves every step of ms with a signal of its own. */
  ghost predicate ServesAll(d: Dag, signals: seq<Signal>, f: map<Name, nat>, ms: set<Name>) {
    && (forall m :: m in ms ==> Serves(d, signals, f, m))
    && (forall m, k :: m in ms && k in ms && m in f && k in f && f[m] == f[k] ==> m == k)
  }

  ghost predicate Servable(d: Dag, signals: seq<Signal>, ms: set<Name>) {
    exists f :: ServesAll(d, signals, f, ms)
  }

  /** In front of the second loop: step n waits for nothing but signal_wait steps that
      are ready and whose signals are all there. */
  ghost predicate LateReady(d: Dag, w: World, n: Name) {
    && n in d && n in w.steps && Undispatched(w.steps[n].status)
    && Awaited(d, w.steps, n) != {} && (forall m :: m in Awaited(d, w.steps, n) ==> Ripe(d, w.steps, m))
    && Servable(d, w.signals, Awaited(d, w.steps, n))
  }

  lemma NothingAwaited(d: Dag, steps: map<Name, Step>, n: Name)
    requires n in d
    ensures Awaited(d, steps, n) == {} <==> DepsCompleted(d, steps, n)
  {
    forall dep | dep in d[n].dependsOn ensures dep in Awaited(d, steps, n) <==> !(dep in steps && steps[dep].status == StepCompleted) {
    }
  }

  // ------------------------------------------------------- one visit, one sweep

  function Consumed(signals: seq<Signal>, i: nat): seq<Signal>
    requires i < |signals|
  {
    signals[i := signals[i].(processed := true)]
  }

  /** A visit of either loop changes no other step, and takes a signal exactly when it
      completes its own. */
  lemma VisitConsumes(d: Dag, w: World, ph: Phase, n: Name)
    requires Underway(d, w) && n in d && ph != Skipping
    ensures
      var w' := Visit(d, w, ph, n);
      var found := FindSignal(w.signals, WantedSignal(d, n));
      && w'.steps == w.steps[n := w'.steps[n]]
      && (Expects(d, ph, w.steps, n) && found.Some? ==>
            w'.steps[n].status == StepCompleted && w'.signals == Consumed(w.signals, found.value))
      && (!(Expects(d, ph, w.steps, n) && found.Some?) ==>
            w'.signals == w.signals && (w'.steps[n].status == StepCompleted ==> w.steps[n].status == StepCompleted))
      && (w'.steps[n] == w.steps[n] || (!StepTerminal(w.steps[n].status) && !Broken(w'.steps[n].status)))
  {
    hide DepsCompleted, Blocked;
    assert w.steps == w.steps[n := w.steps[n]];
  }

  /** The first loop changes WAITING steps only, and those only by completing them. */
  lemma VisitInFirstLoop(d: Dag, w: World, n: Name)
    requires Underway(d, w) && n in d
    ensures
      var s := Visit(d, w, Resolving, n).steps[n];
      s == w.steps[n] || (w.steps[n].status == StepWaiting && s.status == StepCompleted)
  {
    hide DepsCompleted, Blocked;
  }

  /** The second loop does something to a step exactly when it is ready. */
  lemma VisitInSecondLoop(d: Dag, w: World, n: Name)
    requires Underway(d, w) && n in d
    ensures NotReady(d, w.steps, n) ==> Visit(d, w, Dispatching, n) == w
    ensures !NotReady(d, w.steps, n) ==> !Undispatched(Visit(d, w, Dispatching, n).steps[n].status)
  {
    hide DepsCompleted, Blocked;
  }

  lemma {:induction false} SweepCons(d: Dag, w: World, ph: Phase, order: seq<Name>)
    requires Underway(d, w) && order != [] && forall n :: n in order ==> n in d
    ensures Sweep(d, w, ph, order) == Sweep(d, Visit(d, w, ph, order[0]), ph, order[1..])
    decreases |order|
  {
    hide Visit;
    var k := |order| - 1;
    if k > 0 {
      SweepCons(d, w, ph, order[..k]);
      assert order[..k][1..] == order[1..][..k - 1] && order[1..][k - 1] == order[k];
    } else {
      assert order[..0] == [] && order[1..] == [];
    }
  }

  lemma {:induction false} SweepConcat(d: Dag, w: World, ph: Phase, a: seq<Name>, b: seq<Name>)
    requires Underway(d, w) && (forall n :: n in a ==> n in d) && forall n :: n in b ==> n in d
    ensures Sweep(d, w, ph, a + b) == Sweep(d, Sweep(d, w, ph, a), ph, b)
    decreases |b|
  {
    hide Visit;
    if b == [] {
      assert a + b == a;
    } else {
      var k := |b| - 1;
      assert (a + b)[..|a| + k] == a + b[..k];
      SweepConcat(d, w, ph, a, b[..k]);
    }
  }

  /** Steps that are not visited stay as they are; completed ones stay completed; failed
      ones are the same as before. */
  lemma {:induction false} SweepKeeps(d: Dag, w: World, ph: Phase, order: seq<Name>, m: Name)
    requires Underway(d, w) && (forall n :: n in order ==> n in d) && m in d && ph != Skipping
    ensures m !in order ==> Sweep(d, w, ph, order).steps[m] == w.steps[m]
    ensures w.steps[m].status == StepCompleted ==> Sweep(d, w, ph, order).steps[m].status == StepCompleted
    ensures w.steps[m].status == StepFailed <==> Sweep(d, w, ph, order).steps[m].status == StepFailed
    decreases |order|
  {
    hide Visit;
    if order != [] {
      var k := |order| - 1;
      SweepKeeps(d, w, ph, order[..k], m);
      VisitKeeps(d, Sweep(d, w, ph, order[..k]), ph, order[k], m);
    }
  }

  lemma VisitKeeps(d: Dag, w: World, ph: Phase, n: Name, m: Name)
    requires Underway(d, w) && n in d && m in d && ph != Skipping
    ensures m != n ==> Visit(d, w, ph, n).steps[m] == w.steps[m]
    ensures w.steps[m].status == StepCompleted ==> Visit(d, w, ph, n).steps[m].status == StepCompleted
    ensures w.steps[m].status == StepFailed <==> Visit(d, w, ph, n).steps[m].status == StepFailed
  {
    hide Visit, Expects;
    VisitConsumes(d, w, ph, n);
  }

  /** Through the first loop a step stays as it is, unless it was WAITING and got completed. */
  lemma {:induction false} FirstLoopKeeps(d: Dag, w: World, order: seq<Name>, m: Name)
    requires Underway(d, w) && (forall n :: n in order ==> n in d) && m in d
    ensures
      var s := Sweep(d, w, Resolving, order).steps[m];
      s == w.steps[m] || (w.steps[m].status == StepWaiting && s.status == StepCompleted)
    decreases |order|
  {
    hide Visit;
    if order != [] {
      var k := |order| - 1;
      var w1 := Sweep(d, w, Resolving, order[..k]);
      FirstLoopKeeps(d, w, order[..k], m);
      VisitKeeps(d, w1, Resolving, order[k], m);
      VisitInFirstLoop(d, w1, order[k]);
    }
  }

  // ------------------------------------------------------------ serving signals

  /** Consuming the oldest signal for m leaves the other steps servable: whoever had
      that signal takes the one meant for m. */
  lemma Exchange(d: Dag, signals: seq<Signal>, ms: set<Name>, m: Name, i: nat)
    requires Servable(d, signals, ms) && m in ms && m in d && FindSignal(signals, WantedSignal(d, m)) == Some(i)
    ensures Servable(d, Consumed(signals, i), ms - {m})
  {
    hide FindSignal;
    var f :| ServesAll(d, signals, f, ms);
    assert Serves(d, signals, f, m);
    var f' := map k | k in f :: if f[k] == i then f[m] else f[k];
    forall k | k in ms - {m} ensures Serves(d, Consumed(signals, i), f', k) {
      assert Serves(d, signals, f, k);
    }
    forall k, l | k in ms - {m} && l in ms - {m} && k in f' && l in f' && f'[k] == f'[l] ensures k == l {
      assert Serves(d, signals, f, k) && Serves(d, signals, f, l);
    }
    assert ServesAll(d, Consumed(signals, i), f', ms - {m});
  }

  /** A signal that nobody in ms wants can go. */
  lemma OthersKeepSignals(d: Dag, signals: seq<Signal>, ms: set<Name>, i: nat)
    requires Servable(d, signals, ms) && i < |signals|
    requires forall m :: m in ms && m in d ==> WantedSignal(d, m) != signals[i].name
    ensures Servable(d, Consumed(signals, i), ms)
  {
    var f :| ServesAll(d, signals, f, ms);
    forall m | m in ms ensures Serves(d, Consumed(signals, i), f, m) {
      assert Serves(d, signals, f, m);
    }
    assert ServesAll(d, Consumed(signals, i), f, ms);
  }

  lemma ServedFinds(d: Dag, signals: seq<Signal>, ms: set<Name>, m: Name)
    requires Servable(d, signals, ms) && m in ms
    ensures m in d && FindSignal(signals, WantedSignal(d, m)).Some?
  {
    var f :| ServesAll(d, signals, f, ms);
    assert Serves(d, signals, f, m);
  }

  lemma FewerServable(d: Dag, signals: seq<Signal>, ms: set<Name>, fewer: set<Name>)
    requires Servable(d, signals, ms) && fewer <= ms
    ensures Servable(d, signals, fewer)
  {
    var f :| ServesAll(d, signals, f, ms);
    assert ServesAll(d, signals, f, fewer);
  }

  lemma ExpectsKept(d: Dag, w: World, ph: Phase, n: Name, m: Name)
    requires Underway(d, w) && n in d && ph != Skipping && Expects(d, ph, w.steps, m) && m != n
    ensures Expects(d, ph, Visit(d, w, ph, n).steps, m)
  {
    hide Visit;
    VisitKeeps(d, w, ph, n, m);
    if ph == Dispatching {
      DepsStayCompleted(d, w, ph, n, m);
    }
  }

  lemma DepsStayCompleted(d: Dag, w: World, ph: Phase, n: Name, m: Name)
    requires Underway(d, w) && n in d && m in d && ph != Skipping && DepsCompleted(d, w.steps, m)
    ensures DepsCompleted(d, Visit(d, w, ph, n).steps, m)
  {
    hide Visit;
    forall dep | dep in d[m].dependsOn ensures dep in d && Visit(d, w, ph, n).steps[dep].status == StepCompleted {
      VisitKeeps(d, w, ph, n, dep);
    }
  }

  lemma OrderTail(ms: seq<Name>, keys: set<Name>)
    requires IsOrder(ms, keys) && ms != []
    ensures ms[0] in keys && IsOrder(ms[1..], keys - {ms[0]})
  {
    assert ms == [ms[0]] + ms[1..];
    assert ms[0] in ms;
  }

  /** Steps that expect signals which are all there are all completed, in any order. */
  lemma {:induction false} ServedStepsComplete(d: Dag, w: World, ph: Phase, ms: seq<Name>, keys: set<Name>)
    requires Underway(d, w) && ph != Skipping && IsOrder(ms, keys) && (forall m :: m in keys ==> Expects(d, ph, w.steps, m))
    requires Servable(d, w.signals, keys)
    ensures forall m :: m in ms ==> m in d
    ensures forall m :: m in keys ==> m in d && Sweep(d, w, ph, ms).steps[m].status == StepCompleted
    decreases |ms|
  {
    hide Visit, Sweep, Servable, Consumed, FindSignal, IsOrder, Expects;
    OrderWithin(ms, keys);
    forall m | m in keys ensures m in d {
      ExpectingIsStep(d, ph, w.steps, m);
    }
    if ms == [] {
      EmptyOrder(keys);
    } else {
      var n, rest := ms[0], ms[1..];
      OrderTail(ms, keys);
      ServedFinds(d, w.signals, keys, n);
      Exchange(d, w.signals, keys, n, FindSignal(w.signals, WantedSignal(d, n)).value);
      VisitConsumes(d, w, ph, n);
      var w1 := Visit(d, w, ph, n);
      forall m | m in keys - {n} ensures Expects(d, ph, w1.steps, m) {
        ExpectsKept(d, w, ph, n, m);
      }
      ServedStepsComplete(d, w1, ph, rest, keys - {n});
      SweepCons(d, w, ph, ms);
      SweepKeeps(d, w1, ph, rest, n);
    }
  }

  lemma ExpectingIsStep(d: Dag, ph: Phase, steps: map<Name, Step>, m: Name)
    requires Expects(d, ph, steps, m)
    ensures m in d
  {
  }

  lemma EmptyOrder(keys: set<Name>)
    requires IsOrder([], keys)
    ensures keys == {}
  {
  }

  lemma JoinOrders(a: seq<Name>, keys: set<Name>, b: seq<Name>, more: set<Name>)
    requires IsOrder(a, keys) && IsOrder(b, more) && keys !! more
    ensures IsOrder(a + b, keys + more)
  {
    forall i, j | 0 <= i < j < |a + b| ensures (a + b)[i] != (a + b)[j] {
      if i < |a| <= j {
        assert (a + b)[i] in a && (a + b)[j] in b;
      }
    }
  }

  // ----------------------------------------- an order that leaves a step over

  /** First n, then what it waits for, then everything else. */
  lemma OvertakingOrder(d: Dag, n: Name, awaited: set<Name>) returns (ms: seq<Name>, rest: seq<Name>)
    requires n in d && n !in awaited && awaited <= d.Keys
    ensures IsOrder(ms, awaited) && IsOrder([n] + ms + rest, d.Keys) && n !in ms && n !in rest
  {
    ms := SomeOrder(awaited);
    rest := SomeOrder(d.Keys - awaited - {n});
    JoinOrders([n], {n}, ms, awaited);
    JoinOrders([n] + ms, {n} + awaited, rest, d.Keys - awaited - {n});
    assert {n} + awaited + (d.Keys - awaited - {n}) == d.Keys;
  }

  lemma OvertakenStepIsLeft(d: Dag, w: World, n: Name) returns (order: seq<Name>)
    requires Underway(d, w) && LateReady(d, w, n)
    ensures IsOrder(order, d.Keys) && !NotReady(d, Sweep(d, w, Dispatching, order).steps, n)
  {
    hide Visit, Sweep, Servable, FindSignal;
    var awaited := Awaited(d, w.steps, n);
    NothingAwaited(d, w.steps, n);
    forall m | m in awaited ensures m in d && m != n {
      assert Ripe(d, w.steps, m);
    }
    var ms, rest := OvertakingOrder(d, n, awaited);
    order := [n] + ms + rest;
    LeftBehind(d, w, n, ms, rest, awaited);
    hide Ripe;
    forall dep | dep in d[n].dependsOn ensures dep in d && Sweep(d, w, Dispatching, order).steps[dep].status == StepCompleted {
      if dep !in awaited {
        SweepKeeps(d, w, Dispatching, order, dep);
      }
    }
  }

  lemma RipeExpects(d: Dag, steps: map<Name, Step>, m: Name)
    requires Ripe(d, steps, m)
    ensures Expects(d, Dispatching, steps, m)
  {
  }

  lemma LeftBehind(d: Dag, w: World, n: Name, ms: seq<Name>, rest: seq<Name>, awaited: set<Name>)
    requires Underway(d, w) && n in d && NotReady(d, w.steps, n) && n !in ms && n !in rest
    requires (forall m :: m in awaited ==> Ripe(d, w.steps, m)) && IsOrder(ms, awaited) && Servable(d, w.signals, awaited)
    requires forall m :: m in rest ==> m in d
    ensures (forall m :: m in awaited ==> m in d) && (forall m :: m in [n] + ms + rest ==> m in d)
    ensures var w' := Sweep(d, w, Dispatching, [n] + ms + rest);
      w'.steps[n] == w.steps[n] && forall m :: m in awaited ==> w'.steps[m].status == StepCompleted
  {
    hide Visit, Servable, Ripe, NotReady, IsOrder, FindSignal;
    OrderWithin(ms, awaited);
    forall m | m in awaited ensures Expects(d, Dispatching, w.steps, m) {
      RipeExpects(d, w.steps, m);
    }
    ServedStepsComplete(d, w, Dispatching, ms, awaited);
    VisitInSecondLoop(d, w, n);
    assert [n][..0] == [];
    assert Sweep(d, w, Dispatching, [n]) == w;
    SweepConcat(d, w, Dispatching, [n], ms);
    SweepConcat(d, w, Dispatching, [n] + ms, rest);
    hide Sweep;
    var w1 := Sweep(d, w, Dispatching, ms);
    SweepKeeps(d, w, Dispatching, ms, n);
    SweepKeeps(d, w1, Dispatching, rest, n);
    forall m | m in awaited ensures Sweep(d, w1, Dispatching, rest).steps[m].status == StepCompleted {
      SweepKeeps(d, w1, Dispatching, rest, m);
    }
  }

  // ------------------------------------------ a step left over was overtaken

  /** Signals keep their names and stay processed. */
  predicate SignalsKept(signals: seq<Signal>, signals': seq<Signal>) {
    && |signals'| == |signals|
    && forall i :: 0 <= i < |signals| ==>
         signals'[i].name == signals[i].name && (signals[i].processed ==> signals'[i].processed)
  }

  ghost predicate OneEach(f: map<Name, nat>) {
    forall m, k :: m in f && k in f && f[m] == f[k] ==> m == k
  }

  /** f has a step iff it was completed on the way from w to w'. */
  predicate Completions(d: Dag, steps: map<Name, Step>, steps': map<Name, Step>, f: map<Name, nat>) {
    forall m :: m in d && m in steps && m in steps' ==>
      && (steps[m].status == StepCompleted ==> steps'[m].status == StepCompleted)
      && (m in f <==> steps'[m].status == StepCompleted && steps[m].status != StepCompleted)
  }

  /** f gives every step that was completed on the way from w to w' the signal it consumed. */
  ghost predicate Took(d: Dag, w: World, w': World, f: map<Name, nat>) {
    && SignalsKept(w.signals, w'.signals) && OneEach(f) && Completions(d, w.steps, w'.steps, f)
    && forall m :: m in f ==> Serves(d, w.signals, f, m) && w'.signals[f[m]].processed
  }

  lemma TookVisit(d: Dag, w: World, w1: World, ph: Phase, n: Name, f: map<Name, nat>) returns (f': map<Name, nat>)
    requires Underway(d, w) && Underway(d, w1) && n in d && ph != Skipping && Took(d, w, w1, f)
    ensures Took(d, w, Visit(d, w1, ph, n), f')
  {
    hide Visit, Expects, FindSignal, Consumed, SignalsKept, OneEach, Serves;
    VisitConsumes(d, w1, ph, n);
    VisitKeeps(d, w1, ph, n, n);
    var found := FindSignal(w1.signals, WantedSignal(d, n));
    if Expects(d, ph, w1.steps, n) && found.Some? {
      f' := f[n := found.value];
      ExpectingIsOpen(d, ph, w1.steps, n);
      TookOne(d, w, w1, Visit(d, w1, ph, n), n, found.value, f);
    } else {
      f' := f;
    }
  }

  lemma ExpectingIsOpen(d: Dag, ph: Phase, steps: map<Name, Step>, m: Name)
    requires Expects(d, ph, steps, m)
    ensures m in steps && steps[m].status != StepCompleted
  {
  }

  /** Nobody before has taken a signal that is still unprocessed. */
  lemma TakenIsNew(d: Dag, w: World, w1: World, f: map<Name, nat>, n: Name, i: nat)
    requires Took(d, w, w1, f) && i < |w1.signals| && !w1.signals[i].processed && n !in f
    ensures OneEach(f[n := i])
  {
    forall m | m in f ensures f[m] != i {
      assert Serves(d, w.signals, f, m);
    }
  }

  lemma TookOne(d: Dag, w: World, w1: World, w2: World, n: Name, i: nat, f: map<Name, nat>)
    requires Underway(d, w) && Underway(d, w1) && n in d && Took(d, w, w1, f) && w1.steps[n].status != StepCompleted
    requires FindSignal(w1.signals, WantedSignal(d, n)) == Some(i)
    requires w2.signals == Consumed(w1.signals, i)
    requires n in w2.steps && w2.steps == w1.steps[n := w2.steps[n]] && w2.steps[n].status == StepCompleted
    ensures Took(d, w, w2, f[n := i])
  {
    hide FindSignal, OneEach;
    TakenIsNew(d, w, w1, f, n, i);
    TookServes(d, w, w1, f, n, i, f[n := i]);
  }

  lemma TookServes(d: Dag, w: World, w1: World, f: map<Name, nat>, n: Name, i: nat, f': map<Name, nat>)
    requires Took(d, w, w1, f) && n in d && FindSignal(w1.signals, WantedSignal(d, n)) == Some(i) && f' == f[n := i]
    ensures forall m :: m in f' ==> Serves(d, w.signals, f', m) && Consumed(w1.signals, i)[f'[m]].processed
  {
    hide FindSignal, OneEach, Completions;
    forall m | m in f' ensures Serves(d, w.signals, f', m) && Consumed(w1.signals, i)[f'[m]].processed {
      assert m in f ==> Serves(d, w.signals, f, m);
    }
  }

  lemma {:induction false} SweepTakes(d: Dag, w: World, ph: Phase, order: seq<Name>) returns (f: map<Name, nat>)
    requires Underway(d, w) && ph != Skipping && forall n :: n in order ==> n in d
    ensures Took(d, w, Sweep(d, w, ph, order), f)
    decreases |order|
  {
    hide Visit, Serves;
    if order == [] {
      f := map[];
    } else {
      var k := |order| - 1;
      f := SweepTakes(d, w, ph, order[..k]);
      hide Took, Underway;
      f := TookVisit(d, w, Sweep(d, w, ph, order[..k]), ph, order[k], f);
    }
  }

  /** Undispatched before, waiting for something, and with nothing left to wait for. */
  ghost predicate BecameReady(d: Dag, w: World, w': World, n: Name) {
    && n in d && n in w.steps && Undispatched(w.steps[n].status)
    && !DepsCompleted(d, w.steps, n) && DepsCompleted(d, w'.steps, n)
  }

  /** A step completed in the second loop had its dependencies completed by then. */
  lemma {:induction false} CompletedWasRipe(d: Dag, w: World, order: seq<Name>, m: Name)
    requires Underway(d, w) && (forall n :: n in order ==> n in d) && m in d
    requires w.steps[m].status != StepCompleted && Sweep(d, w, Dispatching, order).steps[m].status == StepCompleted
    ensures Undispatched(w.steps[m].status) && SignalWait(d, m)
    ensures DepsCompleted(d, Sweep(d, w, Dispatching, order).steps, m)
    decreases |order|
  {
    hide Visit, DepsCompleted, FindSignal;
    var k := |order| - 1;
    var w1 := Sweep(d, w, Dispatching, order[..k]);
    VisitConsumes(d, w1, Dispatching, order[k]);
    if w1.steps[m].status == StepCompleted {
      CompletedWasRipe(d, w, order[..k], m);
    } else {
      StaysUndispatched(d, w, order[..k], m);
    }
    DepsStayCompleted(d, w1, Dispatching, order[k], m);
  }

  lemma {:induction false} StaysUndispatched(d: Dag, w: World, order: seq<Name>, m: Name)
    requires Underway(d, w) && (forall n :: n in order ==> n in d) && m in d
    requires Undispatched(Sweep(d, w, Dispatching, order).steps[m].status)
    ensures Undispatched(w.steps[m].status)
    ensures m in order ==> !DepsCompleted(d, w.steps, m)
    decreases |order|
  {
    hide Visit, DepsCompleted, FindSignal;
    if order != [] {
      var k := |order| - 1;
      var w1 := Sweep(d, w, Dispatching, order[..k]);
      VisitInSecondLoop(d, w1, order[k]);
      VisitKeeps(d, w1, Dispatching, order[k], m);
      StaysUndispatched(d, w, order[..k], m);
      if m == order[k] && DepsCompleted(d, w.steps, m) {
        SweepKeepsDeps(d, w, order[..k], m);
        assert false;
      }
    }
  }

  lemma {:induction false} SweepKeepsDeps(d: Dag, w: World, order: seq<Name>, m: Name)
    requires Underway(d, w) && (forall n :: n in order ==> n in d) && m in d && DepsCompleted(d, w.steps, m)
    ensures DepsCompleted(d, Sweep(d, w, Dispatching, order).steps, m)
    decreases |order|
  {
    hide Visit, DepsCompleted;
    if order != [] {
      var k := |order| - 1;
      SweepKeepsDeps(d, w, order[..k], m);
      DepsStayCompleted(d, Sweep(d, w, Dispatching, order[..k]), Dispatching, order[k], m);
    }
  }

  /** Below a step that became ready there is one that waited for ripe steps only. */
  lemma {:induction false} LowestBecameReady(d: Dag, w: World, order: seq<Name>, n: Name) returns (m: Name)
    requires ValidDag(d) && Underway(d, w) && (forall x :: x in order ==> x in d)
    requires BecameReady(d, w, Sweep(d, w, Dispatching, order), n)
    ensures BecameReady(d, w, Sweep(d, w, Dispatching, order), m)
    ensures forall dep :: dep in Awaited(d, w.steps, m) ==> Ripe(d, w.steps, dep)
    decreases Height(d, n)
  {
    hide Sweep;
    var w' := Sweep(d, w, Dispatching, order);
    if dep :| dep in Awaited(d, w.steps, n) && !Ripe(d, w.steps, dep) {
      CompletedWasRipe(d, w, order, dep);
      m := LowestBecameReady(d, w, order, dep);
    } else {
      m := n;
    }
  }

  lemma BecameReadyIsLate(d: Dag, w: World, order: seq<Name>, n: Name) returns (m: Name)
    requires ValidDag(d) && Underway(d, w) && (forall x :: x in order ==> x in d)
    requires BecameReady(d, w, Sweep(d, w, Dispatching, order), n)
    ensures LateReady(d, w, m)
  {
    hide Sweep, FindSignal, ValidDag;
    var w' := Sweep(d, w, Dispatching, order);
    m := LowestBecameReady(d, w, order, n);
    NothingAwaited(d, w.steps, m);
    var f := SweepTakes(d, w, Dispatching, order);
    assert ServesAll(d, w.signals, f, Awaited(d, w.steps, m));
  }

  // ------------------------------------------- the second loop, in every order

  /** The pass can be made with this schedule, and a further pass finds nothing to do. */
  ghost predicate Settles(d: Dag, w: World, sch: Schedule) {
    Fits(d, w, sch) && Idle(d, Reconcile(d, w, sch))
  }

  lemma OtherOrderFits(d: Dag, w: World, sch: Schedule, order: seq<Name>)
    requires Fits(d, w, sch) && !RunTerminal(w.run.status) && IsOrder(order, d.Keys)
    ensures Fits(d, w, sch.(ready := order))
    ensures Resolved(d, w, sch.(ready := order)) == Resolved(d, w, sch)
    ensures Swept(d, w, sch.(ready := order)) == Sweep(d, Resolved(d, w, sch), Dispatching, order)
  {
    hide Sweep, SkipPasses, NamesFailure, IsOrder, AllOrders;
    OrderWithin(order, d.Keys);
    OrderWithin(sch.ready, d.Keys);
    SameFailures(d, Resolved(d, w, sch), sch.ready, order, sch.failed);
  }

  lemma SameFailures(d: Dag, w: World, a: seq<Name>, b: seq<Name>, failed: Option<Name>)
    requires Underway(d, w) && (forall n :: n in a ==> n in d) && (forall n :: n in b ==> n in d)
    requires NamesFailure(Sweep(d, w, Dispatching, a).steps, failed)
    ensures NamesFailure(Sweep(d, w, Dispatching, b).steps, failed)
  {
    hide Sweep;
    var steps, steps' := Sweep(d, w, Dispatching, a).steps, Sweep(d, w, Dispatching, b).steps;
    forall n | n in d ensures steps[n].status == StepFailed <==> steps'[n].status == StepFailed {
      SweepKeeps(d, w, Dispatching, a, n);
      SweepKeeps(d, w, Dispatching, b, n);
    }
  }

  lemma UnsettledWasLate(d: Dag, w: World, sch: Schedule) returns (m: Name)
    requires ValidDag(d) && Fits(d, w, sch) && !RunTerminal(w.run.status) && !Idle(d, Reconcile(d, w, sch))
    ensures LateReady(d, Resolved(d, w, sch), m)
  {
    hide Reconcile, Idle, Sweep, ValidDag, LateReady, Resolved;
    IdleAfterPassIff(d, w, sch);
    PassEnds(d, w, sch);
    var w2, w3 := Resolved(d, w, sch), Swept(d, w, sch);
    var n :| n in d && !NotReady(d, w3.steps, n);
    StaysUndispatched(d, w2, sch.ready, n);
    m := BecameReadyIsLate(d, w2, sch.ready, n);
  }

  lemma LateIsUnsettled(d: Dag, w: World, sch: Schedule, n: Name) returns (order: seq<Name>)
    requires Fits(d, w, sch) && !RunTerminal(w.run.status) && LateReady(d, Resolved(d, w, sch), n)
    ensures IsOrder(order, d.Keys) && Fits(d, w, sch.(ready := order)) && !Settles(d, w, sch.(ready := order))
  {
    hide Reconcile, Idle, Sweep, Resolved, Swept, Servable, Ripe, LateReady, NamesFailure, AllOrders, IsOrder, AllTerminal;
    order := OvertakenStepIsLeft(d, Resolved(d, w, sch), n);
    var sch' := sch.(ready := order);
    OtherOrderFits(d, w, sch, order);
    IdleAfterPassIff(d, w, sch');
    PassEnds(d, w, sch');
    SomethingLeft(Swept(d, w, sch').steps, n);
  }

  lemma SomethingLeft(steps: map<Name, Step>, n: Name)
    requires n in steps && Undispatched(steps[n].status)
    ensures !AllTerminal(steps)
  {
  }

  /** Given what the first loop did, every order of the second settles the run exactly
      when, in front of it, no undispatched step waits for nothing but signal_wait
      steps that are ready and whose signals have all arrived. */
  lemma SecondLoopSettlesIff(d: Dag, w: World, sch: Schedule)
    requires ValidDag(d) && Fits(d, w, sch) && !RunTerminal(w.run.status)
    ensures (forall order :: IsOrder(order, d.Keys) ==> Settles(d, w, sch.(ready := order)))
      <==> forall n :: !LateReady(d, Resolved(d, w, sch), n)
  {
    hide Reconcile, Idle, Resolved, Swept, LateReady, IsOrder, AllOrders, ValidDag, NamesFailure;
    if n :| LateReady(d, Resolved(d, w, sch), n) {
      var order := LateIsUnsettled(d, w, sch, n);
    } else {
      forall order | IsOrder(order, d.Keys) ensures Settles(d, w, sch.(ready := order)) {
        OtherOrderFits(d, w, sch, order);
        if !Idle(d, Reconcile(d, w, sch.(ready := order))) {
          var m := UnsettledWasLate(d, w, sch.(ready := order));
        }
      }
    }
  }

  // -------------------------------------------------- both loops, in every order

  /** What n awaits and the first loop will not touch. */
  function Behind(d: Dag, steps: map<Name, Step>, n: Name): set<Name>
    requires n in d
  {
    set m | m in Awaited(d, steps, n) && m in steps && Undispatched(steps[m].status)
  }

  /** What the first loop has to complete: the rest of what n awaits, and all that the
      steps it awaits do. */
  function Needed(d: Dag, steps: map<Name, Step>, n: Name): set<Name>
    requires n in d
  {
    (Awaited(d, steps, n) - Behind(d, steps, n))
    + set m, dep | m in Behind(d, steps, n) && m in d && dep in Awaited(d, steps, m) :: dep
  }

  /** The WAITING steps that take signals from under the steps of ms. */
  ghost function Rivals(d: Dag, steps: map<Name, Step>, ms: set<Name>): set<Name> {
    set x | x in steps && x in d && steps[x].status == StepWaiting && Wants(d, x, ms)
  }

  ghost predicate Wants(d: Dag, x: Name, ms: set<Name>)
    requires x in d
  {
    exists m :: m in ms && m in d && WantedSignal(d, m) == WantedSignal(d, x)
  }

  /** In front of the first loop: step n awaits signal_wait steps that wait for WAITING
      ones at most; signals are there for all WAITING steps in between, and, for the
      names it wants at last, for every WAITING step that wants them too. */
  ghost predicate Overtakable(d: Dag, steps: map<Name, Step>, signals: seq<Signal>, n: Name) {
    && n in d && n in steps && Undispatched(steps[n].status)
    && var behind := Behind(d, steps, n);
       && behind != {} && (forall m :: m in behind ==> m in d && SignalWait(d, m))
       && (forall m :: m in Needed(d, steps, n) ==> Expects(d, Resolving, steps, m))
       && Servable(d, signals, Needed(d, steps, n))
       && Servable(d, signals, behind + Rivals(d, steps, behind))
  }

  /** The same, in front of the whole pass. */
  ghost predicate MayBeLate(d: Dag, w: World, n: Name) {
    !RunTerminal(w.run.status) && Overtakable(d, Propagated(d, w.steps), w.signals, n)
  }

  // ... an order of the first loop that makes a step late

  /** Through the first loop the steps of ms stay servable together with their rivals. */
  lemma ContendersVisit(d: Dag, w: World, n: Name, ms: set<Name>)
    requires Underway(d, w) && n in d && (forall m :: m in ms ==> m in d && w.steps[m].status != StepWaiting)
    requires Servable(d, w.signals, ms + Rivals(d, w.steps, ms))
    ensures var w' := Visit(d, w, Resolving, n); Servable(d, w'.signals, ms + Rivals(d, w'.steps, ms))
  {
    hide Visit, Servable, FindSignal, Consumed;
    VisitConsumes(d, w, Resolving, n);
    VisitInFirstLoop(d, w, n);
    var w' := Visit(d, w, Resolving, n);
    var found := FindSignal(w.signals, WantedSignal(d, n));
    var before, after := ms + Rivals(d, w.steps, ms), ms + Rivals(d, w'.steps, ms);
    if w.steps[n].status == StepWaiting && found.Some? {
      if Wants(d, n, ms) {
        Exchange(d, w.signals, before, n, found.value);
        FewerServable(d, w'.signals, before - {n}, after);
      } else {
        forall m | m in before && m in d ensures WantedSignal(d, m) != w.signals[found.value].name {
          NotWanted(d, n, m, ms, w.steps);
        }
        OthersKeepSignals(d, w.signals, before, found.value);
        FewerServable(d, w'.signals, before, after);
      }
    } else {
      FewerServable(d, w'.signals, before, after);
    }
  }

  lemma NotWanted(d: Dag, n: Name, m: Name, ms: set<Name>, steps: map<Name, Step>)
    requires n in d && m in d && !Wants(d, n, ms) && m in ms + Rivals(d, steps, ms)
    ensures WantedSignal(d, m) != WantedSignal(d, n)
  {
    if m !in ms {
      assert Wants(d, m, ms);
      var k :| k in ms && k in d && WantedSignal(d, k) == WantedSignal(d, m);
      assert WantedSignal(d, k) != WantedSignal(d, n);
    }
  }

  lemma {:induction false} ContendersSweep(d: Dag, w: World, order: seq<Name>, ms: set<Name>)
    requires Underway(d, w) && (forall n :: n in order ==> n in d)
    requires forall m :: m in ms ==> m in d && w.steps[m].status != StepWaiting
    requires Servable(d, w.signals, ms + Rivals(d, w.steps, ms))
    ensures var w' := Sweep(d, w, Resolving, order); Servable(d, w'.signals, ms + Rivals(d, w'.steps, ms))
    decreases |order|
  {
    hide Visit, Servable, Rivals;
    if order != [] {
      var k := |order| - 1;
      var w1 := Sweep(d, w, Resolving, order[..k]);
      ContendersSweep(d, w, order[..k], ms);
      forall m | m in ms ensures w1.steps[m].status != StepWaiting {
        FirstLoopKeeps(d, w, order[..k], m);
      }
      ContendersVisit(d, w1, order[k], ms);
    }
  }

  /** Visiting the needed steps first completes them all. */
  lemma NeededFirst(d: Dag, w: World, needed: set<Name>) returns (order: seq<Name>)
    requires Underway(d, w) && (forall m :: m in needed ==> Expects(d, Resolving, w.steps, m)) && Servable(d, w.signals, needed)
    ensures IsOrder(order, d.Keys)
    ensures forall m :: m in needed ==> m in d && Sweep(d, w, Resolving, order).steps[m].status == StepCompleted
  {
    hide Visit, Sweep, Servable, IsOrder, FindSignal;
    forall m | m in needed ensures m in d {
      ExpectingIsStep(d, Resolving, w.steps, m);
    }
    var ms := SomeOrder(needed);
    var rest := SomeOrder(d.Keys - needed);
    JoinOrders(ms, needed, rest, d.Keys - needed);
    assert needed + (d.Keys - needed) == d.Keys;
    order := ms + rest;
    OrderWithin(ms, needed);
    OrderWithin(rest, d.Keys - needed);
    OrderWithin(order, d.Keys);
    ServedStepsComplete(d, w, Resolving, ms, needed);
    SweepConcat(d, w, Resolving, ms, rest);
    forall m | m in needed ensures Sweep(d, w, Resolving, order).steps[m].status == StepCompleted {
      SweepKeeps(d, Sweep(d, w, Resolving, ms), Resolving, rest, m);
    }
  }

  lemma OvertakableGetsLate(d: Dag, w: World, n: Name) returns (order: seq<Name>)
    requires Underway(d, w) && Overtakable(d, w.steps, w.signals, n)
    ensures IsOrder(order, d.Keys) && LateReady(d, Sweep(d, w, Resolving, order), n)
  {
    hide Visit, Sweep, Servable, IsOrder, FindSignal, Rivals;
    var behind := Behind(d, w.steps, n);
    order := NeededFirst(d, w, Needed(d, w.steps, n));
    OrderWithin(order, d.Keys);
    var w' := Sweep(d, w, Resolving, order);
    forall m | m in d ensures w.steps[m].status != StepWaiting ==> w'.steps[m] == w.steps[m] {
      FirstLoopKeeps(d, w, order, m);
    }
    AwaitedBehind(d, w.steps, w'.steps, n);
    forall m | m in behind ensures Ripe(d, w'.steps, m) {
      BehindRipens(d, w.steps, w'.steps, n, m);
    }
    ContendersSweep(d, w, order, behind);
    FewerServable(d, w'.signals, behind + Rivals(d, w'.steps, behind), behind);
  }

  /** What the first loop does to the steps, when it completes all that n needs. */
  ghost predicate Completed(d: Dag, steps: map<Name, Step>, steps': map<Name, Step>, n: Name)
    requires n in d
  {
    && steps.Keys == d.Keys && steps'.Keys == d.Keys
    && (forall m :: m in d && steps[m].status != StepWaiting ==> steps'[m] == steps[m])
    && (forall m :: m in Needed(d, steps, n) ==> m in d && steps'[m].status == StepCompleted)
  }

  lemma AwaitedBehind(d: Dag, steps: map<Name, Step>, steps': map<Name, Step>, n: Name)
    requires n in d && Completed(d, steps, steps', n)
    ensures Awaited(d, steps', n) == Behind(d, steps, n)
  {
    forall dep | dep in d[n].dependsOn ensures dep in Awaited(d, steps', n) <==> dep in Behind(d, steps, n) {
      if dep in Awaited(d, steps, n) && dep !in Behind(d, steps, n) {
        assert dep in Needed(d, steps, n);
      }
    }
  }

  lemma BehindRipens(d: Dag, steps: map<Name, Step>, steps': map<Name, Step>, n: Name, m: Name)
    requires n in d && Completed(d, steps, steps', n) && m in Behind(d, steps, n) && m in d && SignalWait(d, m)
    ensures Ripe(d, steps', m)
  {
    forall dep | dep in d[m].dependsOn ensures dep in steps' && steps'[dep].status == StepCompleted {
      if dep in Awaited(d, steps, m) {
        assert dep in Needed(d, steps, n);
      }
    }
  }

  // ... a late step was overtakable

  lemma LateBehind(d: Dag, w: World, w': World, n: Name)
    requires Underway(d, w) && Underway(d, w') && LateReady(d, w', n)
    requires forall m :: m in d ==>
      w'.steps[m] == w.steps[m] || (w.steps[m].status == StepWaiting && w'.steps[m].status == StepCompleted)
    ensures n in d && Behind(d, w.steps, n) == Awaited(d, w'.steps, n)
  {
    hide Servable;
    forall dep | dep in d[n].dependsOn ensures dep in Awaited(d, w'.steps, n) <==> dep in Behind(d, w.steps, n) {
      if dep in Awaited(d, w'.steps, n) {
        assert Ripe(d, w'.steps, dep);
      }
    }
  }

  lemma LateNeeded(d: Dag, w: World, w': World, n: Name, x: Name)
    requires Underway(d, w) && Underway(d, w') && LateReady(d, w', n) && Behind(d, w.steps, n) == Awaited(d, w'.steps, n)
    requires forall m :: m in d ==>
      w'.steps[m] == w.steps[m] || (w.steps[m].status == StepWaiting && w'.steps[m].status == StepCompleted)
    requires x in Needed(d, w.steps, n)
    ensures Expects(d, Resolving, w.steps, x) && w'.steps[x].status == StepCompleted
  {
    hide Servable;
    if x in Awaited(d, w.steps, n) - Behind(d, w.steps, n) {
      assert x !in Awaited(d, w'.steps, n);
    } else {
      var m :| m in Behind(d, w.steps, n) && m in d && x in Awaited(d, w.steps, m);
      assert Ripe(d, w'.steps, m);
    }
  }

  /** What was taken in the first loop and what is left for the second serve different steps. */
  lemma JoinServices(d: Dag, w: World, w': World, f: map<Name, nat>, late: set<Name>, taken: set<Name>)
    requires Took(d, w, w', f) && taken <= f.Keys && late !! taken && Servable(d, w'.signals, late)
    ensures Servable(d, w.signals, late + taken)
  {
    hide Completions;
    var g :| ServesAll(d, w'.signals, g, late);
    var h := map m | m in late + taken :: if m in late && m in g then g[m] else if m in f then f[m] else 0;
    forall m | m in late + taken ensures Serves(d, w.signals, h, m) {
      if m in late {
        assert Serves(d, w'.signals, g, m);
      } else {
        assert Serves(d, w.signals, f, m);
      }
    }
    forall m, k | m in late + taken && k in late + taken && h[m] == h[k] ensures m == k {
      assert m in late ==> Serves(d, w'.signals, g, m);
      assert k in late ==> Serves(d, w'.signals, g, k);
      assert m in taken ==> Serves(d, w.signals, f, m);
      assert k in taken ==> Serves(d, w.signals, f, k);
    }
    assert ServesAll(d, w.signals, h, late + taken);
  }

  /** Every rival of a late step got its signal: a WAITING one left over would find the
      signal that is there for the late step. */
  lemma RivalsServed(d: Dag, w: World, order: seq<Name>, late: set<Name>, x: Name)
    requires Underway(d, w) && IsOrder(order, d.Keys) && (forall n :: n in order ==> n in d) && x in Rivals(d, w.steps, late)
    requires Servable(d, Sweep(d, w, Resolving, order).signals, late)
    ensures Sweep(d, w, Resolving, order).steps[x].status == StepCompleted
  {
    hide Sweep, Servable, FindSignal;
    var w' := Sweep(d, w, Resolving, order);
    FirstLoopKeeps(d, w, order, x);
    SweepKeepsUnresolvable(d, w, Resolving, order, x);
    var m :| m in late && m in d && WantedSignal(d, m) == WantedSignal(d, x);
    ServedFinds(d, w'.signals, late, m);
  }

  lemma LateWasOvertakable(d: Dag, w: World, order: seq<Name>, n: Name)
    requires Underway(d, w) && IsOrder(order, d.Keys) && (forall m :: m in order ==> m in d)
    requires LateReady(d, Sweep(d, w, Resolving, order), n)
    ensures Overtakable(d, w.steps, w.signals, n)
  {
    hide Sweep, Servable, FindSignal, IsOrder, SignalsKept, OneEach, Serves, Visit;
    var w' := Sweep(d, w, Resolving, order);
    var f := SweepTakes(d, w, Resolving, order);
    forall m | m in d
      ensures w'.steps[m] == w.steps[m] || (w.steps[m].status == StepWaiting && w'.steps[m].status == StepCompleted)
    {
      FirstLoopKeeps(d, w, order, m);
    }
    LateBehind(d, w, w', n);
    var behind, needed := Behind(d, w.steps, n), Needed(d, w.steps, n);
    forall x | x in needed ensures Expects(d, Resolving, w.steps, x) && x in f {
      LateNeeded(d, w, w', n, x);
    }
    forall m | m in behind ensures m in d && SignalWait(d, m) {
      assert Ripe(d, w'.steps, m);
    }
    TakenServable(d, w, w', f, needed);
    var rivals := Rivals(d, w.steps, behind);
    forall x | x in rivals ensures x in f {
      RivalsServed(d, w, order, behind, x);
    }
    JoinServices(d, w, w', f, behind, rivals);
  }

  lemma TakenServable(d: Dag, w: World, w': World, f: map<Name, nat>, ms: set<Name>)
    requires Took(d, w, w', f) && ms <= f.Keys
    ensures Servable(d, w.signals, ms)
  {
    assert ServesAll(d, w.signals, f, ms);
  }

  // ---------------------------------------------------------------- the theorem

  /** A schedule that names a failure where there is one. */
  lemma NameFailure(d: Dag, w: World, sch: Schedule) returns (failed: Option<Name>)
    requires Underway(d, w) && Orders(d, sch)
    ensures Fits(d, w, sch.(failed := failed)) && Resolved(d, w, sch.(failed := failed)) == Resolved(d, w, sch)
  {
    hide Sweep, SkipPasses, IsOrder, AllOrders;
    var steps := Swept(d, w, sch).steps;
    if n :| n in steps && steps[n].status == StepFailed {
      failed := Some(n);
    } else {
      failed := None;
    }
  }

  lemma SomeSchedule(d: Dag, waiting: seq<Name>) returns (sch: Schedule)
    requires IsOrder(waiting, d.Keys)
    ensures Orders(d, sch) && sch.waiting == waiting
  {
    var order := SomeOrder(d.Keys);
    hide IsOrder;
    sch := Schedule(seq(|d.Keys| + 1, i => order), waiting, order, None);
  }

  /** A step that may be late is late in front of the second loop, in some schedule. */
  lemma MayBeLateIsLate(d: Dag, w: World, n: Name) returns (sch: Schedule)
    requires w.steps.Keys == d.Keys && MayBeLate(d, w, n)
    ensures Fits(d, w, sch) && LateReady(d, Resolved(d, w, sch), n)
  {
    hide Sweep, SkipPasses, IsOrder, Overtakable, LateReady, Propagated, AllOrders, NamesFailure;
    var any := SomeOrder(d.Keys);
    sch := SomeSchedule(d, any);
    PropagationIsLeastFixpoint(d, w, sch);
    var order := OvertakableGetsLate(d, Skipped(d, w, sch), n);
    sch := sch.(waiting := order);
    var failed := NameFailure(d, w, sch);
    sch := sch.(failed := failed);
  }

  lemma LateMayBeLate(d: Dag, w: World, sch: Schedule, n: Name)
    requires Fits(d, w, sch) && !RunTerminal(w.run.status) && LateReady(d, Resolved(d, w, sch), n)
    ensures MayBeLate(d, w, n)
  {
    hide Sweep, SkipPasses, IsOrder, Overtakable, LateReady, Propagated, AllOrders, NamesFailure;
    PropagationIsLeastFixpoint(d, w, sch);
    OrderWithin(sch.waiting, d.Keys);
    LateWasOvertakable(d, Skipped(d, w, sch), sch.waiting, n);
  }

  /** One pass is enough, whatever the order in which it visits the steps, exactly when
      no step may be late: a condition on the state in front of the pass. */
  lemma OnePassEnoughIff(d: Dag, w: World)
    requires ValidDag(d) && w.steps.Keys == d.Keys
    ensures (forall sch :: Fits(d, w, sch) ==> Idle(d, Reconcile(d, w, sch))) <==> forall n :: !MayBeLate(d, w, n)
  {
    hide Reconcile, Idle, Fits, MayBeLate, LateReady, ValidDag, Resolved, Swept;
    if n :| MayBeLate(d, w, n) {
      LiveIfMayBeLate(d, w, n);
      var sch := MayBeLateIsLate(d, w, n);
      var order := LateIsUnsettled(d, w, sch, n);
      assert Fits(d, w, sch.(ready := order)) && !Idle(d, Reconcile(d, w, sch.(ready := order)));
    } else {
      forall sch | Fits(d, w, sch) ensures Idle(d, Reconcile(d, w, sch)) {
        PassSettles(d, w, sch);
      }
    }
  }

  lemma LiveIfMayBeLate(d: Dag, w: World, n: Name)
    requires MayBeLate(d, w, n)
    ensures !RunTerminal(w.run.status)
  {
  }

  lemma PassSettles(d: Dag, w: World, sch: Schedule)
    requires ValidDag(d) && Fits(d, w, sch) && forall n :: !MayBeLate(d, w, n)
    ensures Idle(d, Reconcile(d, w, sch))
  {
    hide Reconcile, Idle, MayBeLate, LateReady, ValidDag, Resolved, Swept, NamesFailure, AllOrders, IsOrder;
    if RunTerminal(w.run.status) {
      TerminalPass(d, w, sch);
    } else if !Idle(d, Reconcile(d, w, sch)) {
      var m := UnsettledWasLate(d, w, sch);
      LateMayBeLate(d, w, sch, m);
    }
  }

  /** Without signal_wait steps one pass is always enough. */
  lemma TasksAloneSettle(d: Dag, w: World, sch: Schedule)
    requires ValidDag(d) && Fits(d, w, sch) && forall n :: n in d ==> !SignalWait(d, n)
    ensures Idle(d, Reconcile(d, w, sch))
  {
    hide Reconcile, Idle, MayBeLate, ValidDag, Fits;
    forall n ensures !MayBeLate(d, w, n) {
      if MayBeLate(d, w, n) {
        var dep := MayBeLateAwaitsSignal(d, w, n);
      }
    }
    PassSettles(d, w, sch);
  }

  lemma MayBeLateAwaitsSignal(d: Dag, w: World, n: Name) returns (dep: Name)
    requires MayBeLate(d, w, n)
    ensures dep in d && SignalWait(d, dep)
  {
    hide Propagated, Servable;
    dep :| dep in Behind(d, Propagated(d, w.steps), n);
  }

  lemma TerminalPass(d: Dag, w: World, sch: Schedule)
    requires Fits(d, w, sch) && RunTerminal(w.run.status)
    ensures Idle(d, Reconcile(d, w, sch))
  {
    TerminalRunIsIdle(d, w);
  }
}
