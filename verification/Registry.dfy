/** Registering definitions and creating runs of them. */
module Registry {
  import opened Rows
  import opened Dags
  import opened Transitions
  import opened Reconciling
  import opened Dsl
  import opened Policies
  import opened Storage
  import opened Engines

  datatype Stored = Stored(name: string, version: int, steps: seq<StepSpec>)

  datatype Refusal = Invalid(problem: Problem) | Conflict

  /** The row asked for: that version, or the latest one when none is asked for. */
  predicate Chosen(rows: seq<Stored>, name: string, version: int, row: Stored) {
    && row.name == name
    && if version > 0 then row.version == version
       else forall i :: 0 <= i < |rows| && rows[i].name == name ==> rows[i].version <= row.version
  }

  class Definitions {
    var rows: seq<Stored>

    /** No two rows share a name and version, every row has its defaults filled in, and
        every row can be run. */
    ghost predicate Valid()
      reads this
    {
      && (forall i :: 0 <= i < |rows| ==> rows[i].version >= 1 && ValidDag(DagOf(rows[i].steps)))
      && (forall i :: 0 <= i < |rows| ==> UniqueNames(rows[i].steps) && Defaulted(rows[i].steps) == rows[i].steps)
      && (forall i, j :: 0 <= i < j < |rows| ==> rows[i].name != rows[j].name || rows[i].version != rows[j].version)
    }

    constructor ()
      ensures Valid() && rows == []
    {
      rows := [];
    }

    /** Validates a definition, filling in its defaults, and stores it under its name and version. */
    method Register(def: Definition) returns (refusal: Option<Refusal>)
      requires Valid()
      modifies this, def
      ensures Valid()
      ensures def.name == old(def.name) && (!Blank(def.name) ==> def.version == Positive(old(def.version), 1))
      ensures refusal.Some? ==> rows == old(rows)
      ensures refusal.None? ==> rows == old(rows) + [Stored(def.name, def.version, Defaulted(old(def.steps)))]
      ensures refusal.None? ==> RowsDeclared(old(def.steps), DagOf(rows[|rows| - 1].steps))
      ensures refusal.None? <==>
        && WellFormed(def.name, old(def.steps))
        && forall i :: 0 <= i < |old(rows)| ==> old(rows)[i].name != def.name || old(rows)[i].version != def.version
      ensures refusal.Some? && refusal.value.Invalid? ==> Explains(def.name, old(def.steps), refusal.value.problem)
    {
      hide ValidDag, Explains, KnownDeps, Acyclic, RowsDeclared, DagOf, Defaulted;
      DefaultedTwice(def.steps);
      DefaultsKeepNames(def.steps);
      var problem, _ := def.Validate();
      if problem.Some? {
        return Some(Invalid(problem.value));
      }
      for i := 0 to |rows|
        invariant forall j :: 0 <= j < i ==> rows[j].name != def.name || rows[j].version != def.version
      {
        if rows[i].name == def.name && rows[i].version == def.version {
          return Some(Conflict);
        }
      }
      rows := rows + [Stored(def.name, def.version, def.steps)];
      return None;
    }

    /** The named version, or the latest one when none is asked for. */
    method Lookup(name: string, version: int) returns (found: Option<Stored>)
      ensures found.Some? ==> found.value in rows && found.value.name == name
      ensures found.Some? && version > 0 ==> found.value.version == version
      ensures found.Some? && version <= 0 ==>
        forall i :: 0 <= i < |rows| && rows[i].name == name ==> rows[i].version <= found.value.version
      ensures found.None? ==>
        forall i :: 0 <= i < |rows| ==> rows[i].name != name || (version > 0 && rows[i].version != version)
    {
      found := None;
      for i := 0 to |rows|
        invariant found.Some? ==> found.value in rows && found.value.name == name
        invariant version > 0 ==> found.None? && forall j :: 0 <= j < i ==> rows[j].name != name || rows[j].version != version
        invariant version <= 0 && found.Some? ==> forall j :: 0 <= j < i && rows[j].name == name ==> rows[j].version <= found.value.version
        invariant version <= 0 && found.None? ==> forall j :: 0 <= j < i ==> rows[j].name != name
      {
        var row := rows[i];
        if version > 0 {
          if row.name == name && row.version == version {
            return Some(row);
          }
        } else if row.name == name && (found.None? || row.version > found.value.version) {
          found := Some(row);
        }
      }
    }

    /** Creates the run with all its steps and makes the first pass, in one transaction. */
    method CreateRun(name: string, version: int) returns (engine: Option<Engine>, ghost sch: Schedule)
      requires Valid()
      ensures engine.None? <==>
        forall i :: 0 <= i < |rows| ==> rows[i].name != name || (version > 0 && rows[i].version != version)
      ensures engine.Some? ==>
        var q := engine.value.q;
        && fresh(q) && q.Valid() && Fits(q.dag, Created(q.dag), sch)
        && q.Contents() == Reconcile(q.dag, Created(q.dag), sch)
        && exists row :: row in rows && Chosen(rows, name, version, row) && q.dag == DagOf(row.steps) && RowsDeclared(row.steps, q.dag)
      ensures engine.Some? ==> forall n :: n in engine.value.q.dag ==> HasPolicy(engine.value.q.dag[n])
    {
      hide ValidDag, RowsDeclared, DagOf, Defaulted, HasPolicy, Reconcile, Fits, Reachable, Leads, Created;
      sch := Schedule([], [], [], None);
      var def := Lookup(name, version);
      if def.None? {
        return None, sch;
      }
      var d := DagOf(def.value.steps);
      DagDeclared(def.value.steps);
      forall n | n in d ensures HasPolicy(d[n]) {
        ValidatedPolicy(def.value.steps, n);
      }
      var q := new Store(d);
      var e := new Engine(q);
      CreatedReachable(d);
      ReachableRows(d, q.Contents());
      sch := e.ReconcileTx();
      PassKeepsReachable(d, Created(d), sch);
      engine := Some(e);
    }
  }
}
