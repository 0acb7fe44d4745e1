/** The two procedures of config-ui/control_schema.py as they run: one transaction each, statement by statement. */
module LadderStore {
  import opened LadderModel
  import opened SchemaModel
  import opened Wrappers

  /** Versions already gone through, put in front of what is left. */
  function Behind(versions: seq<nat>, r: Result<Outcome, Failure>): Result<Outcome, Failure> {
    if r.Err? then r else Ok(Outcome(r.value.db, versions + r.value.versions))
  }

  /** A procedure ends as the model says: its versions and its database, or its failure and the old database. */
  ghost predicate Ends(was: Db, now: Db, r: Result<seq<nat>, Failure>, model: Result<Outcome, Failure>) {
    if model.Ok? then r == Ok(model.value.versions) && now == model.value.db
    else r == Err(model.error) && now == was
  }

  class ControlSchema {
    var catalog: Catalog
    var rows: Rows
    var ledger: Option<set<nat>>

    ghost predicate Valid()
      reads this
    {
      rows.Keys == catalog.tables.Keys
    }

    function Value(): Db
      reads this
    {
      Db(catalog, rows, ledger)
    }

    constructor ()
      ensures Valid() && Value() == EMPTY_DB
    {
      catalog, rows, ledger := EMPTY_CATALOG, map[], None;
    }

    /** One execute call: its statements until one is refused. */
    method Script(script: seq<Statement>, now: int) returns (refused: Option<Failure>)
      requires Valid()
      modifies this
      ensures Valid()
      ensures var r := Execute(old(Value()), script, now);
        if r.Ok? then refused == None && Value() == r.value else refused == Some(r.error)
    {
      var i := 0;
      while i < |script|
        invariant 0 <= i <= |script| && Valid()
        invariant Execute(old(Value()), script, now) == Execute(Value(), script[i..], now)
      {
        assert script[i..][0] == script[i] && script[i..][1..] == script[i + 1..];
        var r := Exec(Value(), script[i], now);
        if r.Err? { return Some(r.error); }
        catalog, rows, ledger := r.value.catalog, r.value.rows, r.value.ledger;
        i := i + 1;
      }
      return None;
    }

    /** `migrate`. */
    method Migrate(now: int) returns (r: Result<seq<nat>, Failure>)
      requires Valid()
      modifies this
      ensures Valid() && Ends(old(Value()), Value(), r, Migrated(old(Value()), now))
    {
      hide Ascend, Execute, Migration, Versions, Missing, Behind;
      var begun := Value();
      if ledger.None? { ledger := Some({}); }
      var done := ledger.value;
      var applied: seq<nat> := [];
      var v := 1;
      MigrationStarts(begun, Value(), done, now);
      while v <= TOP
        invariant 1 <= v <= TOP + 1 && Valid() && ledger.Some?
        invariant Migrated(begun, now) == Behind(applied, Ascend(Value(), Missing(done, v), now))
      {
        MissingFrom(done, v);
        if v !in done {
          AscendStep(Value(), Missing(done, v), v, now);
          var refused := Script(Migration(v), now);
          if refused.Some? {
            BehindFails(applied, refused.value);
            catalog, rows, ledger := begun.catalog, begun.rows, begun.ledger;
            return Err(refused.value);
          }
          ledger := Some(Ledger(Value()) + {v});
          BehindBehind(applied, [v], Ascend(Value(), Missing(done, v + 1), now));
          applied := applied + [v];
        }
        v := v + 1;
      }
      MigrationEnds(Value(), done, applied, now);
      return Ok(applied);
    }

    /** `rollback`. */
    method Rollback(to: int, accept: bool, now: int) returns (r: Result<seq<nat>, Failure>)
      requires Valid()
      modifies this
      ensures Valid() && Ends(old(Value()), Value(), r, RolledBack(old(Value()), to, accept, now))
    {
      hide Descend, Execute, LadderModel.Rollback, Versions, Behind;
      if to < 0 { return Err(NegativeTarget); }
      var begun := Value();
      if ledger.None? { return Err(NoLedger); }
      var pending := ledger.value;
      var undone: seq<nat> := [];
      BehindNothing(Descend(Value(), pending, to, accept, now));
      while pending != {}
        invariant Valid() && ledger.Some?
        invariant RolledBack(begun, to, accept, now) == Behind(undone, Descend(Value(), pending, to, accept, now))
        decreases |pending|
      {
        var v := Newest(pending);
        if v <= to { break; }
        DescendStep(Value(), pending, v, to, accept, now);
        if v == 0 || v > TOP || !accept {
          var failure := if v == 0 || v > TOP then NoRollback(v) else DataLoss(v);
          BehindFails(undone, failure);
          catalog, rows, ledger := begun.catalog, begun.rows, begun.ledger;
          return Err(failure);
        }
        var refused := Script(LadderModel.Rollback(v), now);
        if refused.Some? {
          BehindFails(undone, refused.value);
          catalog, rows, ledger := begun.catalog, begun.rows, begun.ledger;
          return Err(refused.value);
        }
        ledger := Some(Ledger(Value()) - {v});
        BehindBehind(undone, [v], Descend(Value(), pending - {v}, to, accept, now));
        undone := undone + [v];
        pending := pending - {v};
      }
      RollbackEnds(Value(), pending, to, accept, undone, now);
      return Ok(undone);
    }
  }

  /** The newest version still to be looked at. */
  method Newest(pending: set<nat>) returns (v: nat)
    requires pending != {}
    ensures v in pending && v == Greatest(pending)
  {
    ghost var greatest := Greatest(pending);
    v :| v in pending && forall u <- pending :: u <= v;
    assert v <= greatest <= v;
  }

  // ---------------------------------------------------------------- the loops, one turn at a time

  ghost function Missing(done: set<nat>, v: nat): (r: set<nat>)
    requires v > 0
    ensures forall u <- r :: 1 <= u <= TOP
  {
    Versions(TOP) - done - Versions(v - 1)
  }

  lemma MissingFrom(done: set<nat>, v: nat)
    requires 1 <= v <= TOP
    ensures v in done ==> Missing(done, v) == Missing(done, v + 1)
    ensures v !in done ==> Missing(done, v) != {} && Lowest(Missing(done, v)) == v
                           && Missing(done, v) - {v} == Missing(done, v + 1)
  {
    if v !in done { assert v in Missing(done, v); }
  }

  lemma BehindNothing(r: Result<Outcome, Failure>)
    ensures Behind([], r) == r
  {
    if r.Ok? { assert [] + r.value.versions == r.value.versions; }
  }

  lemma BehindFails(a: seq<nat>, failure: Failure)
    ensures Behind(a, Err(failure)) == Err(failure)
  {
  }

  lemma BehindBehind(a: seq<nat>, b: seq<nat>, r: Result<Outcome, Failure>)
    ensures Behind(a, Behind(b, r)) == Behind(a + b, r)
  {
    if r.Ok? { assert a + (b + r.value.versions) == a + b + r.value.versions; }
  }

  lemma MigrationStarts(begun: Db, start: Db, done: set<nat>, now: int)
    requires begun.rows.Keys == begun.catalog.tables.Keys
    requires start == begun.(ledger := Some(done)) && done == Ledger(begun)
    ensures Migrated(begun, now) == Behind([], Ascend(start, Missing(done, 1), now))
  {
    hide Ascend;
    assert Versions(0) == {};
    assert Missing(done, 1) == Versions(TOP) - done;
    BehindNothing(Ascend(start, Missing(done, 1), now));
  }

  lemma AscendStep(db: Db, missing: set<nat>, v: nat, now: int)
    requires db.rows.Keys == db.catalog.tables.Keys && forall u <- missing :: 1 <= u <= TOP
    requires missing != {} && v == Lowest(missing)
    ensures Ascend(db, missing, now)
      == var run := Execute(db, Migration(v), now);
         if run.Err? then Err(run.error)
         else Behind([v], Ascend(run.value.(ledger := Some(Ledger(run.value) + {v})), missing - {v}, now))
  {
    hide Execute, Migration;
  }

  lemma MigrationEnds(db: Db, done: set<nat>, applied: seq<nat>, now: int)
    requires db.rows.Keys == db.catalog.tables.Keys
    ensures Behind(applied, Ascend(db, Missing(done, TOP + 1), now)) == Ok(Outcome(db, applied))
  {
    hide Execute, Migration;
    assert Missing(done, TOP + 1) == {};
    assert applied + [] == applied;
  }

  lemma DescendStep(db: Db, pending: set<nat>, v: nat, to: int, accept: bool, now: int)
    requires db.rows.Keys == db.catalog.tables.Keys && pending != {} && v == Greatest(pending) && v > to
    ensures Descend(db, pending, to, accept, now)
      == if v == 0 || v > TOP then Err(NoRollback(v))
         else if !accept then Err(DataLoss(v))
         else var run := Execute(db, Rollback(v), now);
              if run.Err? then Err(run.error)
              else Behind([v], Descend(run.value.(ledger := Some(Ledger(run.value) - {v})), pending - {v},
                                       to, accept, now))
  {
    hide Execute, Rollback;
  }

  lemma RollbackEnds(db: Db, pending: set<nat>, to: int, accept: bool, undone: seq<nat>, now: int)
    requires db.rows.Keys == db.catalog.tables.Keys && (pending == {} || Greatest(pending) <= to)
    ensures Behind(undone, Descend(db, pending, to, accept, now)) == Ok(Outcome(db, undone))
  {
    hide Execute, Rollback;
    assert undone + [] == undone;
  }
}
