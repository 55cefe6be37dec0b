/** applyMigrations (store/postgres/migrations.go): under the advisory lock one run
    at a time executes the unrecorded migrations in order and records each after it
    has executed. A run may crash or fail at any statement. */
module Migrations {
  import opened Domain

  datatype Migration<Sql> = Migration(version: int, name: Str, sql: Sql)

  /** The schema and the recorded versions. */
  datatype Db<S> = Db(schema: S, ledger: set<int>)

  type Exec<!Sql, !S> = (Sql, S) -> S

  /** ms executed in order. */
  function Applied<Sql, S>(exec: Exec<Sql, S>, s: S, ms: seq<Migration<Sql>>): S
    decreases |ms|
  {
    if ms == [] then s else exec(ms[|ms| - 1].sql, Applied(exec, s, ms[..|ms| - 1]))
  }

  function Versions<Sql>(ms: seq<Migration<Sql>>): set<int> {
    set i | 0 <= i < |ms| :: ms[i].version
  }

  ghost predicate DistinctVersions<Sql>(ms: seq<Migration<Sql>>) {
    forall i, j | 0 <= i < j < |ms| :: ms[i].version != ms[j].version
  }

  /** Executing a migration twice in a row is executing it once. */
  ghost predicate Idempotent<Sql, S(!new)>(exec: Exec<Sql, S>, ms: seq<Migration<Sql>>) {
    forall i, s | 0 <= i < |ms| :: exec(ms[i].sql, exec(ms[i].sql, s)) == exec(ms[i].sql, s)
  }

  datatype Outcome<S> = Outcome(db: Db<S>, ok: bool, executed: nat)

  /** One run: `applied` is what the ledger held when the run read it, `budget` the
      number of statements before the run crashes. */
  function Run<Sql, S>(exec: Exec<Sql, S>, ms: seq<Migration<Sql>>, applied: set<int>, db: Db<S>,
                       budget: nat): Outcome<S>
    decreases |ms|
  {
    if ms == [] then Outcome(db, true, 0)
    else if ms[0].version in applied then Run(exec, ms[1..], applied, db, budget)
    else if budget == 0 then Outcome(db, false, 0)
    else
      var executed := db.(schema := exec(ms[0].sql, db.schema));
      if budget == 1 || ms[0].version in db.ledger then Outcome(executed, false, 1)
      else
        var rest := Run(exec, ms[1..], applied, executed.(ledger := db.ledger + {ms[0].version}), budget - 2);
        rest.(executed := rest.executed + 1)
  }

  /** k migrations are recorded and applied, and possibly the next one is applied
      but not recorded. */
  ghost predicate AtPrefix<Sql, S(!new)>(exec: Exec<Sql, S>, s: S, all: seq<Migration<Sql>>, db: Db<S>, k: nat) {
    && k <= |all|
    && db.ledger == Versions(all[..k])
    && (db.schema == Applied(exec, s, all[..k]) || (k < |all| && db.schema == Applied(exec, s, all[..k + 1])))
  }

  /** Executing and recording migration k from prefix k reaches prefix k + 1. */
  lemma OneMore<Sql, S(!new)>(exec: Exec<Sql, S>, s: S, all: seq<Migration<Sql>>, db: Db<S>, k: nat)
    requires DistinctVersions(all) && Idempotent(exec, all) && AtPrefix(exec, s, all, db, k) && k < |all|
    ensures all[k].version !in db.ledger
    ensures var executed := db.(schema := exec(all[k].sql, db.schema));
      && executed.schema == Applied(exec, s, all[..k + 1])
      && AtPrefix(exec, s, all, executed, k)
      && AtPrefix(exec, s, all, executed.(ledger := db.ledger + {all[k].version}), k + 1)
  {
    assert all[..k + 1][..k] == all[..k] && all[..k + 1][k] == all[k];
  }

  /** A run of the first n migrations from prefix k ends at prefix k' >= k. If it had
      anything to do and succeeded, k' is n with nothing left unrecorded; if it had
      nothing to do, it changes nothing. */
  ghost predicate Reaches<Sql, S(!new)>(exec: Exec<Sql, S>, s: S, all: seq<Migration<Sql>>, n: nat,
                                        db: Db<S>, k: nat, r: Outcome<S>, k': nat)
    requires n <= |all|
  {
    && k <= k' && AtPrefix(exec, s, all, r.db, k')
    && (r.ok ==> n <= k')
    && (n <= k ==> r == Outcome(db, true, 0))
    && (k < n && r.ok ==> k' == n && r.db.schema == Applied(exec, s, all[..n]))
  }

  /** From position i on, with everything before i recorded: the run moves through
      prefixes and, if it finishes, has recorded its whole list. */
  lemma {:induction false} RunFrom<Sql, S(!new)>(exec: Exec<Sql, S>, s: S, all: seq<Migration<Sql>>, n: nat, i: nat,
                                                 k0: nat, db: Db<S>, k: nat, budget: nat)
    returns (k': nat)
    requires DistinctVersions(all) && Idempotent(exec, all) && n <= |all| && i <= n && k0 <= k <= |all|
    requires AtPrefix(exec, s, all, db, k)
    requires if i <= k0 then k == k0 else k == i
    ensures Reaches(exec, s, all, n, db, k, Run(exec, all[i..n], Versions(all[..k0]), db, budget), k')
    decreases n - i
  {
    var ms := all[i..n];
    if i == n {
      return k;
    }
    assert ms[0] == all[i] && ms[1..] == all[i + 1..n];
    if i < k0 {
      k' := RunFrom(exec, s, all, n, i + 1, k0, db, k, budget);
      return;
    }
    OneMore(exec, s, all, db, k);
    if budget < 2 {
      return k;
    }
    var next := Db(exec(all[i].sql, db.schema), db.ledger + {all[i].version});
    k' := RunFrom(exec, s, all, n, i + 1, k0, next, k + 1, budget - 2);
    if k + 1 == n {
      k' := n;
    }
  }

  /** A whole run of a binary that knows the first n of all the migrations. */
  function RunBinary<Sql, S>(exec: Exec<Sql, S>, all: seq<Migration<Sql>>, n: nat, db: Db<S>, budget: nat): Outcome<S>
    requires n <= |all|
  {
    Run(exec, all[..n], db.ledger, db, budget)
  }

  lemma BinaryKeepsPrefix<Sql, S(!new)>(exec: Exec<Sql, S>, s: S, all: seq<Migration<Sql>>, n: nat, db: Db<S>,
                                        k: nat, budget: nat)
    returns (k': nat)
    requires DistinctVersions(all) && Idempotent(exec, all) && n <= |all| && AtPrefix(exec, s, all, db, k)
    ensures Reaches(exec, s, all, n, db, k, RunBinary(exec, all, n, db, budget), k')
  {
    assert all[0..n] == all[..n];
    k' := RunFrom(exec, s, all, n, 0, k, db, k, budget);
  }

  lemma VersionsSnoc<Sql>(ms: seq<Migration<Sql>>, k: nat)
    requires k < |ms|
    ensures Versions(ms[..k + 1]) == Versions(ms[..k]) + {ms[k].version}
  {
    var a, b := ms[..k + 1], ms[..k];
    forall v | v in Versions(b) + {ms[k].version} ensures v in Versions(a) {
      if v == ms[k].version {
        assert a[k].version == v;
      } else {
        var i :| 0 <= i < |b| && b[i].version == v;
        assert a[i].version == v;
      }
    }
    forall v | v in Versions(a) ensures v in Versions(b) + {ms[k].version} {
      var i :| 0 <= i < |a| && a[i].version == v;
      if i < k { assert b[i].version == v; }
    }
  }

  lemma NotYet<Sql>(ms: seq<Migration<Sql>>, k: nat, i: nat)
    requires DistinctVersions(ms) && k <= |ms| && i < |ms|
    ensures ms[i].version in Versions(ms[..k]) <==> i < k
  {
    if i < k { assert ms[..k][i].version == ms[i].version; }
  }

  /** How far a run gets, by its budget: from k recorded migrations it succeeds exactly
      if there are two statements for each one that is left, and otherwise it records
      one for every two statements it gets to execute. */
  ghost predicate GetsAsFar<Sql, S(!new)>(all: seq<Migration<Sql>>, n: nat, k: nat, budget: nat, r: Outcome<S>)
    requires k <= n <= |all|
  {
    && (r.ok <==> budget >= 2 * (n - k))
    && (r.ok ==> r.db.ledger == Versions(all[..n]) && r.executed == n - k)
    && (!r.ok ==>
          && k + budget / 2 <= n && r.db.ledger == Versions(all[..k + budget / 2])
          && r.executed == (budget + 1) / 2)
  }

  lemma {:induction false} RunGetsAsFar<Sql, S(!new)>(exec: Exec<Sql, S>, all: seq<Migration<Sql>>, n: nat, i: nat,
                                                      k0: nat, db: Db<S>, k: nat, budget: nat)
    requires DistinctVersions(all) && k0 <= k <= n <= |all| && i <= n && db.ledger == Versions(all[..k])
    requires if i <= k0 then k == k0 else k == i
    ensures GetsAsFar(all, n, k, budget, Run(exec, all[i..n], Versions(all[..k0]), db, budget))
    decreases n - i
  {
    var ms := all[i..n];
    if i == n {
      assert ms == [];
    } else {
      assert ms[0] == all[i] && ms[1..] == all[i + 1..n];
      NotYet(all, k0, i);
      if i < k0 {
        RunGetsAsFar(exec, all, n, i + 1, k0, db, k, budget);
      } else {
        NotYet(all, k, i);
        VersionsSnoc(all, k);
        if budget >= 2 {
          var next := Db(exec(all[i].sql, db.schema), db.ledger + {all[i].version});
          RunGetsAsFar(exec, all, n, i + 1, k0, next, k + 1, budget - 2);
        }
      }
    }
  }

  /** A start of a binary that knows at least what is recorded: it succeeds exactly if
      no statement fails before it is done, and a failure loses no recorded progress. */
  lemma RunSucceedsIff<Sql, S(!new)>(exec: Exec<Sql, S>, s: S, all: seq<Migration<Sql>>, n: nat, db: Db<S>, k: nat,
                                     budget: nat)
    requires DistinctVersions(all) && k <= n <= |all| && AtPrefix(exec, s, all, db, k)
    ensures GetsAsFar(all, n, k, budget, RunBinary(exec, all, n, db, budget))
  {
    assert all[0..n] == all[..n];
    RunGetsAsFar(exec, all, n, 0, k, db, k, budget);
  }

  /** One start of a binary: how many migrations it knows, when it crashes. */
  datatype Start = Start(known: nat, budget: nat)

  function AfterStarts<Sql, S>(exec: Exec<Sql, S>, all: seq<Migration<Sql>>, db: Db<S>, starts: seq<Start>): Db<S>
    requires forall i | 0 <= i < |starts| :: starts[i].known <= |all|
    decreases |starts|
  {
    if starts == [] then db
    else RunBinary(exec, all, starts[|starts| - 1].known,
                   AfterStarts(exec, all, db, starts[..|starts| - 1]), starts[|starts| - 1].budget).db
  }

  /** Any number of starts of older and newer binaries, each crashing anywhere: the
      ledger is a prefix of the list, and the schema is that prefix applied in order,
      possibly with the next migration applied and not yet recorded. */
  lemma {:induction false} EveryHistoryIsAPrefix<Sql, S(!new)>(exec: Exec<Sql, S>, s: S, all: seq<Migration<Sql>>,
                                                               starts: seq<Start>)
    requires DistinctVersions(all) && Idempotent(exec, all)
    requires forall i | 0 <= i < |starts| :: starts[i].known <= |all|
    ensures exists k :: AtPrefix(exec, s, all, AfterStarts(exec, all, Db(s, {}), starts), k)
    decreases |starts|
  {
    if starts == [] {
      assert all[..0] == [];
      assert AfterStarts(exec, all, Db(s, {}), starts) == Db(s, {});
      assert Versions(all[..0]) == {};
      assert AtPrefix(exec, s, all, Db(s, {}), 0);
    } else {
      var n := |starts| - 1;
      EveryHistoryIsAPrefix(exec, s, all, starts[..n]);
      var db := AfterStarts(exec, all, Db(s, {}), starts[..n]);
      var k :| AtPrefix(exec, s, all, db, k);
      var k' := BinaryKeepsPrefix(exec, s, all, starts[n].known, db, k, starts[n].budget);
      assert AtPrefix(exec, s, all, AfterStarts(exec, all, Db(s, {}), starts), k');
    }
  }

  /** After any history, a run that succeeds with the whole list leaves exactly the
      whole list applied and recorded, and the next run executes nothing. */
  lemma {:induction false} SuccessIsComplete<Sql, S(!new)>(exec: Exec<Sql, S>, s: S, all: seq<Migration<Sql>>,
                                                           starts: seq<Start>, budget: nat, again: nat)
    requires DistinctVersions(all) && Idempotent(exec, all)
    requires forall i | 0 <= i < |starts| :: starts[i].known <= |all|
    requires RunBinary(exec, all, |all|, AfterStarts(exec, all, Db(s, {}), starts), budget).ok
    ensures var db := RunBinary(exec, all, |all|, AfterStarts(exec, all, Db(s, {}), starts), budget).db;
      && db == Db(Applied(exec, s, all), Versions(all))
      && RunBinary(exec, all, |all|, db, again) == Outcome(db, true, 0)
  {
    var before := AfterStarts(exec, all, Db(s, {}), starts);
    EveryHistoryIsAPrefix(exec, s, all, starts);
    var k :| AtPrefix(exec, s, all, before, k);
    var k' := BinaryKeepsPrefix(exec, s, all, |all|, before, k, budget);
    var db := RunBinary(exec, all, |all|, before, budget).db;
    assert all[..|all|] == all;
    assert AtPrefix(exec, s, all, db, |all|);
    var _ := BinaryKeepsPrefix(exec, s, all, |all|, db, |all|, again);
  }

  class Database<S> {
    var schema: S
    var ledger: set<int>

    constructor (s: S)
      ensures schema == s && ledger == {}
    {
      schema := s;
      ledger := {};
    }
  }

  lemma SomeRow(rows: set<int>)
    ensures rows == {} || exists v :: v in rows
  {
    if forall v :: v !in rows {
      assert rows == {};
    }
  }

  /** The rows of the ledger read one by one, in any order. */
  method ReadApplied(ledger: set<int>) returns (applied: set<int>)
    ensures applied == ledger
  {
    applied := {};
    var rows := ledger;
    while rows != {}
      invariant applied + rows == ledger
      decreases |rows|
    {
      SomeRow(rows);
      var v :| v in rows;
      applied := applied + {v};
      rows := rows - {v};
    }
  }

  /** The runner itself; `budget` counts the statements it gets to execute. */
  method ApplyMigrations<Sql, S>(db: Database<S>, migrations: seq<Migration<Sql>>, exec: Exec<Sql, S>, budget: nat)
    returns (ok: bool, executed: nat)
    modifies db
    ensures Outcome(Db(db.schema, db.ledger), ok, executed)
      == Run(exec, migrations, old(db.ledger), old(Db(db.schema, db.ledger)), budget)
  {
    var applied := ReadApplied(db.ledger);
    ghost var goal := Run(exec, migrations, applied, Db(db.schema, db.ledger), budget);
    var left := budget;
    executed := 0;
    for i := 0 to |migrations|
      invariant var rest := Run(exec, migrations[i..], applied, Db(db.schema, db.ledger), left);
        goal == rest.(executed := rest.executed + executed)
    {
      var m := migrations[i];
      assert migrations[i..][0] == m && migrations[i..][1..] == migrations[i + 1..];
      if m.version in applied {
        continue;
      }
      if left == 0 {
        return false, executed;
      }
      db.schema := exec(m.sql, db.schema);
      executed := executed + 1;
      left := left - 1;
      if left == 0 || m.version in db.ledger {
        return false, executed;
      }
      db.ledger := db.ledger + {m.version};
      left := left - 1;
    }
    assert migrations[|migrations|..] == [];
    ok := true;
  }
}
