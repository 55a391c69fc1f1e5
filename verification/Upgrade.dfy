/** Nested transactions (persist/Database.h:38-89) and the upgrade loop that runs on them
    (prj/src/persist/Persist.cpp:106-174).

    An upgrade function is whatever its author wrote; here it is the statements it executes, the
    transactions it opens in between, any of which may fail, and the failures it catches.  A
    failure is an exception.
 */
module Upgrade {
  import opened Sequences

  datatype Entry = Change(id: int) | Version(value: nat)

  /** A connection.  Outside a transaction every statement takes effect at once. */
  datatype Db = Db(committed: seq<Entry>, working: seq<Entry>, begun: bool, level: nat) {
    ghost predicate Clean() { !begun && level == 0 && working == committed }
  }

  datatype Op =
    | Sql(entry: Entry, fails: bool)
    | Nested(body: Ops, commitFails: bool)
    | Try(body: Ops)

  datatype Ops = End | Throw | Then(op: Op, rest: Ops)

  // What each statement means.

  function Write(d: Db, e: Entry): Db {
    if d.begun then d.(working := d.working + [e])
    else d.(committed := d.committed + [e], working := d.committed + [e])
  }

  /** The constructor of Transaction. */
  function Enter(d: Db): Db {
    if d.level == 0 then Db(d.committed, d.committed, true, 1) else d.(level := d.level + 1)
  }

  /** Transaction::commit: only the outermost reaches the database. */
  function CommitLevel(d: Db, fails: bool): (Db, bool) {
    if d.level == 0 then (d, false)
    else if d.level == 1 then (if fails then (d, false) else (Db(d.working, d.working, false, 0), true))
    else (d.(level := d.level - 1), true)
  }

  /** The destructor of Transaction: without a commit, everything is rolled back at once. */
  function Leave(d: Db, commited: bool): Db {
    if commited then d else Db(d.committed, d.committed, false, 0)
  }

  function Exec(d: Db, op: Op): (Db, bool)
    decreases op
  {
    match op
    case Sql(e, fails) => if fails then (d, false) else (Write(d, e), true)
    case Nested(body, commitFails) =>
      var (d1, ran) := ExecAll(Enter(d), body);
      var (d2, commited) := if ran then CommitLevel(d1, commitFails) else (d1, false);
      (Leave(d2, commited), commited)
    case Try(body) => (ExecAll(d, body).0, true)
  }

  function ExecAll(d: Db, ops: Ops): (Db, bool)
    decreases ops
  {
    match ops
    case End => (d, true)
    case Throw => (d, false)
    case Then(op, rest) =>
      var (d1, ok) := Exec(d, op);
      if ok then ExecAll(d1, rest) else (d1, false)
  }

  // The same, in place.

  class Database {
    var committed: seq<Entry>
    var working: seq<Entry>
    var begun: bool
    var level: nat

    constructor (stored: seq<Entry>)
      ensures View() == Db(stored, stored, false, 0)
    {
      committed, working, begun, level := stored, stored, false, 0;
    }

    function View(): Db
      reads this
    {
      Db(committed, working, begun, level)
    }

    method Begin()
      modifies this
      ensures View() == Db(old(committed), old(committed), true, old(level))
    {
      working, begun := committed, true;
    }

    method CommitWork(fails: bool) returns (ok: bool)
      modifies this
      ensures ok == !fails
      ensures View() == if fails then old(View()) else Db(old(working), old(working), false, old(level))
    {
      if fails {
        return false;
      }
      committed, begun := working, false;
      return true;
    }

    method Rollback()
      modifies this
      ensures View() == Db(old(committed), old(committed), false, old(level))
    {
      working, begun := committed, false;
    }

    method ExecuteSql(e: Entry, fails: bool) returns (ok: bool)
      modifies this
      ensures ok == !fails && View() == if fails then old(View()) else Write(old(View()), e)
    {
      if fails {
        return false;
      }
      if begun {
        working := working + [e];
      } else {
        committed := committed + [e];
        working := committed;
      }
      return true;
    }

    method Run(op: Op) returns (ok: bool)
      modifies this
      ensures (View(), ok) == Exec(old(View()), op)
      decreases op
    {
      match op
      case Sql(e, fails) =>
        ok := ExecuteSql(e, fails);
      case Nested(body, commitFails) =>
        var trans := new Transaction(this);
        ok := RunAll(body);
        if ok {
          ok := trans.Commit(commitFails);
        }
        trans.Destroy();
      case Try(body) =>
        ok := RunAll(body);
        ok := true;
    }

    method RunAll(ops: Ops) returns (ok: bool)
      modifies this
      ensures (View(), ok) == ExecAll(old(View()), ops)
      decreases ops
    {
      match ops
      case End => ok := true;
      case Throw => ok := false;
      case Then(op, rest) =>
        ok := Run(op);
        if ok {
          ok := RunAll(rest);
        }
    }
  }

  class Transaction {
    const db: Database
    var commited: bool

    constructor (db: Database)
      modifies db
      ensures this.db == db && !commited && db.View() == Enter(old(db.View()))
    {
      this.db := db;
      commited := false;
      new;
      db.level := db.level + 1;
      if db.level == 1 {
        db.Begin();
      }
    }

    method Commit(fails: bool) returns (ok: bool)
      modifies this, db
      ensures (db.View(), ok) == CommitLevel(old(db.View()), fails)
      ensures commited == (ok || old(commited))
    {
      if db.level == 0 {
        return false;
      }
      if db.level == 1 {
        ok := db.CommitWork(fails);
        if !ok {
          return;
        }
      }
      db.level := db.level - 1;
      commited := true;
      return true;
    }

    method Destroy()
      modifies db
      ensures db.View() == Leave(old(db.View()), commited)
    {
      if !commited {
        db.Rollback();
        db.level := 0;
      }
    }
  }

  // All or nothing.

  /** How statements inside a transaction end: they run to the end; they throw; they throw out of
      an inner transaction, which has rolled everything back; or such a failure is swallowed. */
  datatype Outcome = Ran | Threw | Undone | Swallowed

  function OutcomeOf(op: Op): Outcome
    decreases op
  {
    match op
    case Sql(_, fails) => if fails then Threw else Ran
    case Nested(body, _) => if Outcomes(body) == Threw then Undone else Outcomes(body)
    case Try(body) =>
      match Outcomes(body)
      case Threw => Ran
      case Undone => Swallowed
      case o => o
  }

  function Outcomes(ops: Ops): Outcome
    decreases ops
  {
    match ops
    case End => Ran
    case Throw => Threw
    case Then(op, rest) => if OutcomeOf(op) == Ran then Outcomes(rest) else OutcomeOf(op)
  }

  /** What the statements have written when they end. */
  function WrittenBy(op: Op): seq<Entry>
    decreases op
  {
    match op
    case Sql(e, fails) => if fails then [] else [e]
    case Nested(body, _) => Written(body)
    case Try(body) => Written(body)
  }

  function Written(ops: Ops): seq<Entry>
    decreases ops
  {
    match ops
    case Then(op, rest) => WrittenBy(op) + if OutcomeOf(op) == Ran then Written(rest) else []
    case _ => []
  }

  function RolledBack(d: Db): Db {
    Db(d.committed, d.committed, false, 0)
  }

  /** Inside a transaction, unless a failure is swallowed, nothing is committed: all that was
      written is in the working copy, at the same level, or everything has been rolled back. */
  function Inside(d: Db, o: Outcome, written: seq<Entry>): Db {
    if o == Undone then RolledBack(d) else d.(working := d.working + written)
  }

  lemma {:induction false} InnerRun(d: Db, ops: Ops)
    requires d.begun && d.level >= 1 && Outcomes(ops) != Swallowed
    ensures ExecAll(d, ops) == (Inside(d, Outcomes(ops), Written(ops)), Outcomes(ops) == Ran)
    decreases ops
  {
    match ops
    case End =>
      assert d.working + [] == d.working;
    case Throw =>
      assert d.working + [] == d.working;
    case Then(op, rest) =>
      InnerStep(d, op);
      if OutcomeOf(op) == Ran {
        var d1 := Exec(d, op).0;
        InnerRun(d1, rest);
        Regroup(d.working, WrittenBy(op), Written(rest));
      } else {
        assert WrittenBy(op) + [] == WrittenBy(op);
      }
  }

  lemma {:induction false} InnerStep(d: Db, op: Op)
    requires d.begun && d.level >= 1 && OutcomeOf(op) != Swallowed
    ensures Exec(d, op) == (Inside(d, OutcomeOf(op), WrittenBy(op)), OutcomeOf(op) == Ran)
    decreases op
  {
    match op
    case Sql(e, fails) =>
      assert d.working + [] == d.working;
    case Nested(body, _) => InnerRun(Enter(d), body);
    case Try(body) => InnerRun(d, body);
  }

  /** The outermost transaction: all that was written is committed, or nothing is. */
  lemma AllOrNothing(d: Db, body: Ops, commitFails: bool)
    requires d.Clean() && Outcomes(body) != Swallowed
    ensures var (r, ok) := Exec(d, Nested(body, commitFails));
      && (ok <==> Outcomes(body) == Ran && !commitFails)
      && r == if ok then Db(d.committed + Written(body), d.committed + Written(body), false, 0) else d
  {
    InnerRun(Enter(d), body);
  }

  // Swallowed failures.

  /** Outside any transaction every statement takes effect at once, and stays. */
  ghost predicate Outside(d: Db, r: Db) {
    r.Clean() && d.committed <= r.committed
  }

  lemma {:induction false} StaysOutside(d: Db, ops: Ops)
    requires d.Clean()
    ensures Outside(d, ExecAll(d, ops).0)
    decreases ops
  {
    match ops
    case End =>
    case Throw =>
    case Then(op, rest) =>
      StepStaysOutside(d, op);
      StaysOutside(Exec(d, op).0, rest);
  }

  lemma {:induction false} StepStaysOutside(d: Db, op: Op)
    requires d.Clean()
    ensures Outside(d, Exec(d, op).0)
    decreases op
  {
    match op
    case Sql(_, _) =>
    case Nested(body, _) =>
      if Outcomes(body) == Swallowed {
        AfterSwallowing(Enter(d), body);
      } else {
        InnerRun(Enter(d), body);
      }
    case Try(body) => StaysOutside(d, body);
  }

  /** Once a failure has been swallowed there is no transaction any more: the level is 0, and
      what is executed from then on takes effect at once. */
  lemma {:induction false} AfterSwallowing(d: Db, ops: Ops)
    requires d.begun && d.level >= 1 && Outcomes(ops) == Swallowed
    ensures Outside(d, ExecAll(d, ops).0)
    decreases ops
  {
    var op, rest := ops.op, ops.rest;
    if OutcomeOf(op) == Swallowed {
      StepAfterSwallowing(d, op);
      StaysOutside(Exec(d, op).0, rest);
    } else {
      InnerStep(d, op);
      AfterSwallowing(Exec(d, op).0, rest);
    }
  }

  lemma {:induction false} StepAfterSwallowing(d: Db, op: Op)
    requires d.begun && d.level >= 1 && OutcomeOf(op) == Swallowed
    ensures Outside(d, Exec(d, op).0)
    decreases op
  {
    if op.Nested? {
      AfterSwallowing(Enter(d), op.body);
    } else if Outcomes(op.body) == Undone {
      InnerRun(d, op.body);
    } else {
      AfterSwallowing(d, op.body);
    }
  }

  // An upgrade as the loop runs it: the function, then the new version row.

  function Append(ops: Ops, op: Op): Ops {
    match ops
    case End => Then(op, End)
    case Throw => Throw
    case Then(first, rest) => Then(first, Append(rest, op))
  }

  lemma {:induction false} AppendRuns(d: Db, ops: Ops, op: Op)
    ensures ExecAll(d, Append(ops, op))
         == (var (d1, ok) := ExecAll(d, ops); if ok then Exec(d1, op) else (d1, false))
    decreases ops
  {
    match ops
    case End =>
      assert ExecAll(d, Then(op, End)) == (var (d1, ok) := Exec(d, op); if ok then (d1, true) else (d1, false));
    case Throw =>
    case Then(first, rest) =>
      if Exec(d, first).1 {
        AppendRuns(Exec(d, first).0, rest, op);
      }
  }

  lemma {:induction false} AppendEnds(ops: Ops, e: Entry, fails: bool)
    ensures Outcomes(Append(ops, Sql(e, fails))) ==
      if Outcomes(ops) == Ran then (if fails then Threw else Ran) else Outcomes(ops)
    ensures Outcomes(ops) == Ran && !fails ==> Written(Append(ops, Sql(e, fails))) == Written(ops) + [e]
    decreases ops
  {
    match ops
    case End =>
      assert [e] + [] == [] + [e];
    case Throw =>
    case Then(op, rest) =>
      AppendEnds(rest, e, fails);
      Regroup(WrittenBy(op), Written(rest), [e]);
  }

  function UpgradeOp(func: Ops, version: nat, saveFails: bool, commitFails: bool): Op {
    Nested(Append(func, Sql(Version(version), saveFails)), commitFails)
  }

  /** Swallowing the failure of an inner transaction: what the function had written before is lost;
      if it returns, its version row is stored at once, although the upgrade fails. */
  lemma SwallowedFailure(d: Db, func: Ops, version: nat, saveFails: bool, commitFails: bool)
    requires d.Clean() && Outcomes(func) == Swallowed
    ensures var (inner, returned) := ExecAll(Enter(d), func);
      var (r, ok) := Exec(d, UpgradeOp(func, version, saveFails, commitFails));
      && inner.level == 0 && !inner.begun && !ok
      && d.committed <= inner.committed
      && r.committed == inner.committed + if returned && !saveFails then [Version(version)] else []
  {
    AfterSwallowing(Enter(d), func);
    AppendRuns(Enter(d), func, Sql(Version(version), saveFails));
    var inner := ExecAll(Enter(d), func).0;
    assert inner.committed + [] == inner.committed;
  }

  /** For instance: one change, then an inner transaction whose failure is caught. */
  lemma SwallowedChange(d: Db, lost: int, version: nat, func: Ops)
    requires d.Clean()
    requires func == Then(Sql(Change(lost), false), Then(Try(Then(Nested(Throw, false), End)), End))
    ensures var (r, ok) := Exec(d, UpgradeOp(func, version, false, false));
      !ok && r.committed == d.committed + [Version(version)]
  {
    var inner, failing := Then(Nested(Throw, false), End), Nested(Throw, false);
    var written := Write(Enter(d), Change(lost));
    assert ExecAll(Enter(written), Throw) == (Enter(written), false);
    assert Exec(written, failing) == (RolledBack(d), false);
    assert ExecAll(written, inner) == (RolledBack(d), false);
    assert ExecAll(written, Then(Try(inner), End)) == (RolledBack(d), true);
    assert ExecAll(Enter(d), func) == (RolledBack(d), true);
    assert OutcomeOf(failing) == Undone && Outcomes(inner) == Undone;
    SwallowedFailure(d, func, version, false, false);
  }

  ghost predicate Atomic(d: Db, r: Db, ok: bool, entries: seq<Entry>) {
    r.committed == if ok then d.committed + entries else d.committed
  }

  /** Of an upgrade whose function returns and whose version row can be saved: it is all or
      nothing if and only if the function swallows no failure. */
  lemma AllOrNothingIff(d: Db, func: Ops, version: nat, commitFails: bool)
    requires d.Clean() && ExecAll(Enter(d), func).1
    ensures var (r, ok) := Exec(d, UpgradeOp(func, version, false, commitFails));
      Atomic(d, r, ok, Written(func) + [Version(version)]) <==> Outcomes(func) != Swallowed
  {
    if Outcomes(func) == Swallowed {
      SwallowedFailure(d, func, version, false, commitFails);
    } else {
      InnerRun(Enter(d), func);
      AppendEnds(func, Version(version), false);
      AllOrNothing(d, Append(func, Sql(Version(version), false)), commitFails);
    }
  }

  // The loop.

  function Rows(entries: seq<Entry>): seq<nat> {
    if entries == [] then []
    else
      Rows(entries[..|entries| - 1]) +
      match entries[|entries| - 1]
      case Change(_) => []
      case Version(v) => [v]
  }

  /** The version read back: the highest of the version rows, 0 without any. */
  function Stored(entries: seq<Entry>): nat {
    Highest(Rows(entries))
  }

  function Highest(rows: seq<nat>): nat {
    if rows == [] then 0
    else
      var before, v := Highest(rows[..|rows| - 1]), rows[|rows| - 1];
      if v > before then v else before
  }

  lemma {:induction false} RowsMember(entries: seq<Entry>, v: nat)
    ensures v in Rows(entries) <==> Version(v) in entries
  {
    if entries != [] {
      var n := |entries| - 1;
      RowsMember(entries[..n], v);
      assert entries == entries[..n] + [entries[n]];
    }
  }

  /** What is above the version read: above 0 and every version row. */
  lemma {:induction false} AboveHighest(rows: seq<nat>, v: nat)
    ensures v > Highest(rows) <==> v > 0 && forall r :: r in rows ==> v > r
  {
    if rows != [] {
      var n := |rows| - 1;
      AboveHighest(rows[..n], v);
      assert rows[n] in rows && forall r :: r in rows[..n] ==> r in rows;
      forall r | r in rows
        ensures r in rows[..n] || r == rows[n]
      {
        assert rows == rows[..n] + [rows[n]];
      }
    }
  }

  ghost predicate Above(v: nat, entries: seq<Entry>) {
    v > 0 && forall r :: Version(r) in entries ==> v > r
  }

  lemma AboveStored(entries: seq<Entry>, v: nat)
    ensures v > Stored(entries) <==> Above(v, entries)
  {
    AboveHighest(Rows(entries), v);
    forall r: nat
      ensures r in Rows(entries) <==> Version(r) in entries
    {
      RowsMember(entries, r);
    }
  }

  lemma RowsPush(entries: seq<Entry>, e: Entry)
    ensures Rows(entries + [e]) == Rows(entries) + match e case Change(_) => [] case Version(v) => [v]
  {
    assert (entries + [e])[..|entries|] == entries;
  }

  lemma HighestPush(rows: seq<nat>, v: nat)
    ensures Highest(rows + [v]) == if v > Highest(rows) then v else Highest(rows)
  {
    assert (rows + [v])[..|rows|] == rows;
  }

  // A function that leaves the version table to the loop.

  predicate LeavesRows(op: Op)
    decreases op
  {
    match op
    case Sql(e, fails) => e.Change? || fails
    case Nested(body, _) => LeaveRows(body)
    case Try(body) => LeaveRows(body)
  }

  predicate LeaveRows(ops: Ops)
    decreases ops
  {
    ops.Then? ==> LeavesRows(ops.op) && LeaveRows(ops.rest)
  }

  ghost predicate RowsAre(d: Db, rows: seq<nat>) {
    Rows(d.committed) == rows && Rows(d.working) == rows
  }

  lemma {:induction false} RowsKept(d: Db, ops: Ops, rows: seq<nat>)
    requires RowsAre(d, rows) && LeaveRows(ops)
    ensures RowsAre(ExecAll(d, ops).0, rows)
    decreases ops
  {
    if ops.Then? {
      StepKeepsRows(d, ops.op, rows);
      RowsKept(Exec(d, ops.op).0, ops.rest, rows);
    }
  }

  lemma {:induction false} StepKeepsRows(d: Db, op: Op, rows: seq<nat>)
    requires RowsAre(d, rows) && LeavesRows(op)
    ensures RowsAre(Exec(d, op).0, rows)
    decreases op
  {
    match op
    case Sql(e, fails) =>
      if !fails {
        RowsPush(d.working, e);
        RowsPush(d.committed, e);
        assert rows + [] == rows;
      }
    case Nested(body, commitFails) =>
      RowsKept(Enter(d), body, rows);
      var (d1, ran) := ExecAll(Enter(d), body);
      assert RowsAre(if ran then CommitLevel(d1, commitFails).0 else d1, rows);
    case Try(body) => RowsKept(d, body, rows);
  }

  /** ... and the next time the upgrade counts as done. */
  lemma SwallowedCountsAsDone(d: Db, func: Ops, version: nat, commitFails: bool)
    requires d.Clean() && Outcomes(func) == Swallowed && ExecAll(Enter(d), func).1
    ensures Stored(Exec(d, UpgradeOp(func, version, false, commitFails)).0.committed) >= version
  {
    SwallowedFailure(d, func, version, false, commitFails);
    var inner := ExecAll(Enter(d), func).0;
    RowsPush(inner.committed, Version(version));
    HighestPush(Rows(inner.committed), version);
  }

  /** The versions still to run, in the order of running, when "stored" is the version read. */
  function Pending(versions: seq<nat>, stored: nat): seq<nat> {
    if versions == [] then []
    else if versions[0] > stored then [versions[0]] + Pending(versions[1..], versions[0])
    else Pending(versions[1..], stored)
  }

  ghost predicate Sorted(versions: seq<nat>) {
    forall i, j :: 0 <= i < j < |versions| ==> versions[i] <= versions[j]
  }

  ghost predicate Ascending(versions: seq<nat>) {
    forall i, j :: 0 <= i < j < |versions| ==> versions[i] < versions[j]
  }

  lemma SortedRest(versions: seq<nat>)
    requires Sorted(versions) && versions != []
    ensures Sorted(versions[1..]) && forall v :: v in versions[1..] ==> versions[0] <= v
  {
  }

  /** Pending is exactly the registered versions above the stored one ... */
  lemma {:induction false} PendingMember(versions: seq<nat>, stored: nat, v: nat)
    requires Sorted(versions)
    ensures v in Pending(versions, stored) <==> v in versions && v > stored
  {
    if versions != [] {
      SortedRest(versions);
      FirstOrRest(versions, v);
      PendingMember(versions[1..], if versions[0] > stored then versions[0] else stored, v);
    }
  }

  lemma FirstOrRest(s: seq<nat>, v: nat)
    requires s != []
    ensures v in s <==> v == s[0] || v in s[1..]
  {
    assert s == [s[0]] + s[1..];
  }

  /** ... each once, ascending. */
  lemma {:induction false} PendingAscends(versions: seq<nat>, stored: nat)
    ensures var p := Pending(versions, stored); Ascending(p) && forall i :: 0 <= i < |p| ==> p[i] > stored
  {
    if versions != [] {
      var first := versions[0];
      if first > stored {
        PendingAscends(versions[1..], first);
      } else {
        PendingAscends(versions[1..], stored);
      }
    }
  }

  /** Versions not above the stored one are passed over. */
  lemma {:induction false} PassOver(versions: seq<nat>, n: nat, stored: nat)
    requires n <= |versions| && forall i :: 0 <= i < n ==> versions[i] <= stored
    ensures Pending(versions, stored) == Pending(versions[n..], stored)
  {
    if n == 0 {
      assert versions[0..] == versions;
    } else {
      PassOver(versions[1..], n - 1, stored);
      assert versions[1..][n - 1..] == versions[n..];
    }
  }

  lemma NextPending(versions: seq<nat>, n: nat, stored: nat)
    requires n < |versions| && Sorted(versions)
    requires forall i :: 0 <= i < n ==> versions[i] <= stored
    requires versions[n] > stored
    ensures Pending(versions, stored) == [versions[n]] + Pending(versions, versions[n])
  {
    PassOver(versions, n, stored);
    PassOver(versions, n + 1, versions[n]);
    assert versions[n..][1..] == versions[n + 1..];
  }

  /** An upgrade committed: its version, and what it changed. */
  datatype Applied = Applied(version: nat, changes: seq<Entry>)

  function Log(applied: seq<Applied>): seq<Entry> {
    if applied == [] then []
    else
      var last := applied[|applied| - 1];
      Log(applied[..|applied| - 1]) + last.changes + [Version(last.version)]
  }

  function Versions(applied: seq<Applied>): (r: seq<nat>)
    ensures |r| == |applied|
  {
    if applied == [] then [] else Versions(applied[..|applied| - 1]) + [applied[|applied| - 1].version]
  }

  lemma PushApplied(applied: seq<Applied>, a: Applied)
    ensures Log(applied + [a]) == Log(applied) + a.changes + [Version(a.version)]
    ensures Versions(applied + [a]) == Versions(applied) + [a.version]
  {
    assert (applied + [a])[..|applied|] == applied;
  }

  lemma Grow(start: seq<Entry>, log: seq<Entry>, a: Applied)
    ensures start + log + a.changes + [Version(a.version)] == start + (log + a.changes + [Version(a.version)])
  {
  }

  /** The version table of a database, by what the loop has recorded in it since the start: these are
      the versions that were to come, and those still to come come after them. */
  ghost predicate Recorded(start: seq<nat>, recorded: seq<nat>, now: seq<nat>, versions: seq<nat>) {
    && now == start + recorded
    && Pending(versions, Highest(start)) == recorded + Pending(versions, Highest(now))
  }

  lemma RecordNext(start: seq<nat>, recorded: seq<nat>, now: seq<nat>, versions: seq<nat>, i: nat)
    requires Recorded(start, recorded, now, versions) && Sorted(versions) && i < |versions|
    requires versions[i] > Highest(now) && forall j :: 0 <= j < i ==> versions[j] <= Highest(now)
    ensures Recorded(start, recorded + [versions[i]], now + [versions[i]], versions)
    ensures Highest(now + [versions[i]]) == versions[i]
  {
    NextPending(versions, i, Highest(now));
    HighestPush(now, versions[i]);
    Regroup(recorded, [versions[i]], Pending(versions, versions[i]));
    Regroup(start, recorded, [versions[i]]);
  }

  /** How one attempt at an upgrade goes; the next attempt may go otherwise. */
  datatype Attempt = Attempt(func: Ops, saveFails: bool, commitFails: bool) {
    predicate Swallows() { Outcomes(func) == Swallowed }

    /** It leads from d to r, and ends well or not. */
    ghost predicate Leads(d: Db, version: nat, r: Db, ok: bool) {
      (r, ok) == Exec(d, UpgradeOp(func, version, saveFails, commitFails))
    }

    predicate Succeeds() { Outcomes(func) == Ran && !saveFails && !commitFails }

    /** Whether the version row is there afterwards: if a failure has been swallowed, then even though
        the upgrade fails. */
    predicate Records(d: Db) {
      ExecAll(Enter(d), func).1 && !saveFails && (Swallows() || !commitFails)
    }
  }

  /** Either way: unless it swallows a failure, it is all or nothing; if it does, it fails. */
  lemma UpgradeEnds(d: Db, version: nat, a: Attempt)
    requires d.Clean()
    ensures var (r, ok) := Exec(d, UpgradeOp(a.func, version, a.saveFails, a.commitFails));
      && Outside(d, r)
      && if a.Swallows() then !ok
         else ok == a.Succeeds() == a.Records(d) && Atomic(d, r, ok, Written(a.func) + [Version(version)])
  {
    StepStaysOutside(d, UpgradeOp(a.func, version, a.saveFails, a.commitFails));
    if a.Swallows() {
      SwallowedFailure(d, a.func, version, a.saveFails, a.commitFails);
    } else {
      InnerRun(Enter(d), a.func);
      AppendEnds(a.func, Version(version), a.saveFails);
      AllOrNothing(d, Append(a.func, Sql(Version(version), a.saveFails)), a.commitFails);
    }
  }

  lemma RowsAfterUpgrade(d: Db, a: Attempt, version: nat)
    requires d.Clean() && LeaveRows(a.func)
    ensures var r := Exec(d, UpgradeOp(a.func, version, a.saveFails, a.commitFails)).0;
      Rows(r.committed) == if a.Records(d) then Rows(d.committed) + [version] else Rows(d.committed)
  {
    RowsKept(Enter(d), a.func, Rows(d.committed));
    if a.Swallows() {
      SwallowedFailure(d, a.func, version, a.saveFails, a.commitFails);
      var inner := ExecAll(Enter(d), a.func).0;
      RowsPush(inner.committed, Version(version));
      assert inner.committed + [] == inner.committed;
    } else {
      UpgradeEnds(d, version, a);
      if a.Succeeds() {
        RowsOfRun(d, a.func, version);
      }
    }
  }

  lemma RowsOfRun(d: Db, func: Ops, version: nat)
    requires d.Clean() && Outcomes(func) == Ran && RowsAre(ExecAll(Enter(d), func).0, Rows(d.committed))
    ensures Rows(d.committed + Written(func) + [Version(version)]) == Rows(d.committed) + [version]
    ensures d.committed + (Written(func) + [Version(version)]) == d.committed + Written(func) + [Version(version)]
  {
    InnerRun(Enter(d), func);
    RowsPush(d.committed + Written(func), Version(version));
    Regroup(d.committed, Written(func), [Version(version)]);
  }

  class Persist {
    const db: Database
    const versions: seq<nat>     // the registered upgrades, sorted when the object is born
    var upgraded: bool           // state _a

    ghost const start: seq<Entry>
    ghost var recorded: seq<nat>     // the version rows stored by the loop
    ghost var applied: seq<Applied>
    ghost var meddled: bool          // a function that writes version rows itself has been run
    ghost var swallowed: bool        // a function that swallows a failure has been run

    /** Unless a function has written version rows, those recorded and those still to come are those
        that were to come at the start; unless one has swallowed a failure, the database is what it
        was plus each upgrade recorded, whole and followed by its version. */
    ghost predicate Valid()
      reads this, db
    {
      && db.View().Clean()
      && Sorted(versions)
      && (!meddled ==> Recorded(Rows(start), recorded, Rows(db.committed), versions))
      && (!meddled && upgraded ==> Pending(versions, Stored(db.committed)) == [])
      && (!swallowed ==> db.committed == start + Log(applied) && recorded == Versions(applied))
    }

    constructor (stored: seq<Entry>, versions: seq<nat>)
      requires Sorted(versions)
      ensures Valid() && !upgraded && recorded == [] && applied == [] && !meddled && !swallowed
      ensures start == stored && this.versions == versions && fresh(db)
    {
      db := new Database(stored);
      this.versions := versions;
      upgraded, meddled, swallowed := false, false, false;
      start, recorded, applied := stored, [], [];
      new;
      assert start + [] == start && Rows(start) + [] == Rows(start);
      assert [] + Pending(versions, Stored(start)) == Pending(versions, Stored(start));
    }

    /** One upgrade in its transaction. */
    method RunUpgrade(version: nat, a: Attempt) returns (ok: bool)
      requires db.View().Clean()
      modifies db
      ensures a.Leads(old(db.View()), version, db.View(), ok)
      ensures db.View().Clean() && old(db.committed) <= db.committed
      ensures a.Swallows() ==> !ok
      ensures !a.Swallows() ==> ok == a.Succeeds()
      ensures !a.Swallows() ==>
        db.committed == if ok then old(db.committed) + Written(a.func) + [Version(version)] else old(db.committed)
    {
      ghost var d := db.View();
      var trans := new Transaction(db);
      ok := db.RunAll(a.func);
      if ok {
        ok := db.ExecuteSql(Version(version), a.saveFails);
      }
      if ok {
        ok := trans.Commit(a.commitFails);
      }
      trans.Destroy();
      AppendRuns(Enter(d), a.func, Sql(Version(version), a.saveFails));
      assert (db.View(), ok) == Exec(d, UpgradeOp(a.func, version, a.saveFails, a.commitFails));
      UpgradeEnds(d, version, a);
      Regroup(d.committed, Written(a.func), [Version(version)]);
    }

    ghost predicate NoneAbove(i: nat, stored: nat)
      requires i <= |versions|
    {
      forall j :: 0 <= j < i ==> versions[j] <= stored
    }

    /** The body of the loop for a version that is to run. */
    method Advance(i: nat, a: Attempt) returns (ok: bool)
      requires Valid() && !upgraded && i < |versions|
      requires !meddled ==> versions[i] > Stored(db.committed) && NoneAbove(i, Stored(db.committed))
      modifies this`recorded, this`applied, this`meddled, this`swallowed, db
      ensures Valid() && ok == a.Succeeds() && old(db.committed) <= db.committed
      ensures meddled == (old(meddled) || !LeaveRows(a.func)) && swallowed == (old(swallowed) || a.Swallows())
      ensures ok && !meddled ==> Stored(db.committed) == versions[i]
      ensures recorded == old(NowRecorded(db.View(), i, a)) && applied == old(NowApplied(i, a, ok))
    {
      ghost var d := db.View();
      ok := RunUpgrade(versions[i], a);
      meddled, swallowed := meddled || !LeaveRows(a.func), swallowed || a.Swallows();
      if !meddled {
        AttemptIsRecorded(d, i, a, db.View(), ok);
      }
      if !swallowed {
        AttemptIsApplied(d, i, a, db.View(), ok);
      }
      recorded, applied := NowRecorded(d, i, a), NowApplied(i, a, ok);
    }

    ghost function NowRecorded(d: Db, i: nat, a: Attempt): (r: seq<nat>)
      requires i < |versions|
      reads `recorded
      ensures recorded <= r
    {
      if a.Records(d) then recorded + [versions[i]] else recorded
    }

    ghost function NowApplied(i: nat, a: Attempt, ok: bool): (r: seq<Applied>)
      requires i < |versions|
      reads `applied
      ensures applied <= r
    {
      if ok then applied + [Applied(versions[i], Written(a.func))] else applied
    }

    lemma AttemptIsApplied(d: Db, i: nat, a: Attempt, r: Db, ok: bool)
      requires i < |versions| && a.Leads(d, versions[i], r, ok) && d.Clean() && !a.Swallows()
      requires d.committed == start + Log(applied) && recorded == Versions(applied)
      ensures r.committed == start + Log(NowApplied(i, a, ok)) && NowRecorded(d, i, a) == Versions(NowApplied(i, a, ok))
    {
      var one := Applied(versions[i], Written(a.func));
      UpgradeEnds(d, versions[i], a);
      PushApplied(applied, one);
      Grow(start, Log(applied), one);
      Regroup(d.committed, Written(a.func), [Version(versions[i])]);
    }

    lemma AttemptIsRecorded(d: Db, i: nat, a: Attempt, r: Db, ok: bool)
      requires i < |versions| && a.Leads(d, versions[i], r, ok) && d.Clean() && LeaveRows(a.func) && Sorted(versions)
      requires Recorded(Rows(start), recorded, Rows(d.committed), versions)
      requires versions[i] > Stored(d.committed) && NoneAbove(i, Stored(d.committed))
      ensures Recorded(Rows(start), NowRecorded(d, i, a), Rows(r.committed), versions)
      ensures Stored(r.committed) == if a.Records(d) then versions[i] else Stored(d.committed)
    {
      RowsAfterUpgrade(d, a, versions[i]);
      RecordNext(Rows(start), recorded, Rows(d.committed), versions, i);
    }

    lemma StillPrefix<T>(a: seq<T>, b: seq<T>, c: seq<T>)
      requires a <= b <= c
      ensures a <= c
    {
    }

    ghost predicate AllLeaveRows(attempts: seq<Attempt>) {
      forall i :: 0 <= i < |attempts| ==> LeaveRows(attempts[i].func)
    }

    ghost predicate NoneSwallow(attempts: seq<Attempt>) {
      forall i :: 0 <= i < |attempts| ==> !attempts[i].Swallows()
    }

    /** Every upgrade above the stored version succeeds if it is run. */
    ghost predicate AllSucceed(attempts: seq<Attempt>, stored: nat)
      requires |attempts| == |versions|
    {
      forall i :: 0 <= i < |attempts| ==> versions[i] > stored ==> attempts[i].Succeeds()
    }

    /** The loop of on_live. */
    method UpgradeAll(attempts: seq<Attempt>) returns (ok: bool)
      requires Valid() && !upgraded && |attempts| == |versions|
      modifies this`recorded, this`applied, this`meddled, this`swallowed, db
      ensures Valid() && old(db.committed) <= db.committed && old(recorded) <= recorded && old(applied) <= applied
      ensures AllLeaveRows(attempts) ==> meddled == old(meddled)
      ensures NoneSwallow(attempts) ==> swallowed == old(swallowed)
      ensures ok && !meddled ==> Pending(versions, Stored(db.committed)) == []
      ensures AllSucceed(attempts, old(Stored(db.committed))) ==> ok
    {
      ghost var stored, committed, rows, upgrades := Stored(db.committed), db.committed, recorded, applied;
      var version := Stored(db.committed);
      var i := 0;
      while i < |versions|
        invariant 0 <= i <= |versions| && Valid() && version >= stored
        invariant committed <= db.committed && rows <= recorded && upgrades <= applied
        invariant !meddled ==> version == Stored(db.committed)
        invariant NoneAbove(i, version)
        invariant AllLeaveRows(attempts) ==> meddled == old(meddled)
        invariant NoneSwallow(attempts) ==> swallowed == old(swallowed)
      {
        if versions[i] > version {
          ghost var committed', rows', upgrades' := db.committed, recorded, applied;
          ok := Advance(i, attempts[i]);
          StillPrefix(committed, committed', db.committed);
          StillPrefix(rows, rows', recorded);
          StillPrefix(upgrades, upgrades', applied);
          if !ok {
            return;
          }
          version := versions[i];
        }
        i := i + 1;
      }
      PassOver(versions, |versions|, version);
      ok := true;
    }

    /** on_live, its upgrade part: "ready" is whether the connection opens and the version can be
        read, attempts[i] is how the i-th upgrade goes if it is run. */
    method OnLive(ready: bool, attempts: seq<Attempt>)
      requires Valid() && |attempts| == |versions|
      modifies this`upgraded, this`recorded, this`applied, this`meddled, this`swallowed, db
      ensures Valid() && old(db.committed) <= db.committed && old(recorded) <= recorded && old(applied) <= applied
      ensures AllLeaveRows(attempts) ==> meddled == old(meddled)
      ensures NoneSwallow(attempts) ==> swallowed == old(swallowed)
      ensures ready && AllSucceed(attempts, old(Stored(db.committed))) ==> upgraded
      ensures old(upgraded) ==> upgraded && applied == old(applied) && db.committed == old(db.committed)
    {
      if !ready || upgraded {
        return;
      }
      upgraded := UpgradeAll(attempts);
    }

    /** Exactly once: in every reachable state, unless a function has written version rows itself, the
        versions recorded are distinct, ascending, and exactly the registered ones above 0 and all
        version rows of the start that are not above all rows of now; once the state is set, no
        registered one is.  Unless a function has swallowed a failure, those are the upgrades
        applied, each of them whole. */
    lemma ExactlyOnce()
      requires Valid() && !meddled
      ensures Ascending(recorded)
      ensures forall v :: v in recorded <==> v in versions && Above(v, start) && !Above(v, db.committed)
      ensures upgraded ==> forall v :: v in versions ==> !Above(v, db.committed)
      ensures !swallowed ==> recorded == Versions(applied) && db.committed == start + Log(applied)
    {
      var first, last := Stored(start), Stored(db.committed);
      var all, later := Pending(versions, first), Pending(versions, last);
      PendingAscends(versions, first);
      assert forall i :: 0 <= i < |recorded| ==> recorded[i] == all[i];
      forall v | v in versions
        ensures upgraded ==> !Above(v, db.committed)
      {
        PendingMember(versions, last, v);
        AboveStored(db.committed, v);
      }
      forall v
        ensures v in recorded <==> v in versions && Above(v, start) && !Above(v, db.committed)
      {
        PendingMember(versions, first, v);
        PendingMember(versions, last, v);
        NotInBoth(recorded, later, v);
        AboveStored(start, v);
        AboveStored(db.committed, v);
      }
    }

    /** For instance, from a database without version rows: once the state is set, every registered
        version above 0 has been recorded, and nothing else. */
    lemma FromScratch()
      requires Valid() && !meddled && upgraded && forall v :: Version(v) !in start
      ensures Ascending(recorded) && forall v :: v in recorded <==> v in versions && v > 0
    {
      ExactlyOnce();
    }

    lemma NotInBoth(a: seq<nat>, b: seq<nat>, v: nat)
      requires Ascending(a + b)
      ensures v in a ==> v !in b
      ensures v in a + b <==> v in a || v in b
    {
      forall i, j | 0 <= i < |a| && 0 <= j < |b|
        ensures a[i] < b[j]
      {
        assert (a + b)[i] == a[i] && (a + b)[|a| + j] == b[j];
      }
    }
  }
}
