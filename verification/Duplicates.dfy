/**
 How many rows the proxy can insert for one user within one session lifetime: as many as there were
 requests about to insert for that user when the first of those rows was inserted.
 */
module Duplicates {
  import opened SessionTable
  import opened Interleaving
  import opened CookieIntegrity

  // ------------------------------------------------------------- the invariant

  ghost predicate InTable(rows: seq<Row>, row: Row) {
    exists r <- rows :: r.sessionId == row.sessionId && r.userId == row.userId && r.createdAt == row.createdAt
  }

  ghost predicate EntryOk(s: State, e: Insertion) {
    && e.req in s.reqs && s.reqs[e.req].pc.Done? && e.req in e.rivals
    && (e.row.sessionId in s.deleted || InTable(s.rows, e.row))
  }

  ghost predicate LogOk(s: State) {
    && (forall e <- s.log :: EntryOk(s, e))
    && (forall k, m :: 0 <= k < m < |s.log| ==> s.log[k].req != s.log[m].req)
  }

  ghost predicate Live(s: State, e: Insertion) {
    e.row.sessionId !in s.deleted
  }

  /** A request past its SELECT was in flight at this INSERT, or looked when the row had left the window. */
  ghost predicate Excluded(s: State, e: Insertion, r: ReqId, q: Request) {
    AboutToInsert(q) && q.userId == e.row.userId && Live(s, e) ==>
      r in e.rivals || e.row.createdAt < q.cutoff
  }

  ghost predicate MissesOk(s: State) {
    forall e <- s.log, r <- s.reqs :: Excluded(s, e, r, s.reqs[r])
  }

  /** A later row within one window of an earlier one came from a request that was then in flight. */
  ghost predicate Paired(cfg: Config, s: State, e: Insertion, later: Insertion) {
    later.row.userId == e.row.userId && Live(s, e) && later.row.createdAt <= e.row.createdAt + cfg.Window() ==>
      later.req in e.rivals
  }

  ghost predicate PairsOk(cfg: Config, s: State) {
    forall k, m :: 0 <= k < m < |s.log| ==> Paired(cfg, s, s.log[k], s.log[m])
  }

  ghost predicate WindowInv(cfg: Config, s: State) {
    Integrity(cfg, s) && LogOk(s) && MissesOk(s) && PairsOk(cfg, s)
  }

  // ------------------------------------------------------------- preservation

  lemma ChangedKeeps(rows: seq<Row>, change: Change, row: Row)
    requires InTable(rows, row)
    ensures InTable(Changed(rows, change), row)
  {
    var i :| 0 <= i < |rows| && rows[i].sessionId == row.sessionId && rows[i].userId == row.userId &&
      rows[i].createdAt == row.createdAt;
    assert Changed(rows, change)[i] in Changed(rows, change);
  }

  lemma RemovedKeeps(rows: seq<Row>, i: nat, row: Row)
    requires i < |rows| && InTable(rows, row) && rows[i].sessionId != row.sessionId
    ensures InTable(rows[..i] + rows[i + 1..], row)
  {
    var j :| 0 <= j < |rows| && rows[j].sessionId == row.sessionId && rows[j].userId == row.userId &&
      rows[j].createdAt == row.createdAt;
    var after := rows[..i] + rows[i + 1..];
    assert after[if j < i then j else j - 1] in after;
  }

  lemma TouchedKeeps(rows: seq<Row>, i: nat, data: SessionData, now: int, row: Row)
    requires i < |rows| && InTable(rows, row)
    ensures InTable(rows[i := rows[i].(data := data, updatedAt := now)], row)
  {
    var j :| 0 <= j < |rows| && rows[j].sessionId == row.sessionId && rows[j].userId == row.userId &&
      rows[j].createdAt == row.createdAt;
    var after := rows[i := rows[i].(data := data, updatedAt := now)];
    assert after[j] in after;
  }

  lemma EntryStep(cfg: Config, s: State, a: Action, e: Insertion)
    requires Integrity(cfg, s) && Enabled(s, a) && EntryOk(s, e)
    ensures EntryOk(Step(cfg, s, a), e)
  {
    hide Advance, Changed, InTable, Arriving;
    match a {
      case GhostInsert(row) =>
        if InTable(s.rows, e.row) {
          ChangedKeeps(s.rows, Added(row), e.row);
          AddedIs(s.rows, row);
        }
      case GhostTouch(i, data, now) => if InTable(s.rows, e.row) { TouchedKeeps(s.rows, i, data, now, e.row); }
      case GhostDelete(i) =>
        if InTable(s.rows, e.row) && s.rows[i].sessionId != e.row.sessionId { RemovedKeeps(s.rows, i, e.row); }
      case Proceed(r, c) =>
        if InTable(s.rows, e.row) { ChangedKeeps(s.rows, Advance(cfg, s, s.reqs[r], c).change, e.row); }
      case _ =>
    }
  }

  lemma AddedIs(rows: seq<Row>, row: Row)
    ensures Changed(rows, Added(row)) == rows + [row]
  {
  }

  lemma AdvanceInserts(cfg: Config, s: State, q: Request, c: Choice)
    requires CanChoose(s, q, c) && LocalOk(cfg, s.clock, q)
    ensures var o := Advance(cfg, s, q, c);
            && (o.change.Added? ==>
                  q.pc == Inserting(o.change.row) && o.request.pc.Done? &&
                  o.request.userId == q.userId == o.change.row.userId &&
                    q.cutoff + cfg.Window() <= o.change.row.createdAt)
            && (AboutToInsert(o.request) ==>
                  o.request.userId == q.userId && o.request.cutoff == q.cutoff &&
                  (AboutToInsert(q) || (q.pc.Selecting? && NoMatch(s.rows, q.userId, q.cutoff))))
  {
  }

  /** The entry that this step appends to the log, if any. */
  ghost function NewEntries(cfg: Config, s: State, a: Action): seq<Insertion>
    requires Enabled(s, a)
  {
    if !a.Proceed? then []
    else
      var o := Advance(cfg, s, s.reqs[a.r], a.choice);
      if o.change.Added? then [Insertion(a.r, o.change.row, Rivals(s, o.request.userId))] else []
  }

  lemma StepLog(cfg: Config, s: State, a: Action)
    requires Enabled(s, a)
    ensures Step(cfg, s, a).log == s.log + NewEntries(cfg, s, a)
  {
    hide Advance;
  }

  lemma NewEntryOk(cfg: Config, s: State, r: ReqId, c: Choice)
    requires Integrity(cfg, s) && Enabled(s, Proceed(r, c))
    ensures forall e <- NewEntries(cfg, s, Proceed(r, c)) ::
              EntryOk(Step(cfg, s, Proceed(r, c)), e) && e.req == r && s.reqs[r].pc == Inserting(e.row)
              && e.rivals == Rivals(s, e.row.userId) && s.reqs[r].userId == e.row.userId
              && s.reqs[r].cutoff + cfg.Window() <= e.row.createdAt
  {
    hide Advance, CanChoose;
    var q := s.reqs[r];
    assert LocalOk(cfg, s.clock, q);
    AdvanceInserts(cfg, s, q, c);
    var o := Advance(cfg, s, q, c);
    if o.change.Added? {
      var row := o.change.row;
      assert (s.rows + [row])[|s.rows|] == row;
    }
  }

  lemma LogStep(cfg: Config, s: State, a: Action)
    requires WindowInv(cfg, s) && Enabled(s, a)
    ensures LogOk(Step(cfg, s, a))
  {
    hide Step, Enabled, EntryOk, NewEntries, Integrity, MissesOk, PairsOk;
    StepLog(cfg, s, a);
    forall e <- s.log { EntryStep(cfg, s, a, e); }
    NewEntriesFit(cfg, s, a);
  }

  lemma NewEntriesFit(cfg: Config, s: State, a: Action)
    requires WindowInv(cfg, s) && Enabled(s, a)
    ensures var new' := NewEntries(cfg, s, a);
            && |new'| <= 1
            && forall e <- new' :: EntryOk(Step(cfg, s, a), e) && forall old' <- s.log :: old'.req != e.req
  {
    hide Advance, Step;
    if a.Proceed? {
      NewEntryOk(cfg, s, a.r, a.choice);
      forall e <- NewEntries(cfg, s, a), old' <- s.log ensures old'.req != e.req {
        assert EntryOk(s, old');
      }
    }
  }

  /** The SELECT of a request that finds nothing would have found every live row still in the window. */
  lemma MissExcludes(s: State, e: Insertion, q: Request)
    requires EntryOk(s, e) && Live(s, e) && NoMatch(s.rows, q.userId, q.cutoff) && q.userId == e.row.userId
    ensures e.row.createdAt < q.cutoff
  {
  }

  lemma ExcludedStep(cfg: Config, s: State, a: Action, e: Insertion, r: ReqId)
    requires WindowInv(cfg, s) && Enabled(s, a) && e in s.log + NewEntries(cfg, s, a) && r in Step(cfg, s, a).reqs
    ensures Excluded(Step(cfg, s, a), e, r, Step(cfg, s, a).reqs[r])
  {
    hide Advance, CanChoose, Changed, EntryOk;
    var s' := Step(cfg, s, a);
    if AboutToInsert(s'.reqs[r]) && s'.reqs[r].userId == e.row.userId && Live(s', e) {
      ArrivingLocalMiss(a);
      assert r in s.reqs;
      var q := s.reqs[r];
      assert LocalOk(cfg, s.clock, q);
      if a.Proceed? && a.r == r {
        AdvanceInserts(cfg, s, q, a.choice);
      }
      if e in s.log {
        assert Excluded(s, e, r, q) && EntryOk(s, e);
        if !AboutToInsert(q) {
          MissExcludes(s, e, q);
        }
      } else {
        NewEntryOk(cfg, s, a.r, a.choice);
      }
    }
  }

  lemma ArrivingLocalMiss(a: Action)
    ensures a.Arrive? ==> !AboutToInsert(Arriving(a.header, a.verdict))
  {
  }

  lemma MissesStep(cfg: Config, s: State, a: Action)
    requires WindowInv(cfg, s) && Enabled(s, a)
    ensures MissesOk(Step(cfg, s, a))
  {
    hide Step, Enabled, Excluded, NewEntries, WindowInv;
    StepLog(cfg, s, a);
    forall e <- Step(cfg, s, a).log, r <- Step(cfg, s, a).reqs { ExcludedStep(cfg, s, a, e, r); }
  }

  lemma PairsStep(cfg: Config, s: State, a: Action)
    requires WindowInv(cfg, s) && Enabled(s, a)
    ensures PairsOk(cfg, Step(cfg, s, a))
  {
    hide Advance, CanChoose, NewEntries, Changed, EntryOk, Integrity, LogOk;
    var s' := Step(cfg, s, a);
    StepLog(cfg, s, a);
    StepDeletes(cfg, s, a);
    NewEntriesFit(cfg, s, a);
    forall k, m | 0 <= k < m < |s'.log| ensures Paired(cfg, s', s'.log[k], s'.log[m]) {
      if m < |s.log| {
        assert Paired(cfg, s, s.log[k], s.log[m]);
      } else {
        NewPair(cfg, s, a, s.log[k]);
      }
    }
  }

  lemma StepDeletes(cfg: Config, s: State, a: Action)
    requires Enabled(s, a)
    ensures s.deleted <= Step(cfg, s, a).deleted
  {
    hide Advance;
  }

  lemma NewPair(cfg: Config, s: State, a: Action, e: Insertion)
    requires WindowInv(cfg, s) && Enabled(s, a) && e in s.log
    ensures forall later <- NewEntries(cfg, s, a) :: Paired(cfg, Step(cfg, s, a), e, later)
  {
    hide Advance, CanChoose, Changed, EntryOk;
    StepDeletes(cfg, s, a);
    if a.Proceed? {
      NewEntryOk(cfg, s, a.r, a.choice);
      assert Excluded(s, e, a.r, s.reqs[a.r]);
    }
  }

  lemma {:induction false} WindowAlways(cfg: Config, s: State, run: seq<Action>)
    requires WindowInv(cfg, s) && ValidRun(cfg, s, run)
    ensures WindowInv(cfg, After(cfg, s, run))
    decreases |run|
  {
    hide WindowInv, Step, Enabled;
    if run != [] {
      WindowStep(cfg, s, run[0]);
      WindowAlways(cfg, Step(cfg, s, run[0]), run[1..]);
    }
  }

  lemma WindowStep(cfg: Config, s: State, a: Action)
    requires WindowInv(cfg, s) && Enabled(s, a)
    ensures WindowInv(cfg, Step(cfg, s, a))
  {
    hide Step, Enabled, Integrity, LogOk, MissesOk, PairsOk;
    IntegrityStep(cfg, s, a);
    LogStep(cfg, s, a);
    MissesStep(cfg, s, a);
    PairsStep(cfg, s, a);
  }

  // ------------------------------------------------------------- counting

  /** The INSERTs for `userId` whose creation times lie in the window from `start` and whose rows still exist. */
  ghost function InWindow(cfg: Config, s: State, userId: string, start: int): set<nat> {
    set k: nat | k < |s.log| && Live(s, s.log[k]) && s.log[k].row.userId == userId
                 && start <= s.log[k].row.createdAt <= start + cfg.Window()
  }

  /** Take any window of one lifetime: it holds at most as many rows as there were rivals at the first. */
  lemma WindowBound(cfg: Config, s0: State, run: seq<Action>, userId: string, start: int, first: nat)
    requires Init(s0) && ValidRun(cfg, s0, run)
    requires var s := After(cfg, s0, run);
             first in InWindow(cfg, s, userId, start) && forall k <- InWindow(cfg, s, userId, start) :: first <= k
    ensures var s := After(cfg, s0, run);
            |InWindow(cfg, s, userId, start)| <= |s.log[first].rivals|
  {
    InitHolds(cfg, s0);
    WindowAlways(cfg, s0, run);
    var s := After(cfg, s0, run);
    var inWindow := InWindow(cfg, s, userId, start);
    forall k <- inWindow ensures s.log[k].req in s.log[first].rivals {
      assert EntryOk(s, s.log[first]);
      if first < k {
        assert Paired(cfg, s, s.log[first], s.log[k]);
      }
    }
    CountByRequest(s, inWindow, s.log[first].rivals);
  }

  lemma {:induction false} CountByRequest(s: State, ks: set<nat>, rivals: set<ReqId>)
    requires LogOk(s) && forall k <- ks :: k < |s.log| && s.log[k].req in rivals
    ensures |ks| <= |rivals|
    decreases |ks|
  {
    if ks != {} {
      var k :| k in ks;
      var rest := ks - {k};
      forall m <- rest ensures s.log[m].req in rivals - {s.log[k].req} {
        assert m < k || k < m;
      }
      CountByRequest(s, rest, rivals - {s.log[k].req});
    }
  }

  /** The rows of the table that an INSERT of the proxy put there, for `userId` and in the window from `start`. */
  ghost function RowsInWindow(cfg: Config, s: State, userId: string, start: int): set<nat> {
    set i: nat | i < |s.rows| && ByProxy(s, s.rows[i].sessionId) && s.rows[i].userId == userId
                 && start <= s.rows[i].createdAt <= start + cfg.Window()
  }

  ghost predicate ByProxy(s: State, sid: string) {
    exists k: nat :: k < |s.log| && s.log[k].row.sessionId == sid
  }

  /** The same bound for the rows that are in the table: there were as many rivals at the first of their INSERTs. */
  lemma TableBound(cfg: Config, s0: State, run: seq<Action>, userId: string, start: int) returns (first: nat)
    requires Init(s0) && ValidRun(cfg, s0, run)
    requires RowsInWindow(cfg, After(cfg, s0, run), userId, start) != {}
    ensures var s := After(cfg, s0, run);
            && first in InWindow(cfg, s, userId, start) && (forall k <- InWindow(cfg, s, userId, start) :: first <= k)
            && |RowsInWindow(cfg, s, userId, start)| <= |s.log[first].rivals|
  {
    hide ValidRun, After, WindowInv, Init;
    InitHolds(cfg, s0);
    NothingLoggedYet(cfg, s0);
    WindowAlways(cfg, s0, run);
    var s := After(cfg, s0, run);
    var rows, logged := RowsInWindow(cfg, s, userId, start), InWindow(cfg, s, userId, start);
    var entry: map<nat, nat> := map i | i in rows :: EntryOf(s, i);
    forall i <- rows ensures entry[i] in logged {
      LoggedRow(cfg, s, i, EntryOf(s, i));
    }
    forall i <- rows, j <- rows | i != j ensures entry[i] != entry[j] {
      RowsDiffer(cfg, s, i, j);
    }
    NoMoreThan(rows, entry, logged);
    var i :| i in rows;
    first := Least(logged, entry[i]);
    WindowBound(cfg, s0, run, userId, start, first);
  }

  lemma NothingLoggedYet(cfg: Config, s0: State)
    requires Init(s0)
    ensures WindowInv(cfg, s0)
  {
    InitHolds(cfg, s0);
  }

  ghost function EntryOf(s: State, i: nat): (k: nat)
    requires i < |s.rows| && ByProxy(s, s.rows[i].sessionId)
    ensures k < |s.log| && s.log[k].row.sessionId == s.rows[i].sessionId
  {
    var k: nat :| k < |s.log| && s.log[k].row.sessionId == s.rows[i].sessionId;
    k
  }

  lemma LoggedRow(cfg: Config, s: State, i: nat, k: nat)
    requires WindowInv(cfg, s) && i < |s.rows| && k < |s.log| && s.log[k].row.sessionId == s.rows[i].sessionId
    ensures Live(s, s.log[k]) && s.log[k].row.userId == s.rows[i].userId &&
      s.log[k].row.createdAt == s.rows[i].createdAt
  {
    assert s.rows[i].sessionId in Ids(s.rows) by {
      assert s.rows[i] in s.rows;
    }
    assert EntryOk(s, s.log[k]);
    var j :| 0 <= j < |s.rows| && s.rows[j].sessionId == s.log[k].row.sessionId
             && s.rows[j].userId == s.log[k].row.userId && s.rows[j].createdAt == s.log[k].row.createdAt;
    assert i == j;
  }

  lemma RowsDiffer(cfg: Config, s: State, i: nat, j: nat)
    requires WindowInv(cfg, s) && i < |s.rows| && j < |s.rows| && i != j
    ensures s.rows[i].sessionId != s.rows[j].sessionId
  {
  }

  /** A set that maps into another without collisions is no larger. */
  lemma {:induction false} NoMoreThan(a: set<nat>, f: map<nat, nat>, b: set<nat>)
    requires forall x <- a :: x in f && f[x] in b
    requires forall x <- a, y <- a :: x != y ==> f[x] != f[y]
    ensures |a| <= |b|
  {
    if a != {} {
      var x :| x in a;
      NoMoreThan(a - {x}, f, b - {f[x]});
    }
  }

  lemma {:induction false} Least(ks: set<nat>, k: nat) returns (least: nat)
    requires k in ks
    ensures least in ks && forall m <- ks :: least <= m
    decreases k
  {
    if m: nat :| m in ks && m < k {
      least := Least(ks, m);
    } else {
      least := k;
    }
  }

  /**
   Of two rows for one user, when the request of the second was not about to insert at the INSERT of the
   first, the second was created more than one lifetime after the first, as long as the first exists.
   */
  lemma NonOverlappingRowsAreFarApart(cfg: Config, s0: State, run: seq<Action>, k: nat, m: nat)
    requires Init(s0) && ValidRun(cfg, s0, run)
    requires var s := After(cfg, s0, run);
             k < m < |s.log| && s.log[k].row.userId == s.log[m].row.userId && Live(s, s.log[k])
             && s.log[m].req !in s.log[k].rivals
    ensures var s := After(cfg, s0, run);
            s.log[m].row.createdAt > s.log[k].row.createdAt + cfg.Window()
  {
    InitHolds(cfg, s0);
    WindowAlways(cfg, s0, run);
    var s := After(cfg, s0, run);
    assert Paired(cfg, s, s.log[k], s.log[m]);
  }
}
