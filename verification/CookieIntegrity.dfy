/**
 What every interleaving keeps: session IDs stay unique, a drawn ID is nobody else's, and an
 answered cookie names exactly one row, which carries the ID of the user the request found active.
 */
module CookieIntegrity {
  import opened Wrappers
  import opened Identifiers
  import opened SessionTable
  import opened Interleaving
  import CookieSigning

  // ------------------------------------------------------------- the invariant

  ghost predicate TableOk(s: State) {
    && DistinctIds(s.rows)
    && Ids(s.rows) <= s.used
    && s.deleted <= s.used
    && Ids(s.rows) !! s.deleted
    && forall sid <- s.used :: SessionIdForm(sid)
  }

  /** The ID a request has drawn but not yet inserted. */
  ghost function Pending(q: Request): Option<string> {
    match q.pc
    case Building(sid, _) => Some(sid)
    case Timing(sid, _, _) => Some(sid)
    case Inserting(row) => Some(row.sessionId)
    case _ => None
  }

  ghost predicate Unborn(s: State, sid: string) {
    sid in s.used && sid !in Ids(s.rows) && sid !in s.deleted
  }

  ghost predicate PendingOk(s: State) {
    && (forall r <- s.reqs :: Pending(s.reqs[r]).Some? ==> Unborn(s, Pending(s.reqs[r]).value))
    && (forall r <- s.reqs, r' <- s.reqs ::
          r != r' && Pending(s.reqs[r]).Some? ==> Pending(s.reqs[r]) != Pending(s.reqs[r']))
  }

  /** The ID of the row a request works on or has answered with. */
  ghost function Target(q: Request): Option<string> {
    match q.pc
    case Rebuilding(sid) => Some(sid)
    case Stamping(sid, _) => Some(sid)
    case Updating(sid, _, _) => Some(sid)
    case Done(Plant(_)) => EffectId(q.effect)
    case _ => None
  }

  ghost function EffectId(effect: Change): Option<string> {
    match effect
    case NoChange => None
    case Added(row) => Some(row.sessionId)
    case Updated(sid, _, _) => Some(sid)
  }

  ghost predicate OwnedBy(rows: seq<Row>, sid: string, userId: string) {
    forall row <- rows :: row.sessionId == sid ==> row.userId == userId
  }

  ghost predicate CertifiedFor(rows: seq<Row>, sid: string, userId: string) {
    forall row <- rows :: row.sessionId == sid ==>
      row.userId == userId && row.data.userId == userId && row.data.verified
  }

  ghost predicate TargetOk(rows: seq<Row>, deleted: set<string>, q: Request) {
    Target(q).Some? ==>
      var sid := Target(q).value;
      && (sid in Ids(rows) || sid in deleted)
      && (if q.pc.Done? then CertifiedFor(rows, sid, q.userId) else OwnedBy(rows, sid, q.userId))
  }

  ghost predicate TargetsOk(s: State) {
    forall r <- s.reqs :: TargetOk(s.rows, s.deleted, s.reqs[r])
  }

  ghost predicate DataFor(data: SessionData, userId: string) {
    data.userId == userId && data.verified
  }

  /** What a request's own variables satisfy, whatever the table holds. */
  ghost predicate LocalOk(cfg: Config, clock: int, q: Request) {
    match q.pc
    case Stamping(_, data) => DataFor(data, q.userId)
    case Updating(_, data, _) => DataFor(data, q.userId)
    case Selecting => q.cutoff + cfg.Window() <= clock
    case Drawing => q.cutoff + cfg.Window() <= clock
    case Building(sid, _) => q.cutoff + cfg.Window() <= clock
    case Timing(sid, _, data) => q.cutoff + cfg.Window() <= clock && DataFor(data, q.userId)
    case Inserting(row) =>
      q.cutoff + cfg.Window() <= row.createdAt <= clock && row.userId == q.userId && DataFor(row.data, q.userId)
    case Done(Plant(cookie)) => EffectId(q.effect).Some? && cookie == cfg.Sign(EffectId(q.effect).value)
    case _ => true
  }

  ghost predicate LocalsOk(cfg: Config, s: State) {
    forall r <- s.reqs :: LocalOk(cfg, s.clock, s.reqs[r])
  }

  ghost predicate Integrity(cfg: Config, s: State) {
    TableOk(s) && PendingOk(s) && TargetsOk(s) && LocalsOk(cfg, s)
  }

  // ------------------------------------------------------------- the table under each change

  lemma AddedIds(rows: seq<Row>, row: Row)
    ensures Ids(rows + [row]) == Ids(rows) + {row.sessionId}
    ensures DistinctIds(rows) && row.sessionId !in Ids(rows) ==> DistinctIds(rows + [row])
  {
    var after := rows + [row];
    forall sid | sid in Ids(rows) + {row.sessionId} ensures sid in Ids(after) {
      if sid == row.sessionId {
        assert after[|rows|] in after;
      } else {
        var r :| r in rows && r.sessionId == sid;
        assert r in after;
      }
    }
    if DistinctIds(rows) && row.sessionId !in Ids(rows) {
      forall i, j | 0 <= i < j < |after| ensures after[i].sessionId != after[j].sessionId {
        assert rows[i] in rows;
      }
    }
  }

  lemma RemovedRows(rows: seq<Row>, i: nat)
    requires i < |rows|
    ensures var after := rows[..i] + rows[i + 1..];
            && (forall r <- after :: r in rows) && (forall j: nat :: j < |rows| && j != i ==> rows[j] in after)
            && (DistinctIds(rows) ==> DistinctIds(after) && forall r <- after :: r.sessionId != rows[i].sessionId)
  {
    var after := rows[..i] + rows[i + 1..];
    forall j: nat | j < |rows| && j != i ensures rows[j] in after {
      assert after[if j < i then j else j - 1] == rows[j];
    }
    forall r <- after ensures exists k: nat :: k < |rows| && k != i && rows[k] == r {
      var j :| 0 <= j < |after| && after[j] == r;
      assert rows[if j < i then j else j + 1] == r;
    }
  }

  lemma RemovedIds(rows: seq<Row>, i: nat)
    requires i < |rows| && DistinctIds(rows)
    ensures var after := rows[..i] + rows[i + 1..];
            Ids(after) == Ids(rows) - {rows[i].sessionId} && DistinctIds(after) && forall r <- after :: r in rows
  {
    hide DistinctIds;
    var after := rows[..i] + rows[i + 1..];
    RemovedRows(rows, i);
    forall sid | sid in Ids(rows) - {rows[i].sessionId} ensures sid in Ids(after) {
      var j :| 0 <= j < |rows| && rows[j].sessionId == sid;
      assert rows[j] in after;
    }
  }

  lemma TouchedIds(rows: seq<Row>, i: nat, row: Row)
    requires i < |rows| && row.sessionId == rows[i].sessionId
    ensures Ids(rows[i := row]) == Ids(rows)
    ensures DistinctIds(rows) ==> DistinctIds(rows[i := row])
  {
    var after := rows[i := row];
    forall sid | sid in Ids(rows) ensures sid in Ids(after) {
      var j :| 0 <= j < |rows| && rows[j].sessionId == sid;
      assert after[j] in after;
    }
    forall sid | sid in Ids(after) ensures sid in Ids(rows) {
      var j :| 0 <= j < |after| && after[j].sessionId == sid;
      assert rows[j] in rows;
    }
  }

  // ------------------------------------------------------------- what one step of a request does

  lemma AdvanceLocal(cfg: Config, s: State, q: Request, c: Choice)
    requires CanChoose(s, q, c) && LocalOk(cfg, s.clock, q)
    ensures LocalOk(cfg, s.clock, Advance(cfg, s, q, c).request)
  {
  }

  lemma AdvancePending(cfg: Config, s: State, q: Request, c: Choice)
    requires CanChoose(s, q, c)
    ensures var o := Advance(cfg, s, q, c);
            && (o.drawn != {} ==>
                  o.change.NoChange? &&
                  exists sid ::
                    o.drawn == {sid} && SessionIdForm(sid) && sid !in s.used && Pending(o.request) == Some(sid))
            && (o.drawn == {} ==> Pending(o.request).None? || (Pending(o.request) == Pending(q) && !o.change.Added?))
            && (o.change.Added? ==> Pending(q) == Some(o.change.row.sessionId) && q.pc == Inserting(o.change.row))
            && (o.change.Updated? ==> q.pc == Updating(o.change.sid, o.change.data, o.change.now))
  {
    if c.Draw? {
      SessionIdFormOfDraw(c.bytes);
    }
  }

  lemma AdvanceTarget(cfg: Config, s: State, q: Request, c: Choice)
    requires CanChoose(s, q, c) && Target(Advance(cfg, s, q, c).request).Some?
    ensures var o := Advance(cfg, s, q, c);
            && o.request.userId == q.userId
            && (o.request.pc.Done? <==> !o.change.NoChange?)
            && (o.change.NoChange? ==>
                  Target(o.request) == Target(q) ||
                  (c.Hit? && NewestMatch(s.rows, c.i, q.userId, q.cutoff) &&
                    Target(o.request) == Some(s.rows[c.i].sessionId)))
            && (o.change.Updated? ==> Target(o.request) == Some(o.change.sid))
            && (o.change.Added? ==> Target(o.request) == Some(o.change.row.sessionId))
  {
  }

  // ------------------------------------------------------------- preservation

  lemma TableStep(cfg: Config, s: State, a: Action)
    requires Integrity(cfg, s) && Enabled(s, a)
    ensures TableOk(Step(cfg, s, a))
  {
    hide Advance, CanChoose, SessionIdForm;
    match a {
      case GhostInsert(row) => AddedIds(s.rows, row);
      case GhostTouch(i, data, now) => TouchedIds(s.rows, i, s.rows[i].(data := data, updatedAt := now));
      case GhostDelete(i) =>
        RemovedIds(s.rows, i);
        assert s.rows[i] in s.rows;
      case Proceed(r, c) =>
        AdvancePending(cfg, s, s.reqs[r], c);
        ChangedIds(s.rows, Advance(cfg, s, s.reqs[r], c).change);
      case _ =>
    }
  }

  lemma ChangedIds(rows: seq<Row>, change: Change)
    ensures Ids(Changed(rows, change)) == Ids(rows) + (if change.Added? then {change.row.sessionId} else {})
    ensures DistinctIds(rows) && (change.Added? ==> change.row.sessionId !in Ids(rows)) ==>
      DistinctIds(Changed(rows, change))
  {
    match change {
      case NoChange =>
      case Added(row) => AddedIds(rows, row);
      case Updated(sid, data, now) => RefreshedIds(rows, sid, data, now);
    }
  }

  lemma LocalStep(cfg: Config, s: State, a: Action)
    requires Integrity(cfg, s) && Enabled(s, a)
    ensures LocalsOk(cfg, Step(cfg, s, a))
  {
    hide Advance, CanChoose, LocalOk;
    match a {
      case Tick(elapsed) =>
        forall r <- s.reqs ensures LocalOk(cfg, s.clock + elapsed, s.reqs[r]) {
          LocalLater(cfg, s.clock, elapsed, s.reqs[r]);
        }
      case Arrive(r, header, verdict) => ArrivingLocal(cfg, s.clock, header, verdict);
      case Proceed(r, c) => AdvanceLocal(cfg, s, s.reqs[r], c);
      case _ =>
    }
  }

  lemma LocalLater(cfg: Config, clock: int, elapsed: nat, q: Request)
    requires LocalOk(cfg, clock, q)
    ensures LocalOk(cfg, clock + elapsed, q)
  {
  }

  lemma ArrivingLocal(cfg: Config, clock: int, header: string, verdict: Verdict)
    ensures LocalOk(cfg, clock, Arriving(header, verdict))
    ensures Pending(Arriving(header, verdict)).None? && Target(Arriving(header, verdict)).None?
  {
  }

  lemma PendingStep(cfg: Config, s: State, a: Action)
    requires Integrity(cfg, s) && Enabled(s, a)
    ensures PendingOk(Step(cfg, s, a))
  {
    hide Advance, CanChoose, Pending, SessionIdForm, Arriving;
    match a {
      case GhostInsert(row) => AddedIds(s.rows, row);
      case GhostTouch(i, data, now) => TouchedIds(s.rows, i, s.rows[i].(data := data, updatedAt := now));
      case GhostDelete(i) =>
        RemovedIds(s.rows, i);
        assert s.rows[i] in s.rows;
      case Arrive(r, header, verdict) => ArrivingLocal(cfg, s.clock, header, verdict);
      case Proceed(r, c) =>
        AdvancePending(cfg, s, s.reqs[r], c);
        ChangedIds(s.rows, Advance(cfg, s, s.reqs[r], c).change);
      case _ =>
    }
  }

  lemma TargetUnderAdded(rows: seq<Row>, deleted: set<string>, row: Row, q: Request)
    requires TargetOk(rows, deleted, q) && row.sessionId !in Ids(rows) && row.sessionId !in deleted
    ensures TargetOk(rows + [row], deleted, q)
  {
    AddedIds(rows, row);
  }

  lemma TargetUnderRemoved(rows: seq<Row>, deleted: set<string>, i: nat, q: Request)
    requires i < |rows| && DistinctIds(rows) && TargetOk(rows, deleted, q)
    ensures TargetOk(rows[..i] + rows[i + 1..], deleted + {rows[i].sessionId}, q)
  {
    RemovedIds(rows, i);
  }

  lemma TargetUnderTouched(rows: seq<Row>, deleted: set<string>, i: nat, data: SessionData, now: int, q: Request)
    requires i < |rows| && TargetOk(rows, deleted, q)
    requires data.userId == rows[i].data.userId && (rows[i].data.verified ==> data.verified)
    ensures TargetOk(rows[i := rows[i].(data := data, updatedAt := now)], deleted, q)
  {
    var row := rows[i].(data := data, updatedAt := now);
    TouchedIds(rows, i, row);
    forall r <- rows[i := row] ensures r in rows || (r == row && rows[i] in rows) {
    }
  }

  /** Two requests working on one row work for one user, so that either refresh serves both. */
  lemma TargetUnderUpdated(rows: seq<Row>, deleted: set<string>, sid: string, data: SessionData, now: int,
                           userId: string, q: Request)
    requires TargetOk(rows, deleted, q) && OwnedBy(rows, sid, userId) && DataFor(data, userId)
    ensures TargetOk(Refreshed(rows, sid, data, now), deleted, q)
  {
    RefreshedIds(rows, sid, data, now);
    forall r <- Refreshed(rows, sid, data, now)
      ensures exists before <- rows :: r == RefreshedRow(before, sid, data, now)
    {
      var i :| 0 <= i < |rows| && Refreshed(rows, sid, data, now)[i] == r;
      assert rows[i] in rows;
    }
  }

  lemma TargetUnderChange(cfg: Config, s: State, r: ReqId, c: Choice, r': ReqId)
    requires Integrity(cfg, s) && Enabled(s, Proceed(r, c)) && r' in s.reqs
    ensures var change := Advance(cfg, s, s.reqs[r], c).change;
            TargetOk(Changed(s.rows, change), s.deleted, s.reqs[r'])
  {
    hide Advance, CanChoose, TargetOk;
    AdvancePending(cfg, s, s.reqs[r], c);
    var q := s.reqs[r];
    match Advance(cfg, s, q, c).change {
      case NoChange =>
      case Added(row) => TargetUnderAdded(s.rows, s.deleted, row, s.reqs[r']);
      case Updated(sid, data, now) =>
        UpdaterOwns(s, q);
        TargetUnderUpdated(s.rows, s.deleted, sid, data, now, q.userId, s.reqs[r']);
    }
  }

  lemma UpdaterOwns(s: State, q: Request)
    requires q.pc.Updating? && TargetOk(s.rows, s.deleted, q)
    ensures OwnedBy(s.rows, q.pc.sid, q.userId)
  {
  }

  /** The request's own target after its step. */
  lemma OwnTarget(cfg: Config, s: State, r: ReqId, c: Choice)
    requires Integrity(cfg, s) && Enabled(s, Proceed(r, c))
    ensures var o := Advance(cfg, s, s.reqs[r], c);
            TargetOk(Changed(s.rows, o.change), s.deleted, o.request)
  {
    hide Advance, CanChoose;
    var q := s.reqs[r];
    var o := Advance(cfg, s, q, c);
    if Target(o.request).Some? {
      AdvanceTarget(cfg, s, q, c);
      AdvancePending(cfg, s, q, c);
      match o.change {
        case NoChange =>
          if c.Hit? && NewestMatch(s.rows, c.i, q.userId, q.cutoff) {
            OwnedByFinder(s, c.i);
          }
        case Added(row) => AddedIds(s.rows, row);
        case Updated(sid, data, now) =>
          UpdaterOwns(s, q);
          RefreshedCertifies(s.rows, sid, data, now, q.userId);
          RefreshedIds(s.rows, sid, data, now);
      }
    }
  }

  lemma OwnedByFinder(s: State, i: nat)
    requires i < |s.rows| && DistinctIds(s.rows)
    ensures s.rows[i].sessionId in Ids(s.rows) && OwnedBy(s.rows, s.rows[i].sessionId, s.rows[i].userId)
  {
    assert s.rows[i] in s.rows;
  }

  lemma RefreshedCertifies(rows: seq<Row>, sid: string, data: SessionData, now: int, userId: string)
    requires OwnedBy(rows, sid, userId) && DataFor(data, userId)
    ensures CertifiedFor(Refreshed(rows, sid, data, now), sid, userId)
  {
    forall r <- Refreshed(rows, sid, data, now) | r.sessionId == sid
      ensures r.userId == userId && r.data == data
    {
      var i :| 0 <= i < |rows| && Refreshed(rows, sid, data, now)[i] == r;
      assert rows[i] in rows;
    }
  }

  lemma TargetStep(cfg: Config, s: State, a: Action)
    requires Integrity(cfg, s) && Enabled(s, a)
    ensures TargetsOk(Step(cfg, s, a))
  {
    hide Advance, CanChoose, TargetOk, Arriving, SessionIdForm;
    match a {
      case GhostInsert(row) =>
        forall r <- s.reqs { TargetUnderAdded(s.rows, s.deleted, row, s.reqs[r]); }
      case GhostTouch(i, data, now) =>
        forall r <- s.reqs { TargetUnderTouched(s.rows, s.deleted, i, data, now, s.reqs[r]); }
      case GhostDelete(i) =>
        forall r <- s.reqs { TargetUnderRemoved(s.rows, s.deleted, i, s.reqs[r]); }
      case Arrive(r, header, verdict) =>
        ArrivingLocal(cfg, s.clock, header, verdict);
        NoTarget(s.rows, s.deleted, Arriving(header, verdict));
      case Proceed(r, c) =>
        OwnTarget(cfg, s, r, c);
        forall r' <- s.reqs { TargetUnderChange(cfg, s, r, c, r'); }
      case _ =>
    }
  }

  lemma NoTarget(rows: seq<Row>, deleted: set<string>, q: Request)
    requires Target(q).None?
    ensures TargetOk(rows, deleted, q)
  {
  }

  // ------------------------------------------------------------- whole runs

  lemma IntegrityStep(cfg: Config, s: State, a: Action)
    requires Integrity(cfg, s) && Enabled(s, a)
    ensures Integrity(cfg, Step(cfg, s, a))
  {
    hide Step, Enabled, TableOk, PendingOk, TargetsOk, LocalsOk;
    TableStep(cfg, s, a);
    PendingStep(cfg, s, a);
    TargetStep(cfg, s, a);
    LocalStep(cfg, s, a);
  }

  lemma {:induction false} IntegrityAlways(cfg: Config, s: State, run: seq<Action>)
    requires Integrity(cfg, s) && ValidRun(cfg, s, run)
    ensures Integrity(cfg, After(cfg, s, run))
    decreases |run|
  {
    hide Integrity, Step, Enabled;
    if run != [] {
      IntegrityStep(cfg, s, run[0]);
      IntegrityAlways(cfg, Step(cfg, s, run[0]), run[1..]);
    }
  }

  ghost predicate NamesOneRow(rows: seq<Row>, sid: string, i: nat) {
    i < |rows| && rows[i].sessionId == sid && forall j :: 0 <= j < |rows| && rows[j].sessionId == sid ==> j == i
  }

  /**
   The cookie verifies, under the configured secret, for an ID that names exactly one row if Ghost has not deleted it,
     and none if it has; the
   row's column and its JSON both carry `userId`, and the session is verified.
   */
  ghost predicate CookieIsGood(cfg: Config, s: State, cookie: string, userId: string) {
    exists sid :: CookieSigning.Unsign(cookie, cfg.secret, cfg.mac) == Some(sid) && SessionIdForm(sid) &&
      if sid in s.deleted then sid !in Ids(s.rows)
      else exists i: nat :: NamesOneRow(s.rows, sid, i) && CertifiedFor([s.rows[i]], sid, userId)
  }

  predicate Answered(s: State, r: ReqId, cookie: string) {
    r in s.reqs && s.reqs[r].pc == Done(Plant(cookie))
  }

  /** In every reachable state, every cookie answered so far is good for the user its request found. */
  lemma AnsweredCookiesAreGood(cfg: Config, s0: State, run: seq<Action>, r: ReqId, cookie: string)
    requires Init(s0) && ValidRun(cfg, s0, run)
    requires Answered(After(cfg, s0, run), r, cookie)
    ensures var s := After(cfg, s0, run); CookieIsGood(cfg, s, cookie, s.reqs[r].userId)
  {
    InitHolds(cfg, s0);
    IntegrityAlways(cfg, s0, run);
    GoodByIntegrity(cfg, After(cfg, s0, run), r, cookie);
  }

  lemma InitHolds(cfg: Config, s0: State)
    requires Init(s0)
    ensures Integrity(cfg, s0)
  {
  }

  lemma GoodByIntegrity(cfg: Config, s: State, r: ReqId, cookie: string)
    requires Integrity(cfg, s) && Answered(s, r, cookie)
    ensures CookieIsGood(cfg, s, cookie, s.reqs[r].userId)
  {
    hide SessionIdForm;
    var q := s.reqs[r];
    assert LocalOk(cfg, s.clock, q) && TargetOk(s.rows, s.deleted, q);
    var sid := EffectId(q.effect).value;
    SignVerifies(cfg, cookie, sid);
    assert Target(q) == Some(sid);
    if sid in Ids(s.rows) {
      var i :| 0 <= i < |s.rows| && s.rows[i].sessionId == sid;
      assert s.rows[i] in s.rows;
      assert NamesOneRow(s.rows, sid, i);
    }
  }
}
