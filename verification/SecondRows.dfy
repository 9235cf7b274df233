/**
 Whether an INSERT can be followed by a second row for its user: that depends on the requests that are
 about to insert at that moment, and on nothing else.
 */
module SecondRows {
  import opened Wrappers
  import opened Base64
  import opened SessionTable
  import opened Interleaving
  import opened CookieIntegrity
  import opened Histories
  import opened Duplicates
  import opened DuplicatesTight

  // ------------------------------------------------------------- a request that is about to insert can do so

  /** The creation time of the row the request can insert: stamped already, or now. */
  ghost function Stamp(s: State, r: ReqId): int
    requires r in s.reqs
  {
    if s.reqs[r].pc.Inserting? then s.reqs[r].pc.row.createdAt else s.clock
  }

  /** One more entry in the log, by `r`, for its user, with that time. */
  ghost predicate Logs(s: State, t: State, r: ReqId)
    requires r in s.reqs
  {
    && t.deleted == s.deleted && |t.log| == |s.log| + 1 && s.log <= t.log
    && var e := t.log[|s.log|];
       e.req == r && e.row.userId == s.reqs[r].userId && e.row.createdAt == Stamp(s, r)
  }

  predicate Fresh(s: State, bytes: seq<Byte>) {
    |bytes| == 24 && Encode(UrlSafe, bytes) !in s.used
  }

  function StepsLeft(pc: Pc): nat {
    match pc
    case Drawing => 3
    case Building(_, _) => 2
    case Timing(_, _, _) => 1
    case _ => 0
  }

  /** The next step of a request on its way to the INSERT. */
  lemma NextStep(cfg: Config, s: State, r: ReqId, bytes: seq<Byte>) returns (a: Action)
    requires Integrity(cfg, s) && r in s.reqs && AboutToInsert(s.reqs[r]) && !s.reqs[r].pc.Inserting?
    requires s.reqs[r].pc.Drawing? ==> Fresh(s, bytes)
    ensures Enabled(s, a) && Integrity(cfg, Step(cfg, s, a))
    ensures var t := Step(cfg, s, a);
            && t.deleted == s.deleted && t.log == s.log && t.clock == s.clock && r in t.reqs
            && t.reqs[r].userId == s.reqs[r].userId && AboutToInsert(t.reqs[r])
            && StepsLeft(t.reqs[r].pc) == StepsLeft(s.reqs[r].pc) - 1 && !t.reqs[r].pc.Drawing? &&
              Stamp(t, r) == s.clock
  {
    hide Integrity, Enabled, Step;
    match s.reqs[r].pc {
      case Drawing =>
        a := Proceed(r, Draw(bytes, seq(8, _ => 0)));
        var oid := DrawStep(cfg, s, r, bytes);
      case Building(_, _) =>
        a := Proceed(r, Go);
        var data := BuildStep(cfg, s, r);
      case _ =>
        a := Proceed(r, Go);
        var row := TimeStep(cfg, s, r);
    }
    IntegrityStep(cfg, s, a);
  }

  lemma InsertLogs(cfg: Config, s: State, r: ReqId)
    requires Integrity(cfg, s) && r in s.reqs && s.reqs[r].pc.Inserting?
    ensures Enabled(s, Proceed(r, Go)) && Logs(s, Step(cfg, s, Proceed(r, Go)), r)
  {
    hide Step, Enabled;
    assert LocalOk(cfg, s.clock, s.reqs[r]);
    InsertStep(cfg, s, r);
  }

  lemma {:induction false} GoesOn(cfg: Config, s: State, r: ReqId, bytes: seq<Byte>) returns (run: seq<Action>)
    requires Integrity(cfg, s) && r in s.reqs && AboutToInsert(s.reqs[r])
    requires s.reqs[r].pc.Drawing? ==> Fresh(s, bytes)
    ensures ValidRun(cfg, s, run) && Logs(s, After(cfg, s, run), r)
    decreases StepsLeft(s.reqs[r].pc)
  {
    hide Integrity, Enabled, Step, Fresh;
    if s.reqs[r].pc.Inserting? {
      InsertLogs(cfg, s, r);
      run := [Proceed(r, Go)];
      assert run[1..] == [];
      assert ValidRun(cfg, Step(cfg, s, run[0]), run[1..]);
    } else {
      var a := NextStep(cfg, s, r, bytes);
      var rest := GoesOn(cfg, Step(cfg, s, a), r, bytes);
      run := [a] + rest;
      assert run[1..] == rest;
    }
  }

  // ------------------------------------------------------------- what the log keeps

  lemma {:induction false} LogGrows(cfg: Config, s: State, run: seq<Action>)
    requires ValidRun(cfg, s, run)
    ensures s.log <= After(cfg, s, run).log
    decreases |run|
  {
    hide Step, Enabled, NewEntries;
    if run != [] {
      StepLog(cfg, s, run[0]);
      LogGrows(cfg, Step(cfg, s, run[0]), run[1..]);
    }
  }

  /** A request that is stamped inserts the row it holds, or none. */
  ghost predicate Bound(s: State, r: ReqId, row: Row) {
    && r in s.reqs && (s.reqs[r].pc == Inserting(row) || s.reqs[r].pc.Done?)
    && forall e <- s.log :: e.req == r ==> e.row == row
  }

  lemma BoundStep(cfg: Config, s: State, a: Action, r: ReqId, row: Row)
    requires Integrity(cfg, s) && Enabled(s, a) && Bound(s, r, row)
    ensures Bound(Step(cfg, s, a), r, row)
  {
    hide Integrity, Advance, CanChoose, NewEntries, EntryOk;
    StepLog(cfg, s, a);
    if a.Proceed? {
      NewEntryOk(cfg, s, a.r, a.choice);
      EndsRequest(cfg, s, s.reqs[a.r], a.choice);
    } else {
      assert NewEntries(cfg, s, a) == [] by {
        NothingLogged(cfg, s, a);
      }
    }
  }

  lemma EndsRequest(cfg: Config, s: State, q: Request, c: Choice)
    requires CanChoose(s, q, c)
    ensures !q.pc.Done? && (q.pc.Inserting? ==> Advance(cfg, s, q, c).request.pc.Done?)
  {
  }

  lemma NothingLogged(cfg: Config, s: State, a: Action)
    requires Enabled(s, a) && !a.Proceed?
    ensures NewEntries(cfg, s, a) == []
  {
  }

  lemma {:induction false} BoundAlways(cfg: Config, s: State, run: seq<Action>, r: ReqId, row: Row)
    requires Integrity(cfg, s) && ValidRun(cfg, s, run) && Bound(s, r, row)
    ensures Bound(After(cfg, s, run), r, row)
    decreases |run|
  {
    hide Step, Enabled, Integrity, Bound;
    if run != [] {
      BoundStep(cfg, s, run[0], r, row);
      IntegrityStep(cfg, s, run[0]);
      BoundAlways(cfg, Step(cfg, s, run[0]), run[1..], r, row);
    }
  }

  /** A request that is not stamped yet inserts no row with an earlier time, if any. */
  ghost predicate NotBefore(s: State, r: ReqId, time: int) {
    && time <= s.clock && r in s.reqs && (AboutToInsert(s.reqs[r]) || s.reqs[r].pc.Done?)
    && (s.reqs[r].pc.Inserting? ==> time <= s.reqs[r].pc.row.createdAt)
    && forall e <- s.log :: e.req == r ==> time <= e.row.createdAt
  }

  lemma NotBeforeStep(cfg: Config, s: State, a: Action, r: ReqId, time: int)
    requires Integrity(cfg, s) && Enabled(s, a) && NotBefore(s, r, time)
    ensures NotBefore(Step(cfg, s, a), r, time)
  {
    hide Integrity, Advance, CanChoose, NewEntries, EntryOk;
    StepLog(cfg, s, a);
    if a.Proceed? {
      NewEntryOk(cfg, s, a.r, a.choice);
      StampsNow(cfg, s, s.reqs[a.r], a.choice);
    } else {
      NothingLogged(cfg, s, a);
    }
  }

  lemma StampsNow(cfg: Config, s: State, q: Request, c: Choice)
    requires CanChoose(s, q, c)
    ensures var q' := Advance(cfg, s, q, c).request;
            && !q.pc.Done? && (AboutToInsert(q) ==> AboutToInsert(q') || q'.pc.Done?)
            && (AboutToInsert(q) && q'.pc.Inserting? ==> q'.pc.row.createdAt == s.clock)
  {
  }

  lemma {:induction false} NotBeforeAlways(cfg: Config, s: State, run: seq<Action>, r: ReqId, time: int)
    requires Integrity(cfg, s) && ValidRun(cfg, s, run) && NotBefore(s, r, time)
    ensures NotBefore(After(cfg, s, run), r, time)
    decreases |run|
  {
    hide Step, Enabled, Integrity, NotBefore;
    if run != [] {
      NotBeforeStep(cfg, s, run[0], r, time);
      IntegrityStep(cfg, s, run[0]);
      NotBeforeAlways(cfg, Step(cfg, s, run[0]), run[1..], r, time);
    }
  }

  // ------------------------------------------------------------- the exact condition

  /**
   After the entry at `k`, whose row still exists, another row for its user was inserted, stamped at most one
   lifetime later.
   */
  ghost predicate SecondRow(cfg: Config, s: State, k: nat, m: nat) {
    k < m < |s.log| && Live(s, s.log[k]) && s.log[m].row.userId == s.log[k].row.userId
    && s.log[m].row.createdAt <= s.log[k].row.createdAt + cfg.Window()
  }

  /** And not more than one lifetime earlier either: both rows lie in one window. */
  ghost predicate Duplicate(cfg: Config, s: State, k: nat, m: nat) {
    SecondRow(cfg, s, k, m) && s.log[k].row.createdAt <= s.log[m].row.createdAt + cfg.Window()
  }

  /** The moment of an INSERT in some run. */
  ghost predicate AtInsert(cfg: Config, s0: State, run: seq<Action>, r: ReqId) {
    Init(s0) && ValidRun(cfg, s0, run) &&
    var s := After(cfg, s0, run);
    r in s.reqs && s.reqs[r].pc.Inserting?
  }

  function Inserted(cfg: Config, s: State, r: ReqId): State
    requires r in s.reqs && s.reqs[r].pc.Inserting?
  {
    Step(cfg, s, Proceed(r, Go))
  }

  lemma InsertIs(cfg: Config, s: State, r: ReqId)
    requires Integrity(cfg, s) && r in s.reqs && s.reqs[r].pc.Inserting?
    ensures var t, row, userId := Inserted(cfg, s, r), s.reqs[r].pc.row, s.reqs[r].userId;
            && Enabled(s, Proceed(r, Go)) && Integrity(cfg, t)
            && t.log == s.log + [Insertion(r, row, Rivals(s, userId))]
            && t.deleted == s.deleted && t.used == s.used && t.clock == s.clock && row.userId == userId
            && t.reqs.Keys == s.reqs.Keys && (forall r' <- s.reqs :: r' != r ==> t.reqs[r'] == s.reqs[r'])
            && row.sessionId !in t.deleted && s.reqs[r].cutoff + cfg.Window() <= row.createdAt <= s.clock
  {
    hide Step, Enabled;
    InsertStep(cfg, s, r);
    assert LocalOk(cfg, s.clock, s.reqs[r]);
    assert Pending(s.reqs[r]) == Some(s.reqs[r].pc.row.sessionId);
    IntegrityStep(cfg, s, Proceed(r, Go));
  }

  /** A second row can only come from a rival, and is stamped as late as that rival is, or later if it was not yet. */
  lemma SecondNeedsRival(cfg: Config, s0: State, run: seq<Action>, r: ReqId, more: seq<Action>, m: nat)
    requires AtInsert(cfg, s0, run, r)
    requires var t := Inserted(cfg, After(cfg, s0, run), r);
             ValidRun(cfg, t, more) && SecondRow(cfg, After(cfg, t, more), |After(cfg, s0, run).log|, m)
    ensures var s := After(cfg, s0, run); var e := After(cfg, Inserted(cfg, s, r), more).log[m];
            && e.req in Rivals(s, s.reqs[r].userId) && e.req != r
            && Stamp(s, e.req) <= e.row.createdAt && (s.reqs[e.req].pc.Inserting? ==> e.row == s.reqs[e.req].pc.row)
  {
    hide Init, ValidRun, After, Integrity, Inserted, Enabled, LogOk;
    InitHolds(cfg, s0);
    IntegrityAlways(cfg, s0, run);
    var s := After(cfg, s0, run);
    InsertIs(cfg, s, r);
    var t, k := Inserted(cfg, s, r), |s.log|;
    InsertedRun(cfg, s0, run, r);
    RunAfterRun(cfg, s0, run + [Proceed(r, Go)], more);
    LogGrows(cfg, t, more);
    var last := After(cfg, t, more);
    assert last.log[k] == t.log[k] == Insertion(r, s.reqs[r].pc.row, Rivals(s, s.reqs[r].userId));
    var e := last.log[m];
    var whole := run + [Proceed(r, Go)] + more;
    if e.req !in last.log[k].rivals {
      NonOverlappingRowsAreFarApart(cfg, s0, whole, k, m);
    }
    InsertedOnce(cfg, s0, whole, k, m);
    UnloggedSoFar(cfg, s0, run, e.req);
    assert e in last.log;
    if s.reqs[e.req].pc.Inserting? {
      assert Bound(t, e.req, s.reqs[e.req].pc.row);
      BoundAlways(cfg, t, more, e.req, s.reqs[e.req].pc.row);
    } else {
      assert NotBefore(t, e.req, s.clock);
      NotBeforeAlways(cfg, t, more, e.req, s.clock);
    }
  }

  lemma InsertedRun(cfg: Config, s0: State, run: seq<Action>, r: ReqId)
    requires AtInsert(cfg, s0, run, r)
    ensures ValidRun(cfg, s0, run + [Proceed(r, Go)])
    ensures After(cfg, s0, run + [Proceed(r, Go)]) == Inserted(cfg, After(cfg, s0, run), r)
  {
    hide ValidRun, After;
    InitHolds(cfg, s0);
    IntegrityAlways(cfg, s0, run);
    InsertIs(cfg, After(cfg, s0, run), r);
    Extend(cfg, s0, run, Proceed(r, Go));
  }

  lemma InsertedOnce(cfg: Config, s0: State, run: seq<Action>, k: nat, m: nat)
    requires Init(s0) && ValidRun(cfg, s0, run) && k < m < |After(cfg, s0, run).log|
    ensures After(cfg, s0, run).log[k].req != After(cfg, s0, run).log[m].req
  {
    InitHolds(cfg, s0);
    WindowAlways(cfg, s0, run);
  }

  lemma UnloggedSoFar(cfg: Config, s0: State, run: seq<Action>, r: ReqId)
    requires Init(s0) && ValidRun(cfg, s0, run)
    requires var s := After(cfg, s0, run); r in s.reqs && !s.reqs[r].pc.Done?
    ensures forall e <- After(cfg, s0, run).log :: e.req != r
  {
    InitHolds(cfg, s0);
    WindowAlways(cfg, s0, run);
    var s := After(cfg, s0, run);
    forall e <- s.log ensures e.req != r {
      assert EntryOk(s, e);
    }
  }

  /** Another request about to insert for the user, whose row would be stamped at most one lifetime after this time. */
  ghost predicate Rival(cfg: Config, s: State, r: ReqId, r': ReqId) {
    r in s.reqs && s.reqs[r].pc.Inserting? && r' in Rivals(s, s.reqs[r].userId) && r' != r &&
    Stamp(s, r') <= s.reqs[r].pc.row.createdAt + cfg.Window()
  }

  /** And every rival can bring one about, by nothing but its own steps. */
  lemma RivalGivesSecond(cfg: Config, s0: State, run: seq<Action>, r: ReqId, r': ReqId, bytes: seq<Byte>)
    returns (more: seq<Action>)
    requires AtInsert(cfg, s0, run, r) && Fresh(After(cfg, s0, run), bytes)
    requires Rival(cfg, After(cfg, s0, run), r, r')
    ensures var s := After(cfg, s0, run); var t := Inserted(cfg, s, r);
            && ValidRun(cfg, t, more) && SecondRow(cfg, After(cfg, t, more), |s.log|, |s.log| + 1)
            && After(cfg, t, more).log[|s.log| + 1].row.createdAt == Stamp(s, r')
  {
    hide Init, ValidRun, After, Integrity, Inserted, Enabled;
    InitHolds(cfg, s0);
    IntegrityAlways(cfg, s0, run);
    var s := After(cfg, s0, run);
    InsertIs(cfg, s, r);
    StampIsPast(cfg, s, r');
    more := GoesOn(cfg, Inserted(cfg, s, r), r', bytes);
  }

  lemma StampIsPast(cfg: Config, s: State, r: ReqId)
    requires Integrity(cfg, s) && r in s.reqs
    ensures Stamp(s, r) <= s.clock
  {
    assert LocalOk(cfg, s.clock, s.reqs[r]);
  }

  ghost predicate SecondIn(cfg: Config, t: State, k: nat, more: seq<Action>) {
    ValidRun(cfg, t, more) && exists m: nat :: SecondRow(cfg, After(cfg, t, more), k, m)
  }

  ghost predicate DuplicateIn(cfg: Config, t: State, k: nat, more: seq<Action>) {
    ValidRun(cfg, t, more) && exists m: nat :: Duplicate(cfg, After(cfg, t, more), k, m)
  }

  /**
   The exact condition for reuse to prevent a second row. In every run, after an INSERT, some continuation inserts
   a second row for the user, stamped at most one lifetime after the first, while the first still exists, if and
   only if another request was then about to insert for that user, with its stamp, past or present, in time.
   Until one lifetime after the first row's stamp, every other such request is in time.
   */
  lemma SecondRowIffRival(cfg: Config, s0: State, run: seq<Action>, r: ReqId, bytes: seq<Byte>)
    requires AtInsert(cfg, s0, run, r) && Fresh(After(cfg, s0, run), bytes)
    ensures var s := After(cfg, s0, run);
            && ((exists more: seq<Action> :: SecondIn(cfg, Inserted(cfg, s, r), |s.log|, more)) <==>
                exists r': nat :: Rival(cfg, s, r, r'))
            && (s.clock <= s.reqs[r].pc.row.createdAt + cfg.Window() ==>
                  ((exists more: seq<Action> :: SecondIn(cfg, Inserted(cfg, s, r), |s.log|, more)) <==>
                   Rivals(s, s.reqs[r].userId) != {r}))
  {
    hide SecondRow, Inserted, Init, ValidRun, After;
    var s := After(cfg, s0, run);
    var t, rivals := Inserted(cfg, s, r), Rivals(s, s.reqs[r].userId);
    FirstIsLogged(cfg, s0, run, r);
    if more: seq<Action> :| SecondIn(cfg, t, |s.log|, more) {
      var m: nat :| SecondRow(cfg, After(cfg, t, more), |s.log|, m);
      SecondNeedsRival(cfg, s0, run, r, more, m);
      LogGrows(cfg, t, more);
      SecondIsLater(cfg, After(cfg, t, more), |s.log|, m);
      assert Rival(cfg, s, r, After(cfg, t, more).log[m].req);
    }
    if r': nat :| Rival(cfg, s, r, r') {
      var more := RivalGivesSecond(cfg, s0, run, r, r', bytes);
      assert SecondIn(cfg, t, |s.log|, more);
    }
    if s.clock <= s.reqs[r].pc.row.createdAt + cfg.Window() {
      EveryRivalInTime(cfg, s0, run, r);
    }
  }

  lemma EveryRivalInTime(cfg: Config, s0: State, run: seq<Action>, r: ReqId)
    requires AtInsert(cfg, s0, run, r)
    requires var s := After(cfg, s0, run); s.clock <= s.reqs[r].pc.row.createdAt + cfg.Window()
    ensures var s := After(cfg, s0, run);
            (exists r': nat :: Rival(cfg, s, r, r')) <==> Rivals(s, s.reqs[r].userId) != {r}
  {
    hide Init, ValidRun, After, Integrity;
    InitHolds(cfg, s0);
    IntegrityAlways(cfg, s0, run);
    var s := After(cfg, s0, run);
    var rivals := Rivals(s, s.reqs[r].userId);
    assert r in rivals;
    if rivals != {r} {
      var r' :| r' in rivals && r' != r;
      StampIsPast(cfg, s, r');
      assert Rival(cfg, s, r, r');
    }
  }

  /** Likewise for two rows in one window: the rival's stamp must not be more than one lifetime before either. */
  lemma DuplicateIffRecentRival(cfg: Config, s0: State, run: seq<Action>, r: ReqId, bytes: seq<Byte>)
    requires AtInsert(cfg, s0, run, r) && Fresh(After(cfg, s0, run), bytes)
    ensures var s := After(cfg, s0, run); var first := s.reqs[r].pc.row.createdAt;
            (exists more: seq<Action> :: DuplicateIn(cfg, Inserted(cfg, s, r), |s.log|, more)) <==>
            exists r': nat :: Rival(cfg, s, r, r') && first <= Stamp(s, r') + cfg.Window()
  {
    hide SecondRow, Inserted, Init, ValidRun, After;
    var s := After(cfg, s0, run);
    var t, k, first := Inserted(cfg, s, r), |s.log|, s.reqs[r].pc.row.createdAt;
    FirstIsLogged(cfg, s0, run, r);
    if more: seq<Action> :| DuplicateIn(cfg, t, k, more) {
      var m: nat :| Duplicate(cfg, After(cfg, t, more), k, m);
      SecondNeedsRival(cfg, s0, run, r, more, m);
      LogGrows(cfg, t, more);
      SecondIsLater(cfg, After(cfg, t, more), k, m);
      assert After(cfg, t, more).log[k] == t.log[k];
      var r' := After(cfg, t, more).log[m].req;
      WindowIsNatural(cfg, After(cfg, t, more), k, m);
      assert Rival(cfg, s, r, r') && first <= Stamp(s, r') + cfg.Window();
    }
    if r': nat :| Rival(cfg, s, r, r') && first <= Stamp(s, r') + cfg.Window() {
      var more := RivalGivesSecond(cfg, s0, run, r, r', bytes);
      LogGrows(cfg, t, more);
      assert After(cfg, t, more).log[k] == t.log[k];
      assert Duplicate(cfg, After(cfg, t, more), k, k + 1);
      assert DuplicateIn(cfg, t, k, more);
    }
  }

  lemma WindowIsNatural(cfg: Config, s: State, k: nat, m: nat)
    requires Duplicate(cfg, s, k, m)
    ensures cfg.Window() >= 0
  {
  }

  lemma SecondIsLater(cfg: Config, s: State, k: nat, m: nat)
    requires SecondRow(cfg, s, k, m)
    ensures k < m < |s.log| && s.log[m].row.createdAt <= s.log[k].row.createdAt + cfg.Window()
  {
  }

  lemma FirstIsLogged(cfg: Config, s0: State, run: seq<Action>, r: ReqId)
    requires AtInsert(cfg, s0, run, r)
    ensures var s := After(cfg, s0, run); var log := Inserted(cfg, s, r).log;
            |log| == |s.log| + 1 && log[|s.log|].row == s.reqs[r].pc.row && s.reqs[r].pc.row.createdAt <= s.clock
  {
    InitHolds(cfg, s0);
    IntegrityAlways(cfg, s0, run);
    InsertIs(cfg, After(cfg, s0, run), r);
  }
}
