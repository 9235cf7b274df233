/** What one request can do to the table, decided by its answer, and what it can never touch. */
module Effects {
  import opened Wrappers
  import opened SessionTable
  import opened Interleaving
  import opened CookieIntegrity
  import opened Histories
  import opened Stories
  import CookieSigning

  // ------------------------------------------------------------- rows of other users

  /** Rows of other users stay where they are; own rows keep everything but session_data and updated_at. */
  ghost predicate OnlyOwnRows(rows: seq<Row>, after: seq<Row>, userId: string) {
    && |rows| <= |after| <= |rows| + 1
    && (forall i :: 0 <= i < |rows| ==>
          if rows[i].userId == userId
          then after[i] == rows[i].(data := after[i].data, updatedAt := after[i].updatedAt)
          else after[i] == rows[i])
    && (|after| > |rows| ==> after[|rows|].userId == userId && after[..|rows|] == rows)
  }

  /** A request's step changes only rows of the user it found, in every reachable state. */
  lemma RequestTouchesOwnRows(cfg: Config, s0: State, run: seq<Action>, r: ReqId, c: Choice)
    requires Init(s0) && ValidRun(cfg, s0, run) && Enabled(After(cfg, s0, run), Proceed(r, c))
    ensures var s := After(cfg, s0, run);
            OnlyOwnRows(s.rows, Step(cfg, s, Proceed(r, c)).rows, s.reqs[r].userId)
  {
    InitHolds(cfg, s0);
    IntegrityAlways(cfg, s0, run);
    StepTouchesOwnRows(cfg, After(cfg, s0, run), r, c);
  }

  lemma StepTouchesOwnRows(cfg: Config, s: State, r: ReqId, c: Choice)
    requires Integrity(cfg, s) && Enabled(s, Proceed(r, c))
    ensures OnlyOwnRows(s.rows, Step(cfg, s, Proceed(r, c)).rows, s.reqs[r].userId)
  {
    hide Advance, CanChoose;
    var q := s.reqs[r];
    AdvancePending(cfg, s, q, c);
    assert LocalOk(cfg, s.clock, q) && TargetOk(s.rows, s.deleted, q);
    if Advance(cfg, s, q, c).change.Updated? {
      UpdaterOwns(s, q);
      forall i | 0 <= i < |s.rows| ensures s.rows[i] in s.rows {
      }
    }
  }

  // ------------------------------------------------------------- the answer decides

  /** The request's one write; an inserted row is its user's and was stamped one window after the cutoff at least. */
  ghost predicate TheWrite(cfg: Config, h: History, n: nat, r: ReqId, a: Answer, w: nat, q: Request, p: Path)
    requires n < |h.states| == |h.run| + 1
  {
    SoleWrite(cfg, h, n, r, a, w, q, p) &&
    (a.Plant? ==> CookieSigning.Unsign(a.cookie, cfg.secret, cfg.mac) == Some(WrittenId(q.pc))) &&
    (q.pc.Inserting? ==>
       q.pc.row.userId == q.userId && q.cutoff + cfg.Window() <= q.pc.row.createdAt <= h.states[w].clock)
  }

  lemma WriteIsOwn(cfg: Config, s0: State, run: seq<Action>, r: ReqId, a: Answer, w: nat, q: Request, p: Path)
    requires Init(s0) && ValidRun(cfg, s0, run)
    requires var h := HistoryOf(cfg, s0, run); SoleWrite(cfg, h, |run|, r, a, w, q, p)
    ensures TheWrite(cfg, HistoryOf(cfg, s0, run), |run|, r, a, w, q, p)
  {
    InitHolds(cfg, s0);
    PrefixIsRun(cfg, s0, run, w);
    IntegrityAlways(cfg, s0, run[..w]);
    assert LocalOk(cfg, HistoryOf(cfg, s0, run).states[w].clock, q);
    if a.Plant? {
      SignVerifies(cfg, a.cookie, WrittenId(q.pc));
    }
  }

  /**
   Over the whole run, a request sent to the login page left the table alone at each of its steps. One that
   planted a cookie changed it at one step only: it refreshed the row that was the newest in the window at its
   SELECT, or added one row for its user after its SELECT found none, and the cookie signs that row's ID.
   One that let the browser through left the table alone, unless its own write was applied and reported failed.
   */
  lemma AnswerDecidesEffect(cfg: Config, s0: State, run: seq<Action>, r: ReqId)
    requires Init(s0) && ValidRun(cfg, s0, run)
    requires var s := After(cfg, s0, run); r in s.reqs && s.reqs[r].pc.Done?
    ensures var h, a := HistoryOf(cfg, s0, run), After(cfg, s0, run).reqs[r].pc.answer;
            match a
            case ToLogin(_, _) => QuietBut(h, |run|, r, -1)
            case Plant(_) => exists w: nat, q: Request, p: Path :: TheWrite(cfg, h, |run|, r, a, w, q, p)
            case Pass =>
              if LostReply(h, |run|, r)
              then exists w: nat, q: Request, p: Path :: TheWrite(cfg, h, |run|, r, a, w, q, p)
              else QuietBut(h, |run|, r, -1)
  {
    hide SoleWrite, TheWrite, Init;
    var h, a := HistoryOf(cfg, s0, run), After(cfg, s0, run).reqs[r].pc.answer;
    HistoryIsFaithful(cfg, s0, run);
    NoRequestsAtFirst(s0);
    StoryAlways(cfg, h, |run|, r);
    if a.Plant? || LostReply(h, |run|, r) {
      var w: nat, q: Request, p: Path :| SoleWrite(cfg, h, |run|, r, a, w, q, p);
      LoginsWriteNothing(cfg, h, |run|, r, a, w, q, p);
      WriteIsOwn(cfg, s0, run, r, a, w, q, p);
    }
  }

  lemma LoginsWriteNothing(cfg: Config, h: History, n: nat, r: ReqId, a: Answer, w: nat, q: Request, p: Path)
    requires n < |h.states| == |h.run| + 1 && SoleWrite(cfg, h, n, r, a, w, q, p)
    ensures !a.ToLogin?
  {
  }

  /** The write would leave the table other than it is. */
  ghost predicate Effective(rows: seq<Row>, pc: Pc) {
    pc.Inserting? ||
    (pc.Updating? && exists row <- rows :: row.sessionId == pc.sid && !(row.data == pc.data && row.updatedAt == pc.now))
  }

  lemma WritesWhenEffective(rows: seq<Row>, pc: Pc)
    requires pc.Updating? || pc.Inserting?
    ensures Written(rows, pc) != rows <==> Effective(rows, pc)
  {
    if pc.Updating? {
      forall i | 0 <= i < |rows|
        ensures Written(rows, pc)[i] == rows[i] <==>
                !(rows[i].sessionId == pc.sid && !(rows[i].data == pc.data && rows[i].updatedAt == pc.now))
      {
      }
    } else {
      assert |Written(rows, pc)| == |rows| + 1;
    }
  }

  ghost predicate LostWrite(h: History, w: nat, r: ReqId) {
    By(h, w, r, Fail(true)) && w < |h.states| && r in h.states[w].reqs &&
      Effective(h.states[w].rows, h.states[w].reqs[r].pc)
  }

  ghost predicate Changes(h: History, i: nat, r: ReqId) {
    Own(h, i, r) && i + 1 < |h.states| && h.states[i + 1].rows != h.states[i].rows
  }

  /**
   A request that let the browser through changed the table exactly when an effective write of its own lost its
   reply.
   */
  lemma PassChangedTableIff(cfg: Config, s0: State, run: seq<Action>, r: ReqId)
    requires Init(s0) && ValidRun(cfg, s0, run)
    requires var s := After(cfg, s0, run); r in s.reqs && s.reqs[r].pc == Done(Pass)
    ensures var h := HistoryOf(cfg, s0, run);
            (exists i: nat :: Changes(h, i, r)) <==> (exists w: nat :: LostWrite(h, w, r))
  {
    hide Effective, Written, Init, Traced;
    var h := HistoryOf(cfg, s0, run);
    AnswerDecidesEffect(cfg, s0, run, r);
    if LostReply(h, |run|, r) {
      var w: nat, q: Request, p: Path :| TheWrite(cfg, h, |run|, r, Pass, w, q, p);
      WritesWhenEffective(h.states[w].rows, q.pc);
      assert Changes(h, w, r) ==> LostWrite(h, w, r);
    }
    HistoryIsFaithful(cfg, s0, run);
    forall v: nat | LostWrite(h, v, r) ensures Changes(h, v, r) {
      assert StepAt(cfg, h, v);
      LostReplyWrites(cfg, h, v, r);
      WritesWhenEffective(h.states[v].rows, h.states[v].reqs[r].pc);
      assert Own(h, v, r);
    }
  }

  lemma LostReplyWrites(cfg: Config, h: History, v: nat, r: ReqId)
    requires |h.states| == |h.run| + 1 && By(h, v, r, Fail(true)) && StepAt(cfg, h, v)
    ensures r in h.states[v].reqs
    ensures var pc := h.states[v].reqs[r].pc;
            (pc.Updating? || pc.Inserting?) && h.states[v + 1].rows == Written(h.states[v].rows, pc)
  {
    hide Written, Changed, Advance, CanChoose;
    var s := h.states[v];
    NotDone(s, s.reqs[r], Fail(true));
    StepEffect(cfg, s, s.reqs[r], Fail(true));
  }

  // ------------------------------------------------------------- only active users

  /**
   Whoever got a cookie was found active, under the request's e-mail address, at one of its steps; the ID found
   there is the one that the cookie's row is certified for.
   */
  lemma OnlyActiveUsersGetCookies(cfg: Config, s0: State, run: seq<Action>, r: ReqId, cookie: string)
    requires Init(s0) && ValidRun(cfg, s0, run) && Answered(After(cfg, s0, run), r, cookie)
    ensures var s, h := After(cfg, s0, run), HistoryOf(cfg, s0, run);
            && CookieIsGood(cfg, s, cookie, s.reqs[r].userId)
            && exists i: nat :: LookedUp(h, i, r, s.reqs[r].email, s.reqs[r].userId)
  {
    hide Init, TheWrite, SoleWrite, LookedUp, CookieIsGood, ValidRun, QuietBut;
    AnsweredCookiesAreGood(cfg, s0, run, r, cookie);
    AnswerDecidesEffect(cfg, s0, run, r);
    HistoryIsFaithful(cfg, s0, run);
    var h := HistoryOf(cfg, s0, run);
    var w: nat, q: Request, p: Path :| TheWrite(cfg, h, |run|, r, Plant(cookie), w, q, p);
    WriterWasFound(cfg, h, |run|, r, Plant(cookie), w, q, p);
  }

  lemma WriterWasFound(cfg: Config, h: History, n: nat, r: ReqId, a: Answer, w: nat, q: Request, p: Path)
    requires n < |h.states| == |h.run| + 1 && TheWrite(cfg, h, n, r, a, w, q, p)
    ensures r in h.states[n].reqs && LookedUp(h, p.lookup, r, h.states[n].reqs[r].email, h.states[n].reqs[r].userId)
  {
    hide QuietBut, LostReply, LookedUp, TookCutoff, SawNewest, SawNone, Built, Refreshing, Holds, Written, Config.Sign;
  }
}
