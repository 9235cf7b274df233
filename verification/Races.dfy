/**
 Races on one row that the code leaves open: a refresh may lower the row's expiry, and a row may be deleted
 before its refresh. For each, a run that shows it and the exact condition in every run.
 */
module Races {
  import opened Identifiers
  import opened Lifetime
  import opened SessionTable
  import opened Interleaving
  import opened CookieIntegrity
  import opened Histories
  import opened Stories

  // ------------------------------------------------------------- when a refresh lowers the expiry

  /** At step `w` request `r` applies its UPDATE to the row at `i`. */
  ghost predicate Refreshes(h: History, w: nat, r: ReqId, i: nat) {
    && (By(h, w, r, Go) || By(h, w, r, Fail(true))) && w < |h.states| && r in h.states[w].reqs
    && h.states[w].reqs[r].pc.Updating?
    && i < |h.states[w].rows| && h.states[w].rows[i].sessionId == h.states[w].reqs[r].pc.sid
  }

  ghost function Expires(s: State, i: nat): int
    requires i < |s.rows|
  {
    s.rows[i].data.cookie.expires
  }

  /** The clock reading for which some request's step made this session_data. */
  ghost predicate MadeAt(cfg: Config, h: History, data: SessionData, reading: int) {
    exists k: nat, r: ReqId, userId: string :: Built(cfg, h, k, r, userId, data) && h.states[k].clock == reading
  }

  /**
   In every run, an UPDATE lowers the expiry of its row exactly when the row's data, as far as the proxy made it,
   was built at a later reading than the UPDATE's own; `built` is that reading, taken after the SELECT.
   */
  lemma UpdateLowersExpiryIff(cfg: Config, s0: State, run: seq<Action>, w: nat, r: ReqId, i: nat) returns (p: Path)
    requires Init(s0) && ValidRun(cfg, s0, run) && Refreshes(HistoryOf(cfg, s0, run), w, r, i)
    ensures var h := HistoryOf(cfg, s0, run);
            && Traced(cfg, h, w, r, h.states[w].reqs[r], p) && p.select < p.build < w
            && w < |run| && i < |h.states[w + 1].rows|
            && var built := h.states[p.build].clock;
               var lowered := Expires(h.states[w + 1], i) < Expires(h.states[w], i);
            && Expires(h.states[w + 1], i) == built + ExpiryNanos(cfg.days)
            && forall reading :: MadeAt(cfg, h, h.states[w].rows[i].data, reading) ==> (lowered <==> built < reading)
  {
    hide Init, Traced, MadeAt;
    var h := HistoryOf(cfg, s0, run);
    HistoryIsFaithful(cfg, s0, run);
    NoRequestsAtFirst(s0);
    StoryAlways(cfg, h, w, r);
    var q := h.states[w].reqs[r];
    p :| Traced(cfg, h, w, r, q, p);
    UpdaterBuilt(cfg, h, w, r, q, p);
    assert StepAt(cfg, h, w);
    UpdateStores(cfg, h, w, r, q);
    forall reading | MadeAt(cfg, h, h.states[w].rows[i].data, reading)
      ensures Expires(h.states[w], i) == reading + ExpiryNanos(cfg.days)
    {
      MadeExpires(cfg, h, h.states[w].rows[i].data, reading);
    }
  }

  lemma UpdaterBuilt(cfg: Config, h: History, w: nat, r: ReqId, q: Request, p: Path)
    requires Traced(cfg, h, w, r, q, p) && q.pc.Updating? && w < |h.states|
    ensures p.select < p.build < w && q.pc.data.cookie.expires == h.states[p.build].clock + ExpiryNanos(cfg.days)
  {
    assert Holds(q.pc, q.pc.data);
  }

  lemma MadeExpires(cfg: Config, h: History, data: SessionData, reading: int)
    requires MadeAt(cfg, h, data, reading)
    ensures data.cookie.expires == reading + ExpiryNanos(cfg.days)
  {
  }

  lemma UpdateStores(cfg: Config, h: History, w: nat, r: ReqId, q: Request)
    requires |h.states| == |h.run| + 1 && (By(h, w, r, Go) || By(h, w, r, Fail(true))) && StepAt(cfg, h, w)
    requires Stands(h, w, r, q) && q.pc.Updating?
    ensures h.states[w + 1].rows == Refreshed(h.states[w].rows, q.pc.sid, q.pc.data, q.pc.now)
  {
    hide Refreshed;
  }

  // ------------------------------------------------------------- when a planted cookie has no row

  /**
   In every reachable state, the cookie a write plants is without a row exactly when Ghost has deleted the row
   to refresh.
   */
  lemma PlantsWithoutRowIff(cfg: Config, s0: State, run: seq<Action>, r: ReqId)
    requires Init(s0) && ValidRun(cfg, s0, run)
    requires var s := After(cfg, s0, run); r in s.reqs && (s.reqs[r].pc.Updating? || s.reqs[r].pc.Inserting?)
    ensures var s := After(cfg, s0, run);
            && Enabled(s, Proceed(r, Go))
            && var s', sid := Step(cfg, s, Proceed(r, Go)), WrittenId(s.reqs[r].pc);
            && Answered(s', r, cfg.Sign(sid))
            && (sid !in Ids(s'.rows) <==> s.reqs[r].pc.Updating? && sid in s.deleted)
  {
    hide Init, ValidRun;
    InitHolds(cfg, s0);
    IntegrityAlways(cfg, s0, run);
    WriteLeaves(cfg, After(cfg, s0, run), r);
  }

  lemma WriteLeaves(cfg: Config, s: State, r: ReqId)
    requires Integrity(cfg, s) && r in s.reqs && (s.reqs[r].pc.Updating? || s.reqs[r].pc.Inserting?)
    ensures Enabled(s, Proceed(r, Go))
    ensures var s', sid := Step(cfg, s, Proceed(r, Go)), WrittenId(s.reqs[r].pc);
            && Answered(s', r, cfg.Sign(sid))
            && (sid !in Ids(s'.rows) <==> s.reqs[r].pc.Updating? && sid in s.deleted)
  {
    var pc := s.reqs[r].pc;
    assert TargetOk(s.rows, s.deleted, s.reqs[r]);
    if pc.Updating? {
      RefreshedIds(s.rows, pc.sid, pc.data, pc.now);
    } else {
      AddedIds(s.rows, pc.row);
    }
  }

  // ------------------------------------------------------------- runs that show it

  /** A request that has found the row at `i` and stands before its UPDATE. */
  function ReadyAt(cfg: Config, s: State, email: string, i: nat): Request
    requires email in s.users && i < |s.rows|
  {
    var userId := s.users[email].id;
    Request(email, userId, s.clock - cfg.Window(),
            Updating(s.rows[i].sessionId, BuildSessionData(userId, cfg.days, s.clock), s.clock), NoChange)
  }

  ghost predicate Findable(cfg: Config, s: State, email: string, i: nat) {
    email in s.users && s.users[email].status == "active" &&
    NewestMatch(s.rows, i, s.users[email].id, s.clock - cfg.Window())
  }

  /** A request without a cookie, up to its SELECT. */
  lemma UpToSelect(cfg: Config, s0: State, before: seq<Action>, email: string, r: ReqId) returns (run: seq<Action>)
    requires ValidRun(cfg, s0, before)
    requires var s := After(cfg, s0, before); r !in s.reqs && email in s.users && s.users[email].status == "active"
    ensures ValidRun(cfg, s0, run) && run == before + [Arrive(r, "", Email(email)), Proceed(r, Go), Proceed(r, Go)]
    ensures var s := After(cfg, s0, before);
            After(cfg, s0, run) ==
            s.(reqs := s.reqs[r := Request(email, s.users[email].id, s.clock - cfg.Window(), Selecting, NoChange)])
  {
    hide ValidRun, After;
    Extend(cfg, s0, before, Arrive(r, "", Email(email)));
    run := before + [Arrive(r, "", Email(email))];
    Extend(cfg, s0, run, Proceed(r, Go));
    run := run + [Proceed(r, Go)];
    Extend(cfg, s0, run, Proceed(r, Go));
    run := run + [Proceed(r, Go)];
  }

  lemma GetReady(cfg: Config, s0: State, before: seq<Action>, email: string, i: nat, r: ReqId)
    returns (run: seq<Action>)
    requires ValidRun(cfg, s0, before)
    requires var s := After(cfg, s0, before); r !in s.reqs && Findable(cfg, s, email, i)
    ensures ValidRun(cfg, s0, run)
    ensures var s := After(cfg, s0, before); After(cfg, s0, run) == s.(reqs := s.reqs[r := ReadyAt(cfg, s, email, i)])
    ensures run == before + [Arrive(r, "", Email(email)), Proceed(r, Go), Proceed(r, Go)]
                   + [Proceed(r, Hit(i)), Proceed(r, Go), Proceed(r, Go)]
  {
    hide ValidRun, After, BuildSessionData;
    run := UpToSelect(cfg, s0, before, email, r);
    Extend(cfg, s0, run, Proceed(r, Hit(i)));
    run := run + [Proceed(r, Hit(i))];
    Extend(cfg, s0, run, Proceed(r, Go));
    run := run + [Proceed(r, Go)];
    Extend(cfg, s0, run, Proceed(r, Go));
    run := run + [Proceed(r, Go)];
  }

  lemma StillFindable(cfg: Config, s: State, email: string, i: nat, later: nat)
    requires Findable(cfg, s.(clock := s.clock + later), email, i)
    ensures Findable(cfg, s, email, i)
  {
  }

  lemma SecondUpdate(cfg: Config, s: State, i: nat, r: ReqId, r': ReqId)
    requires r in s.reqs && r' in s.reqs && r != r' && s.reqs[r].pc.Updating? && s.reqs[r'].pc.Updating?
    requires i < |s.rows| && s.rows[i].sessionId == s.reqs[r].pc.sid == s.reqs[r'].pc.sid
    ensures Enabled(s, Proceed(r', Go)) && Enabled(Step(cfg, s, Proceed(r', Go)), Proceed(r, Go))
    ensures var s1 := Step(cfg, s, Proceed(r', Go)); var s2 := Step(cfg, s1, Proceed(r, Go));
            && |s1.rows| == |s2.rows| == |s.rows|
            && s1.rows[i].data == s.reqs[r'].pc.data && s2.rows[i].data == s.reqs[r].pc.data
            && Answered(s2, r, cfg.Sign(s.rows[i].sessionId)) && Answered(s2, r', cfg.Sign(s.rows[i].sessionId))
  {
  }

  /**
   From every initial table with a row in the window of an active user there is a run in which the last step, a
   refresh, lowers that row's expiry, by as much time as there was between the two requests' readings.
   */
  lemma ExpiryCanFall(cfg: Config, s0: State, email: string, i: nat, later: nat)
    returns (before: seq<Action>, last: Action)
    requires Init(s0) && Findable(cfg, s0.(clock := s0.clock + later), email, i)
    ensures ValidRun(cfg, s0, before + [last]) && ValidRun(cfg, s0, before)
    ensures var s1, s2 := After(cfg, s0, before), After(cfg, s0, before + [last]);
            && i < |s1.rows| && i < |s2.rows| && Expires(s2, i) == Expires(s1, i) - later
            && Answered(s2, 0, cfg.Sign(s0.rows[i].sessionId)) && Answered(s2, 1, cfg.Sign(s0.rows[i].sessionId))
  {
    hide ValidRun, After;
    StillFindable(cfg, s0, email, i, later);
    StartsEmpty(cfg, s0);
    before := GetReady(cfg, s0, [], email, i, 0);
    Extend(cfg, s0, before, Tick(later));
    before := before + [Tick(later)];
    before := GetReady(cfg, s0, before, email, i, 1);
    var s := After(cfg, s0, before);
    SecondUpdate(cfg, s, i, 0, 1);
    Extend(cfg, s0, before, Proceed(1, Go));
    before := before + [Proceed(1, Go)];
    last := Proceed(0, Go);
    Extend(cfg, s0, before, last);
  }

  lemma StartsEmpty(cfg: Config, s0: State)
    ensures ValidRun(cfg, s0, []) && After(cfg, s0, []) == s0
  {
  }

  /** Likewise there is a run that ends in a planted cookie whose session ID no row has. */
  lemma PlantCanMissItsRow(cfg: Config, s0: State, email: string, i: nat) returns (run: seq<Action>)
    requires Init(s0) && Findable(cfg, s0, email, i)
    ensures ValidRun(cfg, s0, run)
    ensures var s, sid := After(cfg, s0, run), s0.rows[i].sessionId;
            Answered(s, 0, cfg.Sign(sid)) && sid !in Ids(s.rows)
  {
    hide ValidRun, After;
    StartsEmpty(cfg, s0);
    run := GetReady(cfg, s0, [], email, i, 0);
    Extend(cfg, s0, run, GhostDelete(i));
    run := run + [GhostDelete(i)];
    PlantsWithoutRowIff(cfg, s0, run, 0);
    Extend(cfg, s0, run, Proceed(0, Go));
    run := run + [Proceed(0, Go)];
  }

  /** For every length of time within the window there is such a table. */
  lemma RacyTable(cfg: Config, sid: string, later: nat) returns (s0: State)
    requires later <= cfg.Window() && SessionIdForm(sid)
    ensures Init(s0) && Findable(cfg, s0.(clock := s0.clock + later), "a@b", 0) && s0.rows[0].sessionId == sid
    ensures s0.used == {sid} && s0.reqs == map[]
  {
    var row := Row("", sid, "u", BuildSessionData("u", cfg.days, 0), 0, 0);
    s0 := State(0, map["a@b" := User("u", "active")], [row], map[], {sid}, {}, []);
    assert Ids([row]) == {sid};
  }
}
