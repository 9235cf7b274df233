/** From every state, the proxy can plant a cookie to a request of an active user that comes without one, at once. */
module Answering {
  import opened Wrappers
  import opened Base64
  import opened SessionTable
  import opened Interleaving
  import opened SecondRows
  import Races
  import DuplicatesTight

  predicate ActiveUser(s: State, email: string) {
    email in s.users && s.users[email].status == "active"
  }

  /** The SELECT of a lookup for this user would find a row now. */
  predicate HasRow(cfg: Config, s: State, email: string)
    requires email in s.users
  {
    !NoMatch(s.rows, s.users[email].id, s.clock - cfg.Window())
  }

  ghost predicate OnlyArrival(run: seq<Action>, r: ReqId) {
    forall a <- run :: a.Arrive? ==> a.r == r && a.header == ""
  }

  /** In no time, request `r` has come and been answered with a cookie; no other request has moved. */
  ghost predicate PlantedAtOnce(cfg: Config, s: State, t: State, r: ReqId, email: string, bytes: seq<Byte>)
    requires email in s.users
  {
    && t.clock == s.clock && t.users == s.users && r in t.reqs && t.reqs == s.reqs[r := t.reqs[r]]
    && t.reqs[r].pc.Done? && t.reqs[r].pc.answer.Plant?
    && t.used == (if HasRow(cfg, s, email) then s.used else s.used + {Encode(UrlSafe, bytes)})
    && (cfg.Window() >= 0 ==> HasRow(cfg, t, email))
  }

  lemma AtWrite(cfg: Config, s: State, t: State, r: ReqId, email: string, bytes: seq<Byte>)
    requires email in s.users && t.clock == s.clock && t.users == s.users
    requires r in t.reqs && t.reqs == s.reqs[r := t.reqs[r]]
    requires t.reqs[r].pc.Updating? || t.reqs[r].pc.Inserting?
    requires t.used == (if HasRow(cfg, s, email) then s.used else s.used + {Encode(UrlSafe, bytes)})
    requires t.rows == s.rows
    requires HasRow(cfg, s, email) ==> t.reqs[r].pc.Updating?
    requires !HasRow(cfg, s, email) ==>
               t.reqs[r].pc.Inserting? &&
               t.reqs[r].pc.row.createdAt == s.clock && t.reqs[r].pc.row.userId == s.users[email].id
    ensures Enabled(t, Proceed(r, Go)) && PlantedAtOnce(cfg, s, Step(cfg, t, Proceed(r, Go)), r, email, bytes)
  {
    hide Config.Window, Config.Sign;
    var t' := Step(cfg, t, Proceed(r, Go));
    var pc := t.reqs[r].pc;
    if pc.Inserting? {
      assert t'.rows[|t.rows|] == pc.row && pc.row in t'.rows;
      assert cfg.Window() >= 0 ==> Matches(pc.row, s.users[email].id, s.clock - cfg.Window());
    } else {
      assert t'.rows == Refreshed(t.rows, pc.sid, pc.data, pc.now);
      RefreshKeepsMatch(t.rows, pc.sid, pc.data, pc.now, s.users[email].id, s.clock - cfg.Window());
    }
  }

  lemma RefreshKeepsMatch(rows: seq<Row>, sid: string, data: SessionData, now: int, userId: string, cutoff: int)
    requires !NoMatch(rows, userId, cutoff)
    ensures !NoMatch(Refreshed(rows, sid, data, now), userId, cutoff)
  {
    var i :| 0 <= i < |rows| && Matches(rows[i], userId, cutoff);
    var after := Refreshed(rows, sid, data, now);
    assert after[i] in after && Matches(after[i], userId, cutoff);
  }

  lemma StartsAt(cfg: Config, s: State)
    ensures ValidRun(cfg, s, []) && After(cfg, s, []) == s
  {
  }

  /** Up to the refresh of the newest row. */
  lemma UpToUpdate(cfg: Config, s: State, r: ReqId, email: string) returns (run: seq<Action>)
    requires r !in s.reqs && ActiveUser(s, email) && HasRow(cfg, s, email)
    ensures ValidRun(cfg, s, run) && OnlyArrival(run, r)
    ensures var t := After(cfg, s, run);
            r in t.reqs && t.reqs[r].pc.Updating? && t == s.(reqs := s.reqs[r := t.reqs[r]])
  {
    hide ValidRun, After;
    StartsAt(cfg, s);
    NewestExists(s.rows, s.users[email].id, s.clock - cfg.Window());
    var i: nat :| NewestMatch(s.rows, i, s.users[email].id, s.clock - cfg.Window());
    run := Races.GetReady(cfg, s, [], email, i, r);
  }

  /** Up to the draw of a new session's IDs. */
  lemma UpToDraw(cfg: Config, s: State, r: ReqId, email: string) returns (run: seq<Action>)
    requires r !in s.reqs && ActiveUser(s, email) && !HasRow(cfg, s, email)
    ensures ValidRun(cfg, s, run) && OnlyArrival(run, r)
    ensures After(cfg, s, run) ==
            s.(reqs := s.reqs[r := Request(email, s.users[email].id, s.clock - cfg.Window(), Drawing, NoChange)])
  {
    hide ValidRun, After;
    StartsAt(cfg, s);
    run := Races.UpToSelect(cfg, s, [], email, r);
    Extend(cfg, s, run, Proceed(r, Go));
    run := run + [Proceed(r, Go)];
  }

  lemma UpToInsert(cfg: Config, s: State, r: ReqId, email: string, bytes: seq<Byte>) returns (run: seq<Action>)
    requires r !in s.reqs && ActiveUser(s, email) && !HasRow(cfg, s, email) && Fresh(s, bytes)
    ensures ValidRun(cfg, s, run) && OnlyArrival(run, r)
    ensures var t := After(cfg, s, run);
            && r in t.reqs && t.reqs[r].pc.Inserting?
            && t.reqs[r].pc.row.createdAt == s.clock && t.reqs[r].pc.row.userId == s.users[email].id
            && t == s.(reqs := s.reqs[r := t.reqs[r]], used := s.used + {Encode(UrlSafe, bytes)})
  {
    hide ValidRun, After, Step, Enabled, HasRow;
    run := UpToDraw(cfg, s, r, email);
    var draw := Proceed(r, Draw(bytes, seq(8, _ => 0)));
    var oid := DuplicatesTight.DrawStep(cfg, After(cfg, s, run), r, bytes);
    Extend(cfg, s, run, draw);
    run := run + [draw];
    var data := DuplicatesTight.BuildStep(cfg, After(cfg, s, run), r);
    Extend(cfg, s, run, Proceed(r, Go));
    run := run + [Proceed(r, Go)];
    var row := DuplicatesTight.TimeStep(cfg, After(cfg, s, run), r);
    Extend(cfg, s, run, Proceed(r, Go));
    run := run + [Proceed(r, Go)];
  }

  /** Whatever the other requests are doing, and whatever the table holds. */
  lemma PlantsNow(cfg: Config, s: State, r: ReqId, email: string, bytes: seq<Byte>) returns (run: seq<Action>)
    requires r !in s.reqs && ActiveUser(s, email) && Fresh(s, bytes)
    ensures ValidRun(cfg, s, run) && OnlyArrival(run, r)
    ensures PlantedAtOnce(cfg, s, After(cfg, s, run), r, email, bytes)
  {
    hide ValidRun, After, HasRow, PlantedAtOnce, Step, Enabled, Fresh;
    if HasRow(cfg, s, email) {
      run := UpToUpdate(cfg, s, r, email);
    } else {
      run := UpToInsert(cfg, s, r, email, bytes);
    }
    AtWrite(cfg, s, After(cfg, s, run), r, email, bytes);
    Extend(cfg, s, run, Proceed(r, Go));
    run := run + [Proceed(r, Go)];
  }
}
