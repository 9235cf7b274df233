/**
 The imperative Check call is a run of the step machine with one request: whatever the objects do
 in one call, the machine can do in steps, so that what every run keeps holds of the code.
 */
module CallsAreRuns {
  import opened Wrappers
  import opened Base64
  import opened Identifiers
  import opened Lifetime
  import opened SessionTable
  import opened Interleaving
  import opened CookieIntegrity
  import opened Effects
  import opened SessionStore
  import opened ExtAuth
  import opened CookieHeader
  import CookieSigning

  function Start(users: map<string, User>, rows: seq<Row>, clock: int): State {
    State(clock, users, rows, map[], Ids(rows), {}, [])
  }

  /** Time passes, then request 0 goes on. */
  function Later(cfg: Config, s: State, elapsed: nat, c: Choice): State
    requires Enabled(s.(clock := s.clock + elapsed), Proceed(0, c))
  {
    Step(cfg, s.(clock := s.clock + elapsed), Proceed(0, c))
  }

  predicate ArrivesFirst(run: seq<Action>, header: string, v: Verdict) {
    run != [] && run[0] == Arrive(0, header, v)
  }

  lemma ExtendLater(cfg: Config, s0: State, before: seq<Action>, elapsed: nat, c: Choice) returns (run: seq<Action>)
    requires ValidRun(cfg, s0, before)
    requires var s := After(cfg, s0, before); Enabled(s.(clock := s.clock + elapsed), Proceed(0, c))
    ensures ValidRun(cfg, s0, run) && After(cfg, s0, run) == Later(cfg, After(cfg, s0, before), elapsed, c)
    ensures forall header, v :: ArrivesFirst(before, header, v) ==> ArrivesFirst(run, header, v)
  {
    hide ValidRun, After, Advance, CanChoose;
    Extend(cfg, s0, before, Tick(elapsed));
    Extend(cfg, s0, before + [Tick(elapsed)], Proceed(0, c));
    run := before + [Tick(elapsed)] + [Proceed(0, c)];
  }

  lemma ArriveFirst(cfg: Config, s0: State, header: string, v: Verdict) returns (run: seq<Action>)
    requires Init(s0)
    ensures ValidRun(cfg, s0, run) && ArrivesFirst(run, header, v) &&
      After(cfg, s0, run) == s0.(reqs := map[0 := Arriving(header, v)])
  {
    hide Arriving;
    Extend(cfg, s0, [], Arrive(0, header, v));
    run := [] + [Arrive(0, header, v)];
  }

  /** The state in the middle of a call: only the clock and the one request have moved. */
  function Mid(s0: State, clock: int, q: Request): State {
    s0.(clock := clock, reqs := map[0 := q])
  }

  lemma QuietLater(cfg: Config, s0: State, clock: int, q: Request, elapsed: nat, c: Choice)
    requires CanChoose(Mid(s0, clock + elapsed, q), q, c)
    requires var o := Advance(cfg, Mid(s0, clock + elapsed, q), q, c); o.change.NoChange? && o.drawn == {}
    ensures var s, s' := Mid(s0, clock, q), Mid(s0, clock + elapsed, q);
            Enabled(s.(clock := clock + elapsed), Proceed(0, c)) &&
            Later(cfg, s, elapsed, c) == Mid(s0, clock + elapsed, Advance(cfg, s', q, c).request)
  {
    hide Advance, CanChoose;
    assert Mid(s0, clock, q).(clock := clock + elapsed) == Mid(s0, clock + elapsed, q);
  }

  /** Through the lookup and the cutoff to the SELECT. */
  lemma ReachSelect(cfg: Config, s0: State, header: string, email: string, looked: int) returns (run: seq<Action>)
    requires Init(s0) && !HasGhostSessionCookie(header) && s0.clock <= looked
    requires email in s0.users && s0.users[email].status == "active"
    ensures ValidRun(cfg, s0, run) && ArrivesFirst(run, header, Email(email))
    ensures After(cfg, s0, run) ==
            Mid(s0, looked, Request(email, s0.users[email].id, looked - cfg.Window(), Selecting, NoChange))
  {
    hide ArrivesFirst, ValidRun, After, Later;
    run := ArriveFirst(cfg, s0, header, Email(email));
    var q := Request(email, "", 0, LookingUp, NoChange);
    assert After(cfg, s0, run) == Mid(s0, s0.clock, q);
    QuietLater(cfg, s0, s0.clock, q, 0, Go);
    run := ExtendLater(cfg, s0, run, 0, Go);
    q := q.(userId := s0.users[email].id, pc := TakingCutoff);
    QuietLater(cfg, s0, s0.clock, q, looked - s0.clock, Go);
    run := ExtendLater(cfg, s0, run, looked - s0.clock, Go);
  }

  lemma ReuseIsARun(cfg: Config, s0: State, header: string, email: string, t: Trace, sid: string, after: seq<Row>)
    returns (run: seq<Action>)
    requires Init(s0) && !HasGhostSessionCookie(header) && s0.clock <= t.looked
    requires email in s0.users && s0.users[email].status == "active"
    requires FoundAndRefreshed(cfg, s0.rows, after, s0.users[email].id, sid, t)
    ensures ValidRun(cfg, s0, run) && ArrivesFirst(run, header, Email(email))
    ensures var s := After(cfg, s0, run); s.rows == after && s.clock == t.stamped && Answered(s, 0, cfg.Sign(sid))
  {
    hide ArrivesFirst, ValidRun, After, Later;
    run := ReachSelect(cfg, s0, header, email, t.looked);
    var userId := s0.users[email].id;
    var q := Request(email, userId, t.looked - cfg.Window(), Selecting, NoChange);
    QuietLater(cfg, s0, t.looked, q, 0, Hit(t.i));
    run := ExtendLater(cfg, s0, run, 0, Hit(t.i));
    QuietLater(cfg, s0, t.looked, q.(pc := Rebuilding(sid)), t.built - t.looked, Go);
    run := ExtendLater(cfg, s0, run, t.built - t.looked, Go);
    var data := BuildSessionData(userId, cfg.days, t.built);
    QuietLater(cfg, s0, t.built, q.(pc := Stamping(sid, data)), t.stamped - t.built, Go);
    run := ExtendLater(cfg, s0, run, t.stamped - t.built, Go);
    WriteLater(cfg, s0, t.stamped, q.(pc := Updating(sid, data, t.stamped)));
    run := ExtendLater(cfg, s0, run, 0, Go);
  }

  lemma WriteLater(cfg: Config, s0: State, clock: int, q: Request)
    requires q.pc.Updating? || q.pc.Inserting?
    ensures var s := Mid(s0, clock, q);
            var sid := if q.pc.Updating? then q.pc.sid else q.pc.row.sessionId;
            && Enabled(s.(clock := s.clock + 0), Proceed(0, Go))
            && var s' := Later(cfg, s, 0, Go);
               && s'.clock == clock && Answered(s', 0, cfg.Sign(sid))
               && s'.rows == (if q.pc.Updating? then Refreshed(s0.rows, sid, q.pc.data, q.pc.now)
                 else s0.rows + [q.pc.row])
  {
  }

  lemma DrawLater(cfg: Config, s0: State, clock: int, q: Request, elapsed: nat, bytes: seq<Byte>, random: seq<Byte>)
    requires q.pc.Drawing? && |bytes| == 24 && |random| == 8 && Encode(UrlSafe, bytes) !in s0.used
    ensures var s := Mid(s0, clock, q);
            && Enabled(s.(clock := s.clock + elapsed), Proceed(0, Draw(bytes, random)))
            && Later(cfg, s, elapsed, Draw(bytes, random)) ==
               Mid(s0.(used := s0.used + {Encode(UrlSafe, bytes)}), clock + elapsed,
                   q.(pc := Building(Encode(UrlSafe, bytes), ObjectId((clock + elapsed) / NS, random))))
  {
  }

  /** Through the SELECT that finds nothing to the drawn IDs. */
  lemma ReachDrawn(cfg: Config, s0: State, header: string, email: string, t: Trace, sid: string)
    returns (run: seq<Action>)
    requires Init(s0) && !HasGhostSessionCookie(header) && s0.clock <= t.looked
    requires email in s0.users && s0.users[email].status == "active"
    requires t.Created? && t.looked <= t.drawn && |t.bytes| == 24 && |t.random| == 8 && sid == Encode(UrlSafe, t.bytes)
    requires sid !in s0.used && NoMatch(s0.rows, s0.users[email].id, t.looked - cfg.Window())
    ensures ValidRun(cfg, s0, run) && ArrivesFirst(run, header, Email(email))
    ensures After(cfg, s0, run) ==
            Mid(s0.(used := s0.used + {sid}), t.drawn,
                Request(email, s0.users[email].id, t.looked - cfg.Window(),
                  Building(sid, ObjectId(t.drawn / NS, t.random)), NoChange))
  {
    hide ArrivesFirst, ValidRun, After, Later, ObjectId, Encode;
    run := ReachSelect(cfg, s0, header, email, t.looked);
    var q := Request(email, s0.users[email].id, t.looked - cfg.Window(), Selecting, NoChange);
    QuietLater(cfg, s0, t.looked, q, 0, Go);
    run := ExtendLater(cfg, s0, run, 0, Go);
    DrawLater(cfg, s0, t.looked, q.(pc := Drawing), t.drawn - t.looked, t.bytes, t.random);
    run := ExtendLater(cfg, s0, run, t.drawn - t.looked, Draw(t.bytes, t.random));
  }

  /** Through building and stamping the new row to the INSERT. */
  lemma ReachInsert(cfg: Config, s0: State, header: string, email: string, t: Trace, sid: string)
    returns (run: seq<Action>)
    requires Init(s0) && !HasGhostSessionCookie(header) && s0.clock <= t.looked
    requires email in s0.users && s0.users[email].status == "active"
    requires t.Created? && t.looked <= t.drawn <= t.built <= t.stamped
    requires |t.bytes| == 24 && |t.random| == 8 && sid == Encode(UrlSafe, t.bytes)
    requires sid !in s0.used && NoMatch(s0.rows, s0.users[email].id, t.looked - cfg.Window())
    ensures ValidRun(cfg, s0, run) && ArrivesFirst(run, header, Email(email))
    ensures After(cfg, s0, run) ==
            Mid(s0.(used := s0.used + {sid}), t.stamped,
                Request(email, s0.users[email].id, t.looked - cfg.Window(),
                  Inserting(NewRow(cfg, s0.users[email].id, sid, t)), NoChange))
  {
    hide ArrivesFirst, ValidRun, After, Later, ObjectId, Encode, BuildSessionData, NoMatch;
    run := ReachDrawn(cfg, s0, header, email, t, sid);
    var userId := s0.users[email].id;
    var oid := ObjectId(t.drawn / NS, t.random);
    var q := Request(email, userId, t.looked - cfg.Window(), Building(sid, oid), NoChange);
    var s1 := s0.(used := s0.used + {sid});
    QuietLater(cfg, s1, t.drawn, q, t.built - t.drawn, Go);
    run := ExtendLater(cfg, s0, run, t.built - t.drawn, Go);
    var data := BuildSessionData(userId, cfg.days, t.built);
    QuietLater(cfg, s1, t.built, q.(pc := Timing(sid, oid, data)), t.stamped - t.built, Go);
    run := ExtendLater(cfg, s0, run, t.stamped - t.built, Go);
  }

  function NewRow(cfg: Config, userId: string, sid: string, t: Trace): Row
    requires t.Created? && |t.random| == 8
  {
    Row(ObjectId(t.drawn / NS, t.random), sid, userId, BuildSessionData(userId, cfg.days, t.built), t.stamped,
      t.stamped)
  }

  lemma InsertedIs(cfg: Config, rows: seq<Row>, after: seq<Row>, userId: string, sid: string, t: Trace)
    requires InsertedNew(cfg, rows, after, userId, sid, t)
    ensures t.Created? && t.drawn <= t.built <= t.stamped && |t.bytes| == 24 && |t.random| == 8
    ensures sid == Encode(UrlSafe, t.bytes) && after == rows + [NewRow(cfg, userId, sid, t)]
    ensures NewRow(cfg, userId, sid, t).sessionId == sid
  {
  }

  lemma CreationIsARun(cfg: Config, s0: State, header: string, email: string, t: Trace, sid: string, after: seq<Row>)
    returns (run: seq<Action>)
    requires Init(s0) && !HasGhostSessionCookie(header) && s0.clock <= t.looked
    requires email in s0.users && s0.users[email].status == "active"
    requires InsertedNew(cfg, s0.rows, after, s0.users[email].id, sid, t) && t.looked <= t.drawn && sid !in s0.used
    requires NoMatch(s0.rows, s0.users[email].id, t.looked - cfg.Window())
    ensures ValidRun(cfg, s0, run) && ArrivesFirst(run, header, Email(email))
    ensures var s := After(cfg, s0, run); s.rows == after && s.clock == t.stamped && Answered(s, 0, cfg.Sign(sid))
  {
    hide ArrivesFirst, ValidRun, After, Later, ObjectId, Encode, BuildSessionData, NoMatch, InsertedNew, NewRow,
      Config.Window, Config.Sign;
    InsertedIs(cfg, s0.rows, after, s0.users[email].id, sid, t);
    run := ReachInsert(cfg, s0, header, email, t, sid);
    var userId := s0.users[email].id;
    var q := Request(email, userId, t.looked - cfg.Window(), Inserting(NewRow(cfg, userId, sid, t)), NoChange);
    WriteLater(cfg, s0.(used := s0.used + {sid}), t.stamped, q);
    run := ExtendLater(cfg, s0, run, 0, Go);
  }

  lemma ArrivingIs(header: string, v: Verdict)
    ensures var pc := Arriving(header, v).pc;
            (v.Email? && pc.LookingUp?) || pc == Done(if v.Login? then ToLogin(v.url, v.cookies) else Pass)
  {
  }

  lemma LookupFails(cfg: Config, s: State, q: Request)
    requires q.pc.LookingUp?
    ensures CanChoose(s, q, Fail(false)) && Advance(cfg, s, q, Fail(false)) == Quietly(q, Done(Pass))
  {
  }

  lemma PassIsARun(cfg: Config, s0: State, header: string, v: Verdict) returns (run: seq<Action>)
    requires Init(s0)
    ensures ValidRun(cfg, s0, run) && ArrivesFirst(run, header, v)
    ensures var s, a := After(cfg, s0, run), if v.Login? then ToLogin(v.url, v.cookies) else Pass;
            s.rows == s0.rows && s.clock == s0.clock && 0 in s.reqs && s.reqs[0].pc == Done(a)
  {
    hide ArrivesFirst, ValidRun, After, Later, Arriving, Advance, CanChoose;
    run := ArriveFirst(cfg, s0, header, v);
    var q := Arriving(header, v);
    ArrivingIs(header, v);
    assert After(cfg, s0, run) == Mid(s0, s0.clock, q);
    if q.pc.LookingUp? {
      LookupFails(cfg, Mid(s0, s0.clock, q), q);
      QuietLater(cfg, s0, s0.clock, q, 0, Fail(false));
      run := ExtendLater(cfg, s0, run, 0, Fail(false));
    }
  }

  /** Every call, from any table, is a run that ends in the same table with the same answer. */
  lemma CallIsARun(cfg: Config, users: map<string, User>, rows: seq<Row>, after: seq<Row>,
                   header: string, v: Verdict, a: Answer, start: int, end: int, t: Trace) returns (run: seq<Action>)
    requires CallDid(cfg, users, rows, after, header, v, a, start, end, t)
    requires DistinctIds(rows) && forall sid <- Ids(rows) :: SessionIdForm(sid)
    requires a.Plant? && t.Created? ==> Encode(UrlSafe, t.bytes) !in Ids(rows)
    ensures var s0 := Start(users, rows, start);
            && Init(s0) && ValidRun(cfg, s0, run) && ArrivesFirst(run, header, v)
            && var s := After(cfg, s0, run);
               s.rows == after && 0 in s.reqs && s.reqs[0].pc == Done(a) && (start <= end ==> s.clock <= end)
  {
    hide ValidRun, After;
    var s0 := Start(users, rows, start);
    if a.Plant? {
      var userId := users[v.email].id;
      var sid :| CookieSigning.Unsign(a.cookie, cfg.secret, cfg.mac) == Some(sid) &&
        (FoundAndRefreshed(cfg, rows, after, userId, sid, t) ||
         (InsertedNew(cfg, rows, after, userId, sid, t) && t.looked <= t.drawn &&
           NoMatch(rows, userId, t.looked - cfg.Window())));
      SignVerifies(cfg, a.cookie, sid);
      if t.Reused? {
        run := ReuseIsARun(cfg, s0, header, v.email, t, sid, after);
      } else {
        run := CreationIsARun(cfg, s0, header, v.email, t, sid, after);
      }
    } else {
      run := PassIsARun(cfg, s0, header, v);
    }
  }

  /** One call touches only rows of the user with the reported e-mail address. */
  lemma CallTouchesOwnRows(cfg: Config, users: map<string, User>, rows: seq<Row>, after: seq<Row>,
                           header: string, v: Verdict, a: Answer, start: int, end: int, t: Trace)
    requires CallDid(cfg, users, rows, after, header, v, a, start, end, t) && DistinctIds(rows)
    ensures after == rows || (a.Plant? && OnlyOwnRows(rows, after, users[v.email].id))
  {
    if a.Plant? && t.Reused? {
      forall j | 0 <= j < |rows| && j != t.i ensures rows[j].sessionId != rows[t.i].sessionId {
      }
    }
  }
}
