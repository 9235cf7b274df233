/** The session store adapter: the database and the clock as objects, one call at a time. */
module SessionStore {
  import opened Wrappers
  import opened Base64
  import opened Identifiers
  import opened Lifetime
  import opened SessionTable
  import opened Interleaving
  import CookieSigning

  // ------------------------------------------------------------- the world

  /** Time passes by itself between two readings. */
  class Clock {
    var now: int

    constructor (start: int)
      ensures now == start
    {
      now := start;
    }

    method Now() returns (t: int)
      modifies this
      ensures old(now) <= t == now
    {
      var passed: nat :| true;
      now := now + passed;
      t := now;
    }
  }

  /** A statement may fail; a failed statement changes nothing. */
  class Database {
    var users: map<string, User>
    var sessions: seq<Row>
    /** How many statements have failed so far. */
    ghost var faults: nat

    constructor (users: map<string, User>, sessions: seq<Row>)
      ensures this.users == users && this.sessions == sessions && faults == 0
    {
      this.users := users;
      this.sessions := sessions;
      faults := 0;
    }

    method SelectUser(email: string) returns (r: Result<Option<User>, string>)
      modifies `faults
      ensures faults == old(faults) + (if r.Err? then 1 else 0)
      ensures r.Ok? ==> r.value == if email in users then Some(users[email]) else None
    {
      var failed: bool := *;
      if failed {
        faults := faults + 1;
        return Err("users: connection lost");
      }
      r := Ok(if email in users then Some(users[email]) else None);
    }

    method SelectSession(userId: string, cutoff: int) returns (r: Result<Option<Row>, string>)
      modifies `faults
      ensures faults == old(faults) + (if r.Err? then 1 else 0)
      ensures r.Ok? && r.value.None? ==> NoMatch(sessions, userId, cutoff)
      ensures r.Ok? && r.value.Some? ==>
                exists i: nat :: NewestMatch(sessions, i, userId, cutoff) && r.value.value == sessions[i]
    {
      var failed: bool := *;
      if failed {
        faults := faults + 1;
        return Err("sessions: connection lost");
      }
      if i: nat :| i < |sessions| && NewestMatch(sessions, i, userId, cutoff) {
        r := Ok(Some(sessions[i]));
      } else {
        NewestExists(sessions, userId, cutoff);
        r := Ok(None);
      }
    }

    method UpdateSession(sessionId: string, data: SessionData, now: int) returns (ok: bool)
      modifies `sessions, `faults
      ensures faults == old(faults) + (if ok then 0 else 1)
      ensures sessions == if ok then Refreshed(old(sessions), sessionId, data, now) else old(sessions)
    {
      ok := *;
      if ok {
        sessions := Refreshed(sessions, sessionId, data, now);
      } else {
        faults := faults + 1;
      }
    }

    method InsertSession(row: Row) returns (ok: bool)
      modifies `sessions, `faults
      ensures faults == old(faults) + (if ok then 0 else 1)
      ensures sessions == if ok then old(sessions) + [row] else old(sessions)
    {
      ok := *;
      if ok {
        sessions := sessions + [row];
      } else {
        faults := faults + 1;
      }
    }
  }

  // ------------------------------------------------------------- what a successful call did

  /** The clock readings of one call, the row it found or the bytes it drew. */
  datatype Trace =
    | Reused(i: nat, looked: int, built: int, stamped: int)
    | Created(looked: int, drawn: int, built: int, stamped: int, bytes: seq<Byte>, random: seq<Byte>)

  ghost predicate FoundAndRefreshed(cfg: Config, rows: seq<Row>, after: seq<Row>, userId: string, sid: string,
                              t: Trace) {
    t.Reused? && t.looked <= t.built <= t.stamped &&
    NewestMatch(rows, t.i, userId, t.looked - cfg.Window()) && sid == rows[t.i].sessionId &&
    after == Refreshed(rows, sid, BuildSessionData(userId, cfg.days, t.built), t.stamped)
  }

  ghost predicate InsertedNew(cfg: Config, rows: seq<Row>, after: seq<Row>, userId: string, sid: string, t: Trace) {
    t.Created? && t.drawn <= t.built <= t.stamped && |t.bytes| == 24 && |t.random| == 8 &&
    sid == Encode(UrlSafe, t.bytes) &&
    after == rows + [Row(ObjectId(t.drawn / NS, t.random), sid, userId,
                         BuildSessionData(userId, cfg.days, t.built), t.stamped, t.stamped)]
  }

  // ------------------------------------------------------------- the adapter

  datatype Session = Session(sessionId: string, signedCookieValue: string, userId: string, createdAt: int)

  /** What the random source gives: `None` is a failed read. */
  datatype Entropy = Entropy(sessionBytes: Option<seq<Byte>>, objectBytes: Option<seq<Byte>>) {
    predicate Complete() {
      sessionBytes.Some? && objectBytes.Some?
    }
  }

  predicate ValidEntropy(e: Entropy) {
    (e.sessionBytes.Some? ==> |e.sessionBytes.value| == 24) && (e.objectBytes.Some? ==> |e.objectBytes.value| == 8)
  }

  class Store {
    const db: Database
    const clock: Clock
    const cfg: Config

    constructor (db: Database, clock: Clock, cfg: Config)
      ensures this.db == db && this.clock == clock && this.cfg == cfg
    {
      this.db, this.clock, this.cfg := db, clock, cfg;
    }

    /**
     A session comes back exactly when some row is in the window that starts one lifetime before a clock
     reading taken within the call; the newest of them is then refreshed, whatever it held before.
     */
    method FindByUserId(userId: string) returns (r: Result<Option<Session>, string>, ghost t: Trace)
      modifies db`sessions, db`faults, clock
      ensures old(clock.now) <= clock.now
      ensures old(db.faults) <= db.faults && (r.Err? <==> db.faults > old(db.faults))
      ensures !(r.Ok? && r.value.Some?) ==> db.sessions == old(db.sessions)
      ensures r.Ok? && r.value.None? ==>
                t.Created? && old(clock.now) <= t.looked <= clock.now &&
                NoMatch(db.sessions, userId, t.looked - cfg.Window())
      ensures r.Ok? && r.value.Some? ==>
                var s := r.value.value;
                FoundAndRefreshed(cfg, old(db.sessions), db.sessions, userId, s.sessionId, t) &&
                old(clock.now) <= t.looked && t.stamped <= clock.now &&
                s == Session(s.sessionId, cfg.Sign(s.sessionId), userId, old(db.sessions)[t.i].createdAt) &&
                CookieSigning.Unsign(s.signedCookieValue, cfg.secret, cfg.mac) == Some(s.sessionId)
    {
      hide BuildSessionData, CookieSigning.Unsign, Config.Sign, Refreshed;
      var looked := clock.Now();
      t := Created(looked, looked, looked, looked, [], []);
      var found := db.SelectSession(userId, looked - cfg.Window());
      if found.Err? {
        return Err("querying sessions"), t;
      }
      if found.value.None? {
        return Ok(None), t;
      }
      var row := found.value.value;
      ghost var i: nat :| NewestMatch(db.sessions, i, userId, looked - cfg.Window()) && row == db.sessions[i];
      var built := clock.Now();
      var data := BuildSessionData(userId, cfg.days, built);
      var stamped := clock.Now();
      var ok := db.UpdateSession(row.sessionId, data, stamped);
      if !ok {
        return Err("updating session_data"), t;
      }
      SignVerifies(cfg, cfg.Sign(row.sessionId), row.sessionId);
      t := Reused(i, looked, built, stamped);
      r := Ok(Some(Session(row.sessionId, cfg.Sign(row.sessionId), row.userId, row.createdAt)));
    }

    method Create(userId: string, entropy: Entropy) returns (r: Result<Session, string>, ghost t: Trace)
      requires ValidEntropy(entropy)
      modifies db`sessions, db`faults, clock
      ensures old(clock.now) <= clock.now
      ensures old(db.faults) <= db.faults && (r.Err? <==> db.faults > old(db.faults) || !entropy.Complete())
      ensures r.Err? ==> db.sessions == old(db.sessions)
      ensures r.Ok? ==>
                var s := r.value;
                InsertedNew(cfg, old(db.sessions), db.sessions, userId, s.sessionId, t) &&
                t.looked == old(clock.now) <= t.drawn && t.stamped <= clock.now &&
                s == Session(s.sessionId, cfg.Sign(s.sessionId), userId, t.stamped) &&
                CookieSigning.Unsign(s.signedCookieValue, cfg.secret, cfg.mac) == Some(s.sessionId)
    {
      ghost var start := clock.now;
      t := Created(start, start, start, start, [], []);
      var sid := GenerateSessionId(entropy.sessionBytes);
      if sid.Err? {
        return Err("generating session ID"), t;
      }
      var drawn := clock.Now();
      var oid := GenerateObjectId(drawn / NS, entropy.objectBytes);
      if oid.Err? {
        return Err("generating object ID"), t;
      }
      var built := clock.Now();
      var data := BuildSessionData(userId, cfg.days, built);
      var stamped := clock.Now();
      var ok := db.InsertSession(Row(oid.value, sid.value, userId, data, stamped, stamped));
      if !ok {
        return Err("inserting session"), t;
      }
      SignVerifies(cfg, cfg.Sign(sid.value), sid.value);
      t := Created(start, drawn, built, stamped, entropy.sessionBytes.value, entropy.objectBytes.value);
      r := Ok(Session(sid.value, cfg.Sign(sid.value), userId, stamped));
    }
  }

  // ------------------------------------------------------------- what success means

  /** One lifetime in nanoseconds. */
  function Life(days: int): int {
    days * 86_400_000_000_000
  }

  /** What a session created or refreshed in a call gives the browser: it lasts one lifetime from within the call. */
  predicate FreshFor(data: SessionData, userId: string, days: int, start: int, end: int) {
    && data.userId == userId && data.verified && data.origin == "" && data.userAgent == "" && data.ip == ""
    && start + Life(days) <= data.cookie.expires <= end + Life(days)
    && data.cookie.originalMaxAge == days * 86_400_000
  }

  lemma BuiltIsFresh(userId: string, days: Int64, built: int, start: int, end: int)
    requires 0 < days <= LAST_DAYS && start <= built <= end
    ensures FreshFor(BuildSessionData(userId, days, built), userId, days, start, end)
  {
    RepresentationsAgree(days);
  }

  /**
   The reused row is younger than one lifetime at the reading, the refresh leaves creation times and
   every other session alone, and the new expiry lies between call start + lifetime and call end +
   lifetime, however stale the old one was.
   */
  lemma ReuseIsFresh(cfg: Config, rows: seq<Row>, after: seq<Row>, userId: string, sid: string, t: Trace, start: int,
                     end: int)
    requires 0 < cfg.days <= LAST_DAYS && DistinctIds(rows)
    requires FoundAndRefreshed(cfg, rows, after, userId, sid, t) && start <= t.looked && t.stamped <= end
    ensures var row := after[t.i];
            && row.userId == userId && row.sessionId == sid
            && start - Life(cfg.days) <= row.createdAt == rows[t.i].createdAt
            && start <= row.updatedAt <= end && row.id == rows[t.i].id
            && FreshFor(row.data, userId, cfg.days, start, end)
    ensures forall j :: 0 <= j < |rows| && j != t.i ==> after[j] == rows[j]
    ensures forall r <- rows ::
              r.userId == userId && r.createdAt > rows[t.i].createdAt ==> r.createdAt < t.looked - Life(cfg.days)
  {
    BuiltIsFresh(userId, cfg.days, t.built, start, end);
    forall j | 0 <= j < |rows| && j != t.i ensures after[j] == rows[j] {
      assert rows[j].sessionId != rows[t.i].sessionId;
    }
  }

  /**
   The created row is the only change. Its session ID decodes to the bytes drawn, its object ID to the second of a
   clock reading within the call and the other bytes drawn; its times lie within the call, its expiry a lifetime later.
   */
  lemma CreationIsFresh(cfg: Config, rows: seq<Row>, after: seq<Row>, userId: string, sid: string, t: Trace,
                        start: int, end: int)
    requires 0 < cfg.days <= LAST_DAYS
    requires InsertedNew(cfg, rows, after, userId, sid, t) && 0 <= start <= t.drawn &&
      t.stamped <= end < 4_294_967_296_000_000_000
    ensures |after| == |rows| + 1 && after[..|rows|] == rows
    ensures var row := after[|rows|];
            && row.userId == userId && row.sessionId == sid && |sid| == 32 && Decode(UrlSafe, sid) == Some(t.bytes)
            && start <= row.createdAt == row.updatedAt <= end
            && FreshFor(row.data, userId, cfg.days, start, end)
            && HexDecode(row.id).Some?
            && var b := HexDecode(row.id).value;
               |b| == 12 && b[4..] == t.random &&
                 start / 1_000_000_000 <= TimeIn(b) == t.drawn / 1_000_000_000 <= end / 1_000_000_000
  {
    BuiltIsFresh(userId, cfg.days, t.built, start, end);
    SessionIdFormOfDraw(t.bytes);
    DecodeIffEncode(UrlSafe, sid, t.bytes);
    ObjectIdHoldsTime(t.drawn / NS, t.random);
  }
}
