/**
 Any number of Check calls, on any number of replicas, over one `sessions` table. Every clock
 reading and every SQL statement is one step of one request; between two steps of a request any
 other request, the clock and Ghost itself may act.
 */
module Interleaving {
  import opened Wrappers
  import opened Base64
  import opened Identifiers
  import opened Lifetime
  import opened SessionTable
  import CookieSigning
  import CookieHeader

  datatype Config = Config(days: Int64, secret: string, mac: CookieSigning.Mac) {
    function Window(): int {
      WindowNanos(days)
    }

    function Sign(sid: string): string {
      CookieSigning.SignCookie(sid, secret, mac)
    }
  }

  /** The signature of a cookie is that of its session ID under the configured secret, and of no other ID. */
  lemma SignVerifies(cfg: Config, cookie: string, sid: string)
    ensures CookieSigning.Unsign(cookie, cfg.secret, cfg.mac) == Some(sid) <==> cookie == cfg.Sign(sid)
  {
    CookieSigning.UnsignIffSigned(cookie, sid, cfg.secret, cfg.mac);
  }

  datatype User = User(id: string, status: string)

  /** What the forward-auth call said about the browser. */
  datatype Verdict = Email(email: string) | Login(url: string, cookies: seq<string>) | Unavailable

  /** What Check answers: let through, send to the login page, or plant the session cookie. */
  datatype Answer = Pass | ToLogin(url: string, cookies: seq<string>) | Plant(cookie: string)

  /** The next thing a request will do. `sid` and `oid` are session and object ID. */
  datatype Pc =
    | LookingUp
    | TakingCutoff
    | Selecting
    | Rebuilding(sid: string)
    | Stamping(sid: string, data: SessionData)
    | Updating(sid: string, data: SessionData, now: int)
    | Drawing
    | Building(sid: string, oid: string)
    | Timing(sid: string, oid: string, data: SessionData)
    | Inserting(row: Row)
    | Done(answer: Answer)

  /** A change of the table. */
  datatype Change =
    | NoChange
    | Added(row: Row)
    | Updated(sid: string, data: SessionData, now: int)

  /** `userId` and `cutoff` mean something once the request has got past the step that sets them. */
  datatype Request = Request(email: string, userId: string, cutoff: int, pc: Pc, effect: Change)

  /** How the environment decides a step: it goes through, it fails, the row it returns, the bytes drawn. */
  datatype Choice =
    | Go
    | Fail(applied: bool)
    | Hit(i: nat)
    | Draw(bytes: seq<Byte>, random: seq<Byte>)

  datatype Outcome = Outcome(request: Request, change: Change, drawn: set<string>)

  type ReqId = nat

  /** History of one INSERT: who ran it and which requests were then about to insert for the same user. */
  datatype Insertion = Insertion(req: ReqId, row: Row, rivals: set<ReqId>)

  /** `used`, `deleted` and `log` are history: IDs ever drawn, IDs of deleted rows, INSERTs so far. */
  datatype State = State(
    clock: int, users: map<string, User>, rows: seq<Row>, reqs: map<ReqId, Request>,
    used: set<string>, deleted: set<string>, log: seq<Insertion>)

  datatype Action =
    | Tick(elapsed: nat)
    | SetUsers(users: map<string, User>)
    | GhostInsert(row: Row)
    | GhostTouch(i: nat, data: SessionData, now: int)
    | GhostDelete(i: nat)
    | Arrive(r: ReqId, header: string, verdict: Verdict)
    | Proceed(r: ReqId, choice: Choice)

  // ------------------------------------------------------------- one step of a request

  function Arriving(header: string, verdict: Verdict): Request {
    match verdict
    case Unavailable => Request("", "", 0, Done(Pass), NoChange)
    case Login(url, cookies) => Request("", "", 0, Done(ToLogin(url, cookies)), NoChange)
    case Email(email) =>
      if CookieHeader.HasGhostSessionCookie(header)
      then Request(email, "", 0, Done(Pass), NoChange)
      else Request(email, "", 0, LookingUp, NoChange)
  }

  /** Which decisions the environment can take at this point of the request. */
  predicate CanChoose(s: State, q: Request, c: Choice) {
    match q.pc
    case LookingUp => c.Go? || c == Fail(false)
    case Selecting =>
      c == Fail(false) ||
      (c.Go? && NoMatch(s.rows, q.userId, q.cutoff)) ||
      (c.Hit? && NewestMatch(s.rows, c.i, q.userId, q.cutoff))
    case Drawing =>
      c == Fail(false) ||
      (c.Draw? && |c.bytes| == 24 && |c.random| == 8 && Encode(UrlSafe, c.bytes) !in s.used)
    case Updating(_, _, _) => c.Go? || c.Fail?
    case Inserting(_) => c.Go? || c.Fail?
    case Done(_) => false
    case _ => c.Go?
  }

  function Quietly(q: Request, pc: Pc): Outcome {
    Outcome(q.(pc := pc), NoChange, {})
  }

  /** A statement that was reported failed may have been applied all the same. */
  function Writing(q: Request, c: Choice, change: Change, cookie: string): Outcome {
    if c.Go? then Outcome(q.(pc := Done(Plant(cookie)), effect := change), change, {})
    else if c == Fail(true) then Outcome(q.(pc := Done(Pass), effect := change), change, {})
    else Quietly(q, Done(Pass))
  }

  function Advance(cfg: Config, s: State, q: Request, c: Choice): Outcome
    requires CanChoose(s, q, c)
  {
    if c == Fail(false) then Quietly(q, Done(Pass))
    else
      match q.pc
      case LookingUp =>
        if q.email in s.users && s.users[q.email].status == "active"
        then Quietly(q.(userId := s.users[q.email].id), TakingCutoff)
        else Quietly(q, Done(Pass))
      case TakingCutoff => Quietly(q.(cutoff := s.clock - cfg.Window()), Selecting)
      case Selecting => Quietly(q, if c.Hit? then Rebuilding(s.rows[c.i].sessionId) else Drawing)
      case Rebuilding(sid) => Quietly(q, Stamping(sid, BuildSessionData(q.userId, cfg.days, s.clock)))
      case Stamping(sid, data) => Quietly(q, Updating(sid, data, s.clock))
      case Updating(sid, data, now) => Writing(q, c, Updated(sid, data, now), cfg.Sign(sid))
      case Drawing =>
        var sid := Encode(UrlSafe, c.bytes);
        Outcome(q.(pc := Building(sid, ObjectId(s.clock / NS, c.random))), NoChange, {sid})
      case Building(sid, oid) => Quietly(q, Timing(sid, oid, BuildSessionData(q.userId, cfg.days, s.clock)))
      case Timing(sid, oid, data) =>
        Quietly(q, Inserting(Row(oid, sid, q.userId, data, s.clock, s.clock)))
      case Inserting(row) => Writing(q, c, Added(row), cfg.Sign(row.sessionId))
  }

  // ------------------------------------------------------------- one step of the whole

  function Changed(rows: seq<Row>, change: Change): seq<Row> {
    match change
    case NoChange => rows
    case Added(row) => rows + [row]
    case Updated(sid, data, now) => Refreshed(rows, sid, data, now)
  }

  /** The request found no row and has not yet run its INSERT. */
  predicate AboutToInsert(q: Request) {
    q.pc.Drawing? || q.pc.Building? || q.pc.Timing? || q.pc.Inserting?
  }

  function Rivals(s: State, userId: string): set<ReqId> {
    set r <- s.reqs | AboutToInsert(s.reqs[r]) && s.reqs[r].userId == userId
  }

  predicate Enabled(s: State, a: Action) {
    match a
    case Tick(_) => true
    case SetUsers(_) => true
    case GhostInsert(row) => row.sessionId !in s.used && SessionIdForm(row.sessionId)
    case GhostTouch(i, data, _) =>
      i < |s.rows| && data.userId == s.rows[i].data.userId && (s.rows[i].data.verified ==> data.verified)
    case GhostDelete(i) => i < |s.rows|
    case Arrive(r, _, _) => r !in s.reqs
    case Proceed(r, c) => r in s.reqs && CanChoose(s, s.reqs[r], c)
  }

  function Step(cfg: Config, s: State, a: Action): State
    requires Enabled(s, a)
  {
    match a
    case Tick(elapsed) => s.(clock := s.clock + elapsed)
    case SetUsers(users) => s.(users := users)
    case GhostInsert(row) => s.(rows := s.rows + [row], used := s.used + {row.sessionId})
    case GhostTouch(i, data, now) => s.(rows := s.rows[i := s.rows[i].(data := data, updatedAt := now)])
    case GhostDelete(i) =>
      s.(rows := s.rows[..i] + s.rows[i + 1..], deleted := s.deleted + {s.rows[i].sessionId})
    case Arrive(r, header, verdict) => s.(reqs := s.reqs[r := Arriving(header, verdict)])
    case Proceed(r, c) =>
      var o := Advance(cfg, s, s.reqs[r], c);
      s.(rows := Changed(s.rows, o.change),
         reqs := s.reqs[r := o.request],
         used := s.used + o.drawn,
         log := if o.change.Added? then s.log + [Insertion(r, o.change.row, Rivals(s, o.request.userId))] else s.log)
  }

  /** The table may hold anything to begin with, as long as no two rows share a session ID. */
  predicate Init(s: State) {
    DistinctIds(s.rows) && Ids(s.rows) == s.used && (forall sid <- s.used :: SessionIdForm(sid)) &&
    s.reqs == map[] && s.deleted == {} && s.log == []
  }

  lemma NoRequestsAtFirst(s: State)
    requires Init(s)
    ensures s.reqs == map[]
  {
  }

  predicate ValidRun(cfg: Config, s: State, run: seq<Action>)
    decreases |run|
  {
    run == [] || (Enabled(s, run[0]) && ValidRun(cfg, Step(cfg, s, run[0]), run[1..]))
  }

  function After(cfg: Config, s: State, run: seq<Action>): State
    requires ValidRun(cfg, s, run)
    decreases |run|
  {
    if run == [] then s else After(cfg, Step(cfg, s, run[0]), run[1..])
  }

  /** Appending one enabled action to a run. */
  lemma {:induction false} Extend(cfg: Config, s: State, run: seq<Action>, a: Action)
    requires ValidRun(cfg, s, run) && Enabled(After(cfg, s, run), a)
    ensures ValidRun(cfg, s, run + [a])
    ensures After(cfg, s, run + [a]) == Step(cfg, After(cfg, s, run), a)
    decreases |run|
  {
    hide Step, Enabled;
    if run == [] {
      assert ([a])[1..] == [];
      assert run + [a] == [a];
      assert ValidRun(cfg, Step(cfg, s, a), []);
    } else {
      assert (run + [a])[0] == run[0] && (run + [a])[1..] == run[1..] + [a];
      Extend(cfg, Step(cfg, s, run[0]), run[1..], a);
    }
  }
}
