/**
 What a request has done by a given step of a history: which of its own steps looked the user up, took
 the cutoff, ran the SELECT and built session_data, and what each of them did to the table.
 */
module Stories {
  import opened SessionTable
  import opened Interleaving
  import opened Histories

  // ------------------------------------------------------------- the request's own steps

  ghost predicate By(h: History, i: nat, r: ReqId, c: Choice) {
    i < |h.run| && h.run[i] == Proceed(r, c)
  }

  ghost predicate Own(h: History, i: nat, r: ReqId) {
    i < |h.run| && h.run[i].Proceed? && h.run[i].r == r
  }

  /** The request as it stands before step `i`. */
  ghost predicate Stands(h: History, i: nat, r: ReqId, q: Request) {
    i < |h.states| && r in h.states[i].reqs && h.states[i].reqs[r] == q
  }

  /** Own steps before `n`, but for `w`, leave the table as it is. */
  ghost predicate QuietBut(h: History, n: nat, r: ReqId, w: int)
    requires n < |h.states| == |h.run| + 1
  {
    forall i: nat :: i < n && i != w && Own(h, i, r) ==> h.states[i + 1].rows == h.states[i].rows
  }

  /** A statement of the request was applied and yet reported failed. */
  ghost predicate LostReply(h: History, n: nat, r: ReqId) {
    exists i: nat :: i < n && By(h, i, r, Fail(true))
  }

  // ------------------------------------------------------------- how it came to where it is

  /** The steps at which a request did what its variables now hold. */
  datatype Path = Path(lookup: nat, cutoff: nat, select: nat, build: nat)

  /** It found its user active. */
  ghost predicate LookedUp(h: History, i: nat, r: ReqId, email: string, userId: string) {
    By(h, i, r, Go) && i < |h.states| && email in h.states[i].users &&
      h.states[i].users[email] == User(userId, "active")
  }

  ghost predicate TookCutoff(cfg: Config, h: History, i: nat, r: ReqId, cutoff: int) {
    By(h, i, r, Go) && i < |h.states| && cutoff == h.states[i].clock - cfg.Window()
  }

  /** Its SELECT returned a newest row of the user in the window, with this session ID. */
  ghost predicate SawNewest(h: History, i: nat, r: ReqId, userId: string, cutoff: int, sid: string) {
    Own(h, i, r) && i < |h.states| && h.run[i].choice.Hit? &&
    var rows, k := h.states[i].rows, h.run[i].choice.i;
    NewestMatch(rows, k, userId, cutoff) && rows[k].sessionId == sid
  }

  /** Its SELECT found no row of the user in the window. */
  ghost predicate SawNone(h: History, i: nat, r: ReqId, userId: string, cutoff: int) {
    By(h, i, r, Go) && i < |h.states| && NoMatch(h.states[i].rows, userId, cutoff)
  }

  ghost predicate Built(cfg: Config, h: History, i: nat, r: ReqId, userId: string, data: SessionData) {
    By(h, i, r, Go) && i < |h.states| && data == BuildSessionData(userId, cfg.days, h.states[i].clock)
  }

  ghost function Stage(pc: Pc): nat {
    match pc
    case LookingUp => 0
    case Done(_) => 0
    case TakingCutoff => 1
    case Selecting => 2
    case Rebuilding(_) => 3
    case Drawing => 3
    case Building(_, _) => 3
    case _ => 4
  }

  /** The ID a request goes on with after a SELECT that found a row. */
  ghost predicate Refreshing(pc: Pc, sid: string) {
    match pc
    case Rebuilding(sid') => sid == sid'
    case Stamping(sid', _) => sid == sid'
    case Updating(sid', _, _) => sid == sid'
    case _ => false
  }

  ghost predicate Holds(pc: Pc, data: SessionData) {
    match pc
    case Stamping(_, data') => data == data'
    case Updating(_, data', _) => data == data'
    case Timing(_, _, data') => data == data'
    case Inserting(row) => data == row.data
    case _ => false
  }

  ghost predicate Traced(cfg: Config, h: History, n: nat, r: ReqId, q: Request, p: Path) {
    && (Stage(q.pc) >= 1 ==> p.lookup < n && LookedUp(h, p.lookup, r, q.email, q.userId))
    && (Stage(q.pc) >= 2 ==> p.lookup < p.cutoff < n && TookCutoff(cfg, h, p.cutoff, r, q.cutoff))
    && (Stage(q.pc) >= 3 ==>
          p.cutoff < p.select < n &&
          (AboutToInsert(q) || exists sid :: Refreshing(q.pc, sid)) &&
          (AboutToInsert(q) ==> SawNone(h, p.select, r, q.userId, q.cutoff)) &&
          (forall sid :: Refreshing(q.pc, sid) ==> SawNewest(h, p.select, r, q.userId, q.cutoff, sid)))
    && (Stage(q.pc) >= 4 ==>
          p.select < p.build < n && forall data :: Holds(q.pc, data) ==> Built(cfg, h, p.build, r, q.userId, data))
  }

  // ------------------------------------------------------------- what it wrote

  function Written(rows: seq<Row>, pc: Pc): seq<Row>
    requires pc.Updating? || pc.Inserting?
  {
    if pc.Updating? then Refreshed(rows, pc.sid, pc.data, pc.now) else rows + [pc.row]
  }

  function WrittenId(pc: Pc): string
    requires pc.Updating? || pc.Inserting?
  {
    if pc.Updating? then pc.sid else pc.row.sessionId
  }

  /** At step `w` the request `q` refreshed the row it saw, or inserted one after it saw none. */
  ghost predicate Wrote(cfg: Config, h: History, w: nat, r: ReqId, q: Request, p: Path) {
    && w < |h.run| && |h.states| == |h.run| + 1 && Stands(h, w, r, q) && (q.pc.Updating? || q.pc.Inserting?)
    && Traced(cfg, h, w, r, q, p)
    && h.states[w + 1].rows == Written(h.states[w].rows, q.pc)
  }

  ghost predicate SameUser(h: History, n: nat, r: ReqId, q: Request) {
    n < |h.states| && r in h.states[n].reqs && h.states[n].reqs[r].email == q.email &&
      h.states[n].reqs[r].userId == q.userId
  }

  /** The one write of the request, with the answer that followed it. */
  ghost predicate SoleWrite(cfg: Config, h: History, n: nat, r: ReqId, a: Answer, w: nat, q: Request, p: Path)
    requires n < |h.states| == |h.run| + 1
  {
    w < n && Wrote(cfg, h, w, r, q, p) && QuietBut(h, n, r, w) && SameUser(h, n, r, q) &&
    match a
    case Plant(cookie) => By(h, w, r, Go) && cookie == cfg.Sign(WrittenId(q.pc)) && !LostReply(h, n, r)
    case Pass => By(h, w, r, Fail(true))
    case ToLogin(_, _) => false
  }

  ghost predicate Finished(cfg: Config, h: History, n: nat, r: ReqId, a: Answer)
    requires n < |h.states| == |h.run| + 1
  {
    if a.Plant? || LostReply(h, n, r) then exists w: nat, q: Request, p: Path :: SoleWrite(cfg, h, n, r, a, w, q, p)
    else QuietBut(h, n, r, -1)
  }

  ghost predicate Underway(cfg: Config, h: History, n: nat, r: ReqId, q: Request)
    requires n < |h.states| == |h.run| + 1
  {
    QuietBut(h, n, r, -1) && !LostReply(h, n, r) && exists p: Path :: Traced(cfg, h, n, r, q, p)
  }

  ghost predicate Story(cfg: Config, h: History, n: nat, r: ReqId)
    requires n < |h.states| == |h.run| + 1
  {
    if r !in h.states[n].reqs then forall i: nat :: i < n ==> !Own(h, i, r)
    else if h.states[n].reqs[r].pc.Done? then Finished(cfg, h, n, r, h.states[n].reqs[r].pc.answer)
    else Underway(cfg, h, n, r, h.states[n].reqs[r])
  }

  // ------------------------------------------------------------- one step further

  /** A step of somebody else, or of the environment, leaves the story as it is. */
  lemma OthersStep(cfg: Config, h: History, n: nat, r: ReqId)
    requires |h.states| == |h.run| + 1 && n < |h.run| && StepAt(cfg, h, n) && Story(cfg, h, n, r)
    requires !Own(h, n, r) && !(h.run[n].Arrive? && h.run[n].r == r)
    ensures Story(cfg, h, n + 1, r)
  {
    hide Advance, Traced, Wrote, CanChoose, Changed, Arriving;
    SameRequest(cfg, h, n, r);
    if r in h.states[n].reqs {
      var q := h.states[n].reqs[r];
      if q.pc.Done? {
        if q.pc.answer.Plant? || LostReply(h, n, r) {
          var w: nat, q': Request, p: Path :| SoleWrite(cfg, h, n, r, q.pc.answer, w, q', p);
          assert SoleWrite(cfg, h, n + 1, r, q.pc.answer, w, q', p);
        }
      } else {
        var p: Path :| Traced(cfg, h, n, r, q, p);
        TracedLater(cfg, h, n, r, q, p);
      }
    }
  }

  lemma SameRequest(cfg: Config, h: History, n: nat, r: ReqId)
    requires |h.states| == |h.run| + 1 && n < |h.run| && StepAt(cfg, h, n)
    requires !Own(h, n, r) && !(h.run[n].Arrive? && h.run[n].r == r)
    ensures r in h.states[n + 1].reqs <==> r in h.states[n].reqs
    ensures r in h.states[n].reqs ==> h.states[n + 1].reqs[r] == h.states[n].reqs[r]
  {
    hide Advance, Arriving, Changed;
  }

  lemma TracedLater(cfg: Config, h: History, n: nat, r: ReqId, q: Request, p: Path)
    requires Traced(cfg, h, n, r, q, p)
    ensures Traced(cfg, h, n + 1, r, q, p)
  {
    hide LookedUp, TookCutoff, SawNewest, SawNone, Built;
  }

  lemma ArrivalStep(cfg: Config, h: History, n: nat, r: ReqId)
    requires |h.states| == |h.run| + 1 && n < |h.run| && StepAt(cfg, h, n) && Story(cfg, h, n, r)
    requires h.run[n].Arrive? && h.run[n].r == r
    ensures Story(cfg, h, n + 1, r)
  {
    var q := h.states[n + 1].reqs[r];
    assert q == Arriving(h.run[n].header, h.run[n].verdict);
    assert forall i: nat :: i < n + 1 ==> !Own(h, i, r);
    assert forall i: nat :: By(h, i, r, Fail(true)) ==> Own(h, i, r);
    if q.pc.LookingUp? {
      assert Traced(cfg, h, n + 1, r, q, Path(0, 0, 0, 0));
    }
  }

  /** The path after one more own step. */
  function Longer(p: Path, pc: Pc, n: nat): Path {
    match pc
    case LookingUp => p.(lookup := n)
    case TakingCutoff => p.(cutoff := n)
    case Selecting => p.(select := n)
    case Rebuilding(_) => p.(build := n)
    case Building(_, _) => p.(build := n)
    case _ => p
  }

  /** The next request after its own step. */
  function Next(cfg: Config, h: History, n: nat, q: Request): Request
    requires n < |h.run| && n < |h.states| && h.run[n].Proceed? && CanChoose(h.states[n], q, h.run[n].choice)
  {
    Advance(cfg, h.states[n], q, h.run[n].choice).request
  }

  ghost predicate Moves(cfg: Config, h: History, n: nat, r: ReqId, q: Request) {
    |h.states| == |h.run| + 1 && n < |h.run| && StepAt(cfg, h, n) && Own(h, n, r) && Stands(h, n, r, q)
  }

  lemma MovesOn(cfg: Config, h: History, n: nat, r: ReqId, q: Request)
    requires Moves(cfg, h, n, r, q)
    ensures CanChoose(h.states[n], q, h.run[n].choice) && Stands(h, n + 1, r, Next(cfg, h, n, q))
    ensures h.states[n + 1].rows == Changed(h.states[n].rows, Advance(cfg, h.states[n], q, h.run[n].choice).change)
  {
    hide Advance, CanChoose, Changed;
  }

  /** Up to the cutoff. */
  lemma EarlyTraced(cfg: Config, h: History, n: nat, r: ReqId, q: Request, p: Path)
    requires Moves(cfg, h, n, r, q) && Traced(cfg, h, n, r, q, p) && Stage(q.pc) < 2
    requires CanChoose(h.states[n], q, h.run[n].choice) && !Next(cfg, h, n, q).pc.Done?
    ensures Traced(cfg, h, n + 1, r, Next(cfg, h, n, q), Longer(p, q.pc, n))
  {
    hide StepAt, SawNewest, SawNone, Built, AboutToInsert, Refreshing, Holds;
  }

  lemma SelectTraced(cfg: Config, h: History, n: nat, r: ReqId, q: Request, p: Path)
    requires Moves(cfg, h, n, r, q) && Traced(cfg, h, n, r, q, p) && q.pc.Selecting?
    requires CanChoose(h.states[n], q, h.run[n].choice) && !Next(cfg, h, n, q).pc.Done?
    ensures Traced(cfg, h, n + 1, r, Next(cfg, h, n, q), Longer(p, q.pc, n))
  {
    hide StepAt, LookedUp, TookCutoff, Built, Holds, NewestMatch, NoMatch;
    var q' := Next(cfg, h, n, q);
    if q'.pc.Rebuilding? {
      assert Refreshing(q'.pc, q'.pc.sid);
    }
  }

  lemma LateTraced(cfg: Config, h: History, n: nat, r: ReqId, q: Request, p: Path)
    requires Moves(cfg, h, n, r, q) && Traced(cfg, h, n, r, q, p) && Stage(q.pc) >= 3
    requires CanChoose(h.states[n], q, h.run[n].choice) && !Next(cfg, h, n, q).pc.Done?
    ensures Traced(cfg, h, n + 1, r, Next(cfg, h, n, q), Longer(p, q.pc, n))
  {
    hide StepAt, LookedUp, TookCutoff, SawNewest, SawNone, BuildSessionData;
    var q' := Next(cfg, h, n, q);
    if !AboutToInsert(q) {
      var sid :| Refreshing(q.pc, sid);
      assert Refreshing(q'.pc, sid);
    }
  }

  lemma OwnTraced(cfg: Config, h: History, n: nat, r: ReqId, q: Request, p: Path)
    requires Moves(cfg, h, n, r, q) && Traced(cfg, h, n, r, q, p) && !q.pc.Done?
    requires CanChoose(h.states[n], q, h.run[n].choice) && !Next(cfg, h, n, q).pc.Done?
    ensures Traced(cfg, h, n + 1, r, Next(cfg, h, n, q), Longer(p, q.pc, n))
  {
    hide Moves, Traced, Next, CanChoose;
    if Stage(q.pc) < 2 {
      EarlyTraced(cfg, h, n, r, q, p);
    } else if Stage(q.pc) == 2 {
      SelectTraced(cfg, h, n, r, q, p);
    } else {
      LateTraced(cfg, h, n, r, q, p);
    }
  }

  /** Only an applied write changes the table, and it ends the request. */
  lemma StepEffect(cfg: Config, s: State, q: Request, c: Choice)
    requires CanChoose(s, q, c)
    ensures var o := Advance(cfg, s, q, c);
            if (q.pc.Updating? || q.pc.Inserting?) && c != Fail(false)
            then
              Changed(s.rows, o.change) == Written(s.rows, q.pc) &&
              o.request.email == q.email && o.request.userId == q.userId &&
              o.request.pc == Done(if c.Go? then Plant(cfg.Sign(WrittenId(q.pc))) else Pass) &&
                (c.Go? || c == Fail(true))
            else
              o.change.NoChange? && c != Fail(true) && (o.request.pc.Done? ==> o.request.pc.answer.Pass?)
  {
    hide BuildSessionData;
  }

  lemma OwnStep(cfg: Config, h: History, n: nat, r: ReqId, q: Request)
    requires Moves(cfg, h, n, r, q) && Story(cfg, h, n, r)
    ensures Story(cfg, h, n + 1, r)
  {
    hide StepAt, Advance, CanChoose, Traced, Changed, Written;
    MovesOn(cfg, h, n, r, q);
    NotDone(h.states[n], q, h.run[n].choice);
    var c, q' := h.run[n].choice, Next(cfg, h, n, q);
    StepEffect(cfg, h.states[n], q, c);
    NoneChanges(h.states[n].rows);
    var p: Path :| Traced(cfg, h, n, r, q, p);
    if (q.pc.Updating? || q.pc.Inserting?) && c != Fail(false) {
      assert By(h, n, r, c);
      assert SoleWrite(cfg, h, n + 1, r, q'.pc.answer, n, q, p);
    } else if !q'.pc.Done? {
      OwnTraced(cfg, h, n, r, q, p);
    }
  }

  lemma NoneChanges(rows: seq<Row>)
    ensures Changed(rows, NoChange) == rows
  {
  }

  lemma NotDone(s: State, q: Request, c: Choice)
    requires CanChoose(s, q, c)
    ensures !q.pc.Done?
  {
  }

  lemma StoryStep(cfg: Config, h: History, n: nat, r: ReqId)
    requires |h.states| == |h.run| + 1 && n < |h.run| && StepAt(cfg, h, n) && Story(cfg, h, n, r)
    ensures Story(cfg, h, n + 1, r)
  {
    hide Story, Step, Arriving, CanChoose;
    if Own(h, n, r) {
      OwnStep(cfg, h, n, r, h.states[n].reqs[r]);
    } else if h.run[n].Arrive? && h.run[n].r == r {
      ArrivalStep(cfg, h, n, r);
    } else {
      OthersStep(cfg, h, n, r);
    }
  }

  /** At every step of every history, every request has its story. */
  lemma {:induction false} StoryAlways(cfg: Config, h: History, n: nat, r: ReqId)
    requires Faithful(cfg, h) && h.states[0].reqs == map[] && n <= |h.run|
    ensures Story(cfg, h, n, r)
  {
    hide StepAt;
    if n > 0 {
      StoryAlways(cfg, h, n - 1, r);
      assert StepAt(cfg, h, n - 1);
      StoryStep(cfg, h, n - 1, r);
    }
  }
}
