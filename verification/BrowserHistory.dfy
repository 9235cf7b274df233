/**
 One browser and the proxy, with one clock, as one machine. A request is sent with the jar as it is then; it
 arrives and is answered among the requests of others; the answer reaches the browser when it may.
 */
module BrowserHistory {
  import opened Wrappers
  import Identifiers
  import CookieSigning
  import opened Lifetime
  import opened Interleaving
  import opened CookieIntegrity
  import opened ExtAuth
  import opened CookieHeader
  import opened UserAgent
  import opened RedirectLoop

  // ------------------------------------------------------------- histories

  datatype Sent = Sent(path: string, header: string)

  /** The jar, the browser's requests by ID, those whose answers it has got, and the proxy. */
  datatype World = World(jar: set<Cookie>, sent: map<ReqId, Sent>, got: set<ReqId>, s: State)

  /** The browser sends a request; the proxy's machine takes a step; an answer is got; the jar changes otherwise. */
  datatype Event =
    | Send(r: ReqId, path: string, header: string)
    | Act(action: Action)
    | Get(r: ReqId)
    | Other(jar: set<Cookie>)

  predicate HasPlanting(s: State, r: ReqId) {
    r in s.reqs && s.reqs[r].pc.Done? && s.reqs[r].pc.answer.Plant?
  }

  function Next(cfg: Config, host: string, w: World, e: Event): World {
    match e
    case Send(r, path, header) => w.(sent := w.sent[r := Sent(path, header)])
    case Act(a) => if Enabled(w.s, a) then w.(s := Step(cfg, w.s, a)) else w
    case Get(r) =>
      if r in w.sent && HasPlanting(w.s, r) then
        var line := SetCookieLine(w.s.reqs[r].pc.answer.cookie, MaxAgeSeconds(cfg.days));
        w.(jar := Receive(w.jar, line, host, w.sent[r].path, w.s.clock), got := w.got + {r})
      else w.(got := w.got + {r})
    case Other(jar') => w.(jar := jar')
  }

  /** The browser's request arrives as it was sent; nothing but the proxy takes its cookie away before it expires. */
  ghost predicate EventOk(cfg: Config, host: string, w: World, e: Event) {
    match e
    case Send(r, path, header) =>
      r !in w.sent && r !in w.s.reqs && GhostRequest(path) && Sends(w.jar, host, path, true, w.s.clock, header)
    case Act(a) => Enabled(w.s, a) && (a.Arrive? && a.r in w.sent ==> a.header == w.sent[a.r].header)
    case Get(r) => r in w.sent && r !in w.got && r in w.s.reqs && w.s.reqs[r].pc.Done?
    case Other(jar') => Keeps(w.jar, jar', host, w.s.clock)
  }

  ghost predicate History(cfg: Config, host: string, w: World, events: seq<Event>)
    decreases |events|
  {
    events == [] || (EventOk(cfg, host, w, events[0]) && History(cfg, host, Next(cfg, host, w, events[0]), events[1..]))
  }

  function Later(cfg: Config, host: string, w: World, events: seq<Event>): World
    decreases |events|
  {
    if events == [] then w else Later(cfg, host, Next(cfg, host, w, events[0]), events[1..])
  }

  /** The world before the event at `i`. */
  function At(cfg: Config, host: string, w: World, events: seq<Event>, i: nat): World
    requires i <= |events|
  {
    Later(cfg, host, w, events[..i])
  }

  /** The event at `i` brings the browser a cookie. */
  ghost predicate Plants(cfg: Config, host: string, w: World, events: seq<Event>, i: nat) {
    i < |events| && events[i].Get? && HasPlanting(At(cfg, host, w, events, i).s, events[i].r)
  }

  lemma AtNext(cfg: Config, host: string, w: World, events: seq<Event>, i: nat)
    requires 0 < i <= |events|
    ensures At(cfg, host, w, events, i) == At(cfg, host, Next(cfg, host, w, events[0]), events[1..], i - 1)
  {
    assert events[..i][1..] == events[1..][..i - 1];
  }

  // ------------------------------------------------------------- what every history keeps

  /** A request that came with a recognised cookie is answered already, and not with a planting. */
  ghost predicate NeverPlants(q: Request) {
    q.pc.Done? && !q.pc.answer.Plant?
  }

  ghost predicate WorldOk(cfg: Config, w: World) {
    && Integrity(cfg, w.s)
    && forall r <- w.sent :: r in w.s.reqs && HasGhostSessionCookie(w.sent[r].header) ==> NeverPlants(w.s.reqs[r])
  }

  lemma StaysAnswered(cfg: Config, s: State, a: Action, r: ReqId)
    requires Enabled(s, a) && r in s.reqs && NeverPlants(s.reqs[r])
    ensures r in Step(cfg, s, a).reqs && NeverPlants(Step(cfg, s, a).reqs[r])
  {
    hide Advance, Arriving;
  }

  lemma ActKeeps(cfg: Config, host: string, w: World, a: Action)
    requires WorldOk(cfg, w) && EventOk(cfg, host, w, Act(a))
    ensures WorldOk(cfg, Next(cfg, host, w, Act(a)))
  {
    hide Advance, HasGhostSessionCookie, Integrity, CanChoose;
    IntegrityStep(cfg, w.s, a);
    var s' := Step(cfg, w.s, a);
    forall r | r in w.sent && r in s'.reqs && HasGhostSessionCookie(w.sent[r].header) ensures NeverPlants(s'.reqs[r]) {
      if r in w.s.reqs {
        StaysAnswered(cfg, w.s, a, r);
      } else {
        RecognisedOnArrival(a.header, a.verdict);
      }
    }
  }

  lemma RecognisedOnArrival(header: string, v: Verdict)
    requires HasGhostSessionCookie(header)
    ensures NeverPlants(Arriving(header, v))
  {
    hide HasCookie;
  }

  lemma EventKeeps(cfg: Config, host: string, w: World, e: Event)
    requires WorldOk(cfg, w) && EventOk(cfg, host, w, e)
    ensures WorldOk(cfg, Next(cfg, host, w, e))
  {
    hide Step, Enabled, HasGhostSessionCookie, Integrity, SetCookieLine, Receive;
    if e.Act? {
      ActKeeps(cfg, host, w, e.action);
    }
  }

  lemma {:induction false} KeptAlong(cfg: Config, host: string, w: World, events: seq<Event>, i: nat, r: ReqId)
    requires WorldOk(cfg, w) && History(cfg, host, w, events) && i <= |events|
    ensures var w' := At(cfg, host, w, events, i);
            && WorldOk(cfg, w') && w.s.clock <= w'.s.clock
            && (r in w.sent ==> r in w'.sent && w'.sent[r] == w.sent[r])
    decreases |events|
  {
    hide WorldOk;
    if i > 0 {
      EventKeeps(cfg, host, w, events[0]);
      SentIsKept(cfg, host, w, events[0], r);
      KeptAlong(cfg, host, Next(cfg, host, w, events[0]), events[1..], i - 1, r);
      AtNext(cfg, host, w, events, i);
    }
  }

  lemma SentIsKept(cfg: Config, host: string, w: World, e: Event, r: ReqId)
    requires EventOk(cfg, host, w, e)
    ensures var w' := Next(cfg, host, w, e);
            w.s.clock <= w'.s.clock && (r in w.sent ==> r in w'.sent && w'.sent[r] == w.sent[r])
  {
    hide Advance, SetCookieLine, Receive;
  }

  /** A planted cookie signs a session ID, and is plain. */
  lemma PlantedIsPlain(cfg: Config, s: State, r: ReqId)
    requires Integrity(cfg, s) && HasPlanting(s, r)
    ensures PlainCookie(s.reqs[r].pc.answer.cookie)
  {
    hide PlainCookie, Integrity;
    var cookie := s.reqs[r].pc.answer.cookie;
    GoodByIntegrity(cfg, s, r, cookie);
    SignsSession(cfg, s, cookie, s.reqs[r].userId);
  }

  lemma SignsSession(cfg: Config, s: State, cookie: string, userId: string)
    requires CookieIsGood(cfg, s, cookie, userId)
    ensures PlainCookie(cookie)
  {
    hide PlainCookie;
    var sid :| CookieSigning.Unsign(cookie, cfg.secret, cfg.mac) == Some(sid) && Identifiers.SessionIdForm(sid);
    SignVerifies(cfg, cookie, sid);
    FormIsUrlSafe(sid);
    SignedIsPlain(cfg, sid);
  }

  // ------------------------------------------------------------- a planted cookie guards later requests

  /** The jar holds a planted cookie that lasts until `until` at least. */
  ghost predicate Guarded(jar: set<Cookie>, host: string, until: int) {
    exists cookie: string, expiry: int ::
      PlainCookie(cookie) && until <= expiry && StoredCookie(cookie, host, expiry) in jar
  }

  lemma PlantingGuards(cfg: Config, host: string, w: World, r: ReqId)
    requires WorldOk(cfg, w) && EventOk(cfg, host, w, Get(r)) && HasPlanting(w.s, r)
    ensures Guarded(Next(cfg, host, w, Get(r)).jar, host, w.s.clock + CookieNanos(cfg.days))
  {
    hide SetCookieLine, PlainCookie, HasGhostSessionCookie, Integrity, Receive, StoredCookie;
    var cookie := w.s.reqs[r].pc.answer.cookie;
    PlantedIsPlain(cfg, w.s, r);
    PlantedIsStored(w.jar, cookie, MaxAgeSeconds(cfg.days), host, w.sent[r].path, w.s.clock);
    assert StoredCookie(cookie, host, w.s.clock + CookieNanos(cfg.days)) in Next(cfg, host, w, Get(r)).jar;
  }

  lemma GuardStays(cfg: Config, host: string, w: World, e: Event, until: int)
    requires WorldOk(cfg, w) && Guarded(w.jar, host, until) && EventOk(cfg, host, w, e)
    requires w.s.clock < until <= w.s.clock + CookieNanos(cfg.days)
    ensures Guarded(Next(cfg, host, w, e).jar, host, until)
  {
    hide SetCookieLine, PlainCookie, Sends, Receive, Enabled, Step, WorldOk;
    if e.Get? && HasPlanting(w.s, e.r) {
      PlantingGuards(cfg, host, w, e.r);
    } else if e.Other? {
      var cookie: string, expiry: int :|
        PlainCookie(cookie) && until <= expiry && StoredCookie(cookie, host, expiry) in w.jar;
      assert IsGhostCookie(StoredCookie(cookie, host, expiry), host);
    }
  }

  lemma GuardedSendIsRecognised(cfg: Config, host: string, w: World, e: Event, until: int)
    requires Guarded(w.jar, host, until) && EventOk(cfg, host, w, e) && e.Send? && w.s.clock < until
    ensures HasGhostSessionCookie(e.header)
  {
    hide PlainCookie, Sends, HasGhostSessionCookie;
    var cookie: string, expiry: int :|
      PlainCookie(cookie) && until <= expiry && StoredCookie(cookie, host, expiry) in w.jar;
    StoredIsRecognised(w.jar, cookie, host, expiry, e.path, w.s.clock, e.header);
  }

  /** While the jar is guarded, no request is sent that will be answered with a planting. */
  lemma {:induction false} SentAfterGuard(cfg: Config, host: string, w: World, events: seq<Event>,
                                          until: int, k: nat, j: nat)
    requires WorldOk(cfg, w) && Guarded(w.jar, host, until) && until <= w.s.clock + CookieNanos(cfg.days)
    requires History(cfg, host, w, events) && k < j && Plants(cfg, host, w, events, j)
    requires events[k].Send? && events[k].r == events[j].r
    ensures until <= At(cfg, host, w, events, k).s.clock
    decreases |events|
  {
    hide Guarded, HasGhostSessionCookie, EventOk, Next, WorldOk, At;
    var w' := Next(cfg, host, w, events[0]);
    if until <= w.s.clock {
      KeptAlong(cfg, host, w, events, k, 0);
    } else if k > 0 {
      EventKeeps(cfg, host, w, events[0]);
      SentIsKept(cfg, host, w, events[0], 0);
      GuardStays(cfg, host, w, events[0], until);
      AtNext(cfg, host, w, events, j);
      AtNext(cfg, host, w, events, k);
      SentAfterGuard(cfg, host, w', events[1..], until, k - 1, j - 1);
    } else {
      GuardedSendIsRecognised(cfg, host, w, events[0], until);
      SentIsThere(cfg, host, w, events[0]);
      EventKeeps(cfg, host, w, events[0]);
      KeptAlong(cfg, host, w', events[1..], j - 1, events[0].r);
      AtNext(cfg, host, w, events, j);
      RecognisedNeverPlants(cfg, At(cfg, host, w, events, j), events[0].r);
    }
  }

  lemma SentIsThere(cfg: Config, host: string, w: World, e: Event)
    requires e.Send?
    ensures var w' := Next(cfg, host, w, e); e.r in w'.sent && w'.sent[e.r].header == e.header
  {
  }

  lemma RecognisedNeverPlants(cfg: Config, w: World, r: ReqId)
    requires WorldOk(cfg, w) && r in w.sent && HasGhostSessionCookie(w.sent[r].header)
    ensures !HasPlanting(w.s, r)
  {
    hide Integrity, HasGhostSessionCookie;
  }

  /**
   Over every history of one browser: a request that was sent after a planting was received, and is answered with
   a planting itself, was sent at least Max-Age after that receipt.
   */
  lemma {:induction false} PlantingsAreFarApart(cfg: Config, host: string, w: World, events: seq<Event>,
                                                i: nat, k: nat, j: nat)
    requires WorldOk(cfg, w) && History(cfg, host, w, events) && i < k < j
    requires Plants(cfg, host, w, events, i) && Plants(cfg, host, w, events, j)
    requires events[k].Send? && events[k].r == events[j].r
    ensures At(cfg, host, w, events, i).s.clock + CookieNanos(cfg.days) <= At(cfg, host, w, events, k).s.clock
    decreases |events|
  {
    hide EventOk, Guarded, Next, WorldOk, At;
    var w' := Next(cfg, host, w, events[0]);
    EventKeeps(cfg, host, w, events[0]);
    AtNext(cfg, host, w, events, k);
    AtNext(cfg, host, w, events, j);
    if i == 0 {
      AtStart(cfg, host, w, events);
      PlantingGuards(cfg, host, w, events[0].r);
      SentIsKept(cfg, host, w, events[0], 0);
      SentAfterGuard(cfg, host, w', events[1..], w.s.clock + CookieNanos(cfg.days), k - 1, j - 1);
    } else {
      AtNext(cfg, host, w, events, i);
      PlantingsAreFarApart(cfg, host, w', events[1..], i - 1, k - 1, j - 1);
    }
  }

  lemma AtStart(cfg: Config, host: string, w: World, events: seq<Event>)
    ensures At(cfg, host, w, events, 0) == w
  {
    assert events[..0] == [];
  }
}
