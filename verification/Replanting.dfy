/** Exactly when one browser can be planted a cookie twice, and when being redirected need never end. */
module Replanting {
  import opened Wrappers
  import opened Base64
  import opened Lifetime
  import opened Interleaving
  import opened CookieIntegrity
  import opened ExtAuth
  import opened UserAgent
  import opened RedirectLoop
  import opened BrowserHistory
  import opened Answering
  import Identifiers
  import SecondRows
  import Races

  const EMAIL := "a@b"

  // ------------------------------------------------------------- histories, one event after another

  lemma {:induction false} Append(cfg: Config, host: string, w: World, ev: seq<Event>, e: Event)
    requires History(cfg, host, w, ev) && EventOk(cfg, host, Later(cfg, host, w, ev), e)
    ensures History(cfg, host, w, ev + [e])
    ensures Later(cfg, host, w, ev + [e]) == Next(cfg, host, Later(cfg, host, w, ev), e)
    decreases |ev|
  {
    hide EventOk, Next;
    if ev == [] {
      assert ev + [e] == [e] && [e][1..] == [];
      assert History(cfg, host, Next(cfg, host, w, e), []);
      assert Later(cfg, host, Next(cfg, host, w, e), []) == Next(cfg, host, w, e);
    } else {
      assert (ev + [e])[1..] == ev[1..] + [e];
      Append(cfg, host, Next(cfg, host, w, ev[0]), ev[1..], e);
    }
  }

  /** A run of the proxy's machine, as events; the browser's requests arrive in it as they were sent. */
  lemma {:induction false} AppendRun(cfg: Config, host: string, w: World, ev: seq<Event>, run: seq<Action>)
    returns (ev': seq<Event>)
    requires History(cfg, host, w, ev)
    requires var v := Later(cfg, host, w, ev);
             ValidRun(cfg, v.s, run) && forall a <- run :: a.Arrive? && a.r in v.sent ==> a.header == v.sent[a.r].header
    ensures History(cfg, host, w, ev') && ev <= ev'
    ensures var v := Later(cfg, host, w, ev); Later(cfg, host, w, ev') == v.(s := After(cfg, v.s, run))
    decreases |run|
  {
    hide Enabled, Step, History, Later;
    if run == [] {
      ev' := ev;
    } else {
      Append(cfg, host, w, ev, Act(run[0]));
      ev' := AppendRun(cfg, host, w, ev + [Act(run[0])], run[1..]);
    }
  }

  /** Time passes. */
  lemma Wait(cfg: Config, host: string, w: World, ev: seq<Event>, until: int) returns (ev': seq<Event>)
    requires History(cfg, host, w, ev) && Later(cfg, host, w, ev).s.clock <= until
    ensures History(cfg, host, w, ev') && ev <= ev'
    ensures var v := Later(cfg, host, w, ev); Later(cfg, host, w, ev') == v.(s := v.s.(clock := until))
  {
    hide History, Later;
    var v := Later(cfg, host, w, ev);
    Append(cfg, host, w, ev, Act(Tick(until - v.s.clock)));
    ev' := ev + [Act(Tick(until - v.s.clock))];
  }

  /** The browser sends a request when it has no cookie to send, and the proxy answers it with one at once. */
  lemma SendAndAnswer(cfg: Config, host: string, w: World, ev: seq<Event>, r: ReqId, path: string, bytes: seq<Byte>)
    returns (ev': seq<Event>)
    requires History(cfg, host, w, ev) && GhostRequest(path)
    requires var v := Later(cfg, host, w, ev);
             && r !in v.sent && r !in v.s.reqs && Sends(v.jar, host, path, true, v.s.clock, "")
             && ActiveUser(v.s, EMAIL) && SecondRows.Fresh(v.s, bytes)
    ensures History(cfg, host, w, ev') && |ev| < |ev'| && ev <= ev' && ev'[|ev|] == Send(r, path, "")
    ensures var v, v' := Later(cfg, host, w, ev), Later(cfg, host, w, ev');
            && v' == v.(sent := v.sent[r := Sent(path, "")], s := v'.s)
            && PlantedAtOnce(cfg, v.s, v'.s, r, EMAIL, bytes)
  {
    hide History, Later, Sends, GhostRequest, PlantedAtOnce, ValidRun, After, SecondRows.Fresh;
    var v := Later(cfg, host, w, ev);
    Append(cfg, host, w, ev, Send(r, path, ""));
    var run := PlantsNow(cfg, v.s, r, EMAIL, bytes);
    ev' := AppendRun(cfg, host, w, ev + [Send(r, path, "")], run);
  }

  /** The browser gets the answer. */
  lemma GetPlanting(cfg: Config, host: string, w: World, ev: seq<Event>, r: ReqId)
    requires History(cfg, host, w, ev)
    requires var v := Later(cfg, host, w, ev); r in v.sent && r !in v.got && HasPlanting(v.s, r)
    ensures History(cfg, host, w, ev + [Get(r)])
    ensures var v := Later(cfg, host, w, ev);
            var line := SetCookieLine(v.s.reqs[r].pc.answer.cookie, MaxAgeSeconds(cfg.days));
            Later(cfg, host, w, ev + [Get(r)]) ==
            v.(jar := Receive(v.jar, line, host, v.sent[r].path, v.s.clock), got := v.got + {r})
  {
    hide History, Later, SetCookieLine, Receive;
    Append(cfg, host, w, ev, Get(r));
  }

  // ------------------------------------------------------------- twice

  /** When a browser sends two requests and gets the answers, that of the first before that of the second. */
  datatype Times = Times(sent1: int, got1: int, sent2: int, got2: int)

  /** The second request is sent before the first is answered, perhaps before it is sent; or after. */
  predicate InOrder(t: Times, overlapping: bool) {
    t.sent1 <= t.got1 <= t.got2 && t.sent2 <= t.got2 && if overlapping then t.sent2 <= t.got1 else t.got1 <= t.sent2
  }

  /** Where in a history these events are. */
  datatype Places = Places(send1: nat, get1: nat, send2: nat, get2: nat)

  ghost predicate SentAt(cfg: Config, host: string, w: World, ev: seq<Event>, k: nat, r: ReqId, path: string,
                         time: int) {
    k < |ev| && ev[k].Send? && ev[k].r == r && ev[k].path == path && At(cfg, host, w, ev, k).s.clock == time
  }

  ghost predicate PlantedAt(cfg: Config, host: string, w: World, ev: seq<Event>, k: nat, r: ReqId, time: int) {
    k < |ev| && ev[k] == Get(r) && Plants(cfg, host, w, ev, k) && At(cfg, host, w, ev, k).s.clock == time
  }

  /** A browser that has sent nothing yet and has no cookies, before a proxy that has answered nothing yet. */
  ghost predicate New(w: World) {
    w.jar == {} && w.sent == map[] && w.got == {} && Init(w.s)
  }

  /** A history of a new browser in which both of two requests are answered with a planting, at those times. */
  ghost predicate PlantedTwice(cfg: Config, host: string, path: string, t: Times, overlapping: bool,
                               w: World, ev: seq<Event>, p: Places) {
    && New(w) && History(cfg, host, w, ev)
    && p.get1 < p.get2 && p.send1 < p.get1 && p.send2 < p.get2 && (overlapping <==> p.send2 < p.get1)
    && SentAt(cfg, host, w, ev, p.send1, 0, path, t.sent1) && PlantedAt(cfg, host, w, ev, p.get1, 0, t.got1)
    && SentAt(cfg, host, w, ev, p.send2, 1, path, t.sent2) && PlantedAt(cfg, host, w, ev, p.get2, 1, t.got2)
  }

  /**
   For all instants, a browser can be planted a cookie by both of two requests, to one proxy, if and only if the
   second was sent before the first was answered, or Max-Age after that at least.
   */
  lemma PlantedTwiceIff(cfg: Config, host: string, path: string, t: Times, overlapping: bool)
    requires GhostRequest(path) && InOrder(t, overlapping)
    ensures (exists w: World, ev: seq<Event>, p: Places :: PlantedTwice(cfg, host, path, t, overlapping, w, ev, p)) <==>
            overlapping || t.got1 + CookieNanos(cfg.days) <= t.sent2
  {
    hide History, At, New, GhostRequest;
    if w: World, ev: seq<Event>, p: Places :| PlantedTwice(cfg, host, path, t, overlapping, w, ev, p) {
      if !overlapping {
        NewIsOk(cfg, w);
        PlantingsAreFarApart(cfg, host, w, ev, p.get1, p.send2, p.get2);
      }
    }
    if overlapping {
      if t.sent1 <= t.sent2 {
        var w, ev, a, b, p := Overlapping(cfg, host, path, 0, t.sent1, 1, t.sent2, t.got1, t.got2);
        assert PlantedTwice(cfg, host, path, t, overlapping, w, ev, Places(a, p.0, b, p.1));
      } else {
        var w, ev, a, b, p := Overlapping(cfg, host, path, 1, t.sent2, 0, t.sent1, t.got1, t.got2);
        assert PlantedTwice(cfg, host, path, t, overlapping, w, ev, Places(b, p.0, a, p.1));
      }
    } else if t.got1 + CookieNanos(cfg.days) <= t.sent2 {
      var w, ev, p := Apart(cfg, host, path, t);
    }
  }

  lemma NewIsOk(cfg: Config, w: World)
    requires New(w)
    ensures WorldOk(cfg, w)
  {
    InitHolds(cfg, w.s);
  }

  // ------------------------------------------------------------- the histories that show it

  function Draw1(): seq<Byte> {
    seq(24, _ => 0)
  }

  function Draw2(): seq<Byte> {
    seq(24, _ => 1)
  }

  /** An active user, an empty table. */
  function Beginning(clock: int): World {
    World({}, map[], {}, State(clock, map[EMAIL := User("u", "active")], [], map[], {}, {}, []))
  }

  lemma Begins(cfg: Config, host: string, clock: int)
    ensures var w := Beginning(clock);
            && New(w) && History(cfg, host, w, []) && Later(cfg, host, w, []) == w
            && ActiveUser(w.s, EMAIL) && SecondRows.Fresh(w.s, Draw1())
  {
  }

  lemma SecondDrawIsFresh(s: State)
    requires s.used <= {Encode(UrlSafe, Draw1())}
    ensures SecondRows.Fresh(s, Draw2())
  {
    assert Draw1()[0] != Draw2()[0];
    if Encode(UrlSafe, Draw1()) == Encode(UrlSafe, Draw2()) {
      EncodeInjective(UrlSafe, Draw1(), Draw2());
    }
  }

  /** Nothing that can be sent, nothing sent. */
  lemma EmptyHeaderSent(jar: set<Cookie>, host: string, path: string, now: int)
    requires forall c <- jar :: !IsSent(c, host, path, true, now)
    ensures Sends(jar, host, path, true, now, "")
  {
    var order: seq<Cookie> := [];
    assert Lists(jar, host, path, true, now, order);
    assert Pairs(order) == [];
  }

  lemma UsedAtMost(cfg: Config, s: State, t: State, r: ReqId, bytes: seq<Byte>)
    requires EMAIL in s.users && PlantedAtOnce(cfg, s, t, r, EMAIL, bytes)
    ensures t.used <= s.used + {Encode(UrlSafe, bytes)}
    ensures t.clock == s.clock && t.users == s.users && t.reqs.Keys == s.reqs.Keys + {r} && HasPlanting(t, r)
    ensures forall r' <- s.reqs :: r' != r ==> t.reqs[r'] == s.reqs[r']
  {
    assert t.reqs.Keys == s.reqs[r := t.reqs[r]].Keys;
  }

  /** Two requests of one browser on their way at once: each is planted a cookie, whichever answer comes first. */
  lemma Overlapping(cfg: Config, host: string, path: string, r: ReqId, sent: int, r': ReqId, sent': int,
                    got1: int, got2: int)
    returns (w: World, ev: seq<Event>, k: nat, k': nat, p: (nat, nat))
    requires GhostRequest(path) && r + r' == 1 && sent <= sent' <= got1 <= got2
    ensures New(w) && History(cfg, host, w, ev)
    ensures k < k' < p.0 < p.1
    ensures SentAt(cfg, host, w, ev, k, r, path, sent) && SentAt(cfg, host, w, ev, k', r', path, sent')
    ensures PlantedAt(cfg, host, w, ev, p.0, 0, got1) && PlantedAt(cfg, host, w, ev, p.1, 1, got2)
  {
    hide History, Later, GhostRequest, New, Sends, PlantedAtOnce, SetCookieLine, Receive, SecondRows.Fresh, Encode;
    w := Beginning(sent);
    Begins(cfg, host, sent);
    EmptyHeaderSent({}, host, path, sent);
    k := 0;
    var ev1 := SendAndAnswer(cfg, host, w, [], r, path, Draw1());
    var w1 := Later(cfg, host, w, ev1);
    UsedAtMost(cfg, w.s, w1.s, r, Draw1());
    var ev2 := Wait(cfg, host, w, ev1, sent');
    var w2 := Later(cfg, host, w, ev2);
    k' := |ev2|;
    SecondDrawIsFresh(w2.s);
    EmptyHeaderSent({}, host, path, sent');
    var ev3 := SendAndAnswer(cfg, host, w, ev2, r', path, Draw2());
    var w3 := Later(cfg, host, w, ev3);
    UsedAtMost(cfg, w2.s, w3.s, r', Draw2());
    ev, p := GetBoth(cfg, host, w, ev3, got1, got2);
    assert ev[..k] == [] && ev[..k'] == ev2;
    assert ev[k] == ev1[k] && ev[k'] == ev3[k'];
  }

  /** Both answers are there, and the browser gets them. */
  lemma GetBoth(cfg: Config, host: string, w: World, before: seq<Event>, got1: int, got2: int)
    returns (ev: seq<Event>, p: (nat, nat))
    requires History(cfg, host, w, before)
    requires var v := Later(cfg, host, w, before);
             && v.s.clock <= got1 <= got2 && v.got == {} && 0 in v.sent && 1 in v.sent
             && HasPlanting(v.s, 0) && HasPlanting(v.s, 1)
    ensures History(cfg, host, w, ev) && before <= ev && |before| <= p.0 < p.1
    ensures PlantedAt(cfg, host, w, ev, p.0, 0, got1) && PlantedAt(cfg, host, w, ev, p.1, 1, got2)
  {
    hide History, Later, SetCookieLine, Receive;
    var ev1 := Wait(cfg, host, w, before, got1);
    GetPlanting(cfg, host, w, ev1, 0);
    var ev2 := Wait(cfg, host, w, ev1 + [Get(0)], got2);
    GetPlanting(cfg, host, w, ev2, 1);
    ev, p := ev2 + [Get(1)], (|ev1|, |ev2|);
    assert ev[..p.0] == ev1 && ev[..p.1] == ev2;
    assert ev[p.0] == ev2[p.0] == Get(0);
  }

  /** One request after the answer to the other, when the cookie has expired. */
  lemma Apart(cfg: Config, host: string, path: string, t: Times) returns (w: World, ev: seq<Event>, p: Places)
    requires GhostRequest(path) && InOrder(t, false) && t.got1 + CookieNanos(cfg.days) <= t.sent2
    ensures PlantedTwice(cfg, host, path, t, false, w, ev, p)
  {
    hide History, Later, GhostRequest, New, Sends, PlantedAtOnce, SetCookieLine, Receive, SecondRows.Fresh, Encode;
    w := Beginning(t.sent1);
    Begins(cfg, host, t.sent1);
    EmptyHeaderSent({}, host, path, t.sent1);
    var ev1 := SendAndAnswer(cfg, host, w, [], 0, path, Draw1());
    var w1 := Later(cfg, host, w, ev1);
    UsedAtMost(cfg, w.s, w1.s, 0, Draw1());
    var ev2 := Wait(cfg, host, w, ev1, t.got1);
    var w2 := Later(cfg, host, w, ev2);
    GetPlanting(cfg, host, w, ev2, 0);
    var ev3 := Wait(cfg, host, w, ev2 + [Get(0)], t.sent2);
    var w3 := Later(cfg, host, w, ev3);
    SecondDrawIsFresh(w3.s);
    CookieHasExpired(cfg, host, w, ev2, path, t.sent2);
    var ev4 := SendAndAnswer(cfg, host, w, ev3, 1, path, Draw2());
    var w4 := Later(cfg, host, w, ev4);
    UsedAtMost(cfg, w3.s, w4.s, 1, Draw2());
    var ev5 := Wait(cfg, host, w, ev4, t.got2);
    GetPlanting(cfg, host, w, ev5, 1);
    ev, p := ev5 + [Get(1)], Places(0, |ev2|, |ev3|, |ev5|);
    assert ev[..0] == [] && ev[..|ev2|] == ev2 && ev[..|ev3|] == ev3 && ev[..|ev5|] == ev5;
    assert ev[0] == ev1[0] && ev[|ev2|] == ev3[|ev2|] == Get(0) && ev[|ev3|] == ev4[|ev3|];
  }

  /** A jar with nothing but the planted cookie sends nothing once Max-Age has passed. */
  lemma CookieHasExpired(cfg: Config, host: string, w: World, ev: seq<Event>, path: string, now: int)
    requires New(w) && History(cfg, host, w, ev) && GhostRequest(path)
    requires var v := Later(cfg, host, w, ev);
             v.jar == {} && 0 in v.sent && v.sent[0].path == path && HasPlanting(v.s, 0) &&
               v.s.clock + CookieNanos(cfg.days) <= now
    ensures var v := Later(cfg, host, w, ev);
            var line := SetCookieLine(v.s.reqs[0].pc.answer.cookie, MaxAgeSeconds(cfg.days));
            Sends(Receive({}, line, host, path, v.s.clock), host, path, true, now, "")
  {
    hide History, WorldOk, SetCookieLine, PlainCookie, Sends, Parse, Integrity;
    NewIsOk(cfg, w);
    KeptAlong(cfg, host, w, ev, |ev|, 0);
    assert ev[..|ev|] == ev;
    var v := Later(cfg, host, w, ev);
    OkIsIntegrity(cfg, v);
    var cookie := v.s.reqs[0].pc.answer.cookie;
    PlantedIsPlain(cfg, v.s, 0);
    LineRoundTrip(cookie, MaxAgeSeconds(cfg.days), host, path, v.s.clock);
    StoredIsSent(cookie, host, v.s.clock + CookieNanos(cfg.days), path, now);
    EmptyHeaderSent(Receive({}, SetCookieLine(cookie, MaxAgeSeconds(cfg.days)), host, path, v.s.clock), host, path,
      now);
  }

  lemma OkIsIntegrity(cfg: Config, w: World)
    requires WorldOk(cfg, w)
    ensures Integrity(cfg, w.s)
  {
  }

  // ------------------------------------------------------------- redirected for ever

  /** The browser asks for /ghost/ and is redirected there with a cookie, in no time. */
  ghost predicate Round(cfg: Config, host: string, w: World, round: seq<Event>) {
    && History(cfg, host, w, round) && |round| >= 2
    && round[0].Send? && round[0].path == GHOST_ADMIN_PATH
    && round[|round| - 1] == Get(round[0].r) && Plants(cfg, host, w, round, |round| - 1)
    && Later(cfg, host, w, round).s.clock == w.s.clock
  }

  /** So many times in a row. */
  ghost predicate GoesRound(cfg: Config, host: string, w: World, n: nat)
    decreases n
  {
    n == 0 ||
    exists round: seq<Event> :: Round(cfg, host, w, round) && GoesRound(cfg, host, Later(cfg, host, w, round), n - 1)
  }

  ghost predicate CanGoRound(cfg: Config, host: string, n: nat) {
    exists w: World :: New(w) && GoesRound(cfg, host, w, n)
  }

  lemma {:induction false} HistoryAfterHistory(cfg: Config, host: string, w: World, a: seq<Event>, b: seq<Event>)
    requires History(cfg, host, w, a) && History(cfg, host, Later(cfg, host, w, a), b)
    ensures History(cfg, host, w, a + b)
    ensures Later(cfg, host, w, a + b) == Later(cfg, host, Later(cfg, host, w, a), b)
    decreases |a|
  {
    hide EventOk, Next;
    if a == [] {
      assert a + b == b;
    } else {
      assert (a + b)[1..] == a[1..] + b;
      HistoryAfterHistory(cfg, host, Next(cfg, host, w, a[0]), a[1..], b);
    }
  }

  lemma {:induction false} LaterAfterLater(cfg: Config, host: string, w: World, a: seq<Event>, b: seq<Event>)
    ensures Later(cfg, host, w, a + b) == Later(cfg, host, Later(cfg, host, w, a), b)
    decreases |a|
  {
    hide Next;
    if a == [] {
      assert a + b == b;
    } else {
      assert (a + b)[1..] == a[1..] + b;
      LaterAfterLater(cfg, host, Next(cfg, host, w, a[0]), a[1..], b);
    }
  }

  /** Two rounds in a row take Max-Age at least. */
  lemma TwoRounds(cfg: Config, host: string, w: World, first: seq<Event>, second: seq<Event>)
    requires WorldOk(cfg, w) && Round(cfg, host, w, first) && Round(cfg, host, Later(cfg, host, w, first), second)
    ensures CookieNanos(cfg.days) <= 0
  {
    hide History, Later, WorldOk, HasPlanting;
    HistoryAfterHistory(cfg, host, w, first, second);
    var both, n := first + second, |first|;
    assert both[..n - 1] == first[..n - 1] && both[..n] == first;
    assert both[..|both| - 1] == first + second[..|second| - 1];
    LaterAfterLater(cfg, host, w, first, second[..|second| - 1]);
    assert both[n - 1] == first[n - 1] && both[n] == second[0] && both[|both| - 1] == second[|second| - 1];
    ClockBefore(cfg, host, w, first);
    PlantingsAreFarApart(cfg, host, w, both, n - 1, n, |both| - 1);
  }

  lemma ClockBefore(cfg: Config, host: string, w: World, round: seq<Event>)
    requires WorldOk(cfg, w) && Round(cfg, host, w, round)
    ensures At(cfg, host, w, round, |round| - 1).s.clock == w.s.clock
  {
    hide History, WorldOk, Next, HasPlanting;
    var n := |round| - 1;
    KeptAlong(cfg, host, w, round, n, 0);
    assert round == round[..n] + [round[n]] && [round[n]][1..] == [];
    LaterAfterLater(cfg, host, w, round[..n], [round[n]]);
    var v := At(cfg, host, w, round, n);
    assert Later(cfg, host, v, [round[n]]) == Later(cfg, host, Next(cfg, host, v, round[n]), []) ==
      Next(cfg, host, v, round[n]);
    GetTakesNoTime(cfg, host, v, round[n].r);
  }

  lemma GetTakesNoTime(cfg: Config, host: string, w: World, r: ReqId)
    ensures Next(cfg, host, w, Get(r)).s == w.s
  {
    hide SetCookieLine, Receive;
  }

  /** A browser and a proxy that can go round once more, with requests `r` and up. */
  ghost predicate Ready(cfg: Config, host: string, w: World, r: ReqId) {
    && WorldOk(cfg, w) && (forall r': nat :: r <= r' ==> r' !in w.sent && r' !in w.s.reqs && r' !in w.got)
    && (forall c <- w.jar :: !IsSent(c, host, GHOST_ADMIN_PATH, true, w.s.clock))
    && ActiveUser(w.s, EMAIL) && HasRow(cfg, w.s, EMAIL) && SecondRows.Fresh(w.s, Draw2())
  }

  lemma {:induction false} RoundAndRound(cfg: Config, host: string, w: World, r: ReqId, n: nat)
    requires cfg.days > 0 && MaxAgeSeconds(cfg.days) <= 0 && Ready(cfg, host, w, r)
    ensures GoesRound(cfg, host, w, n)
    decreases n
  {
    hide Ready, Round;
    if n > 0 {
      var round := OneRound(cfg, host, w, r);
      RoundAndRound(cfg, host, Later(cfg, host, w, round), r + 1, n - 1);
    }
  }

  lemma OneRound(cfg: Config, host: string, w: World, r: ReqId) returns (round: seq<Event>)
    requires cfg.days > 0 && MaxAgeSeconds(cfg.days) <= 0 && Ready(cfg, host, w, r)
    ensures Round(cfg, host, w, round) && Ready(cfg, host, Later(cfg, host, w, round), r + 1)
  {
    hide Ready, Round;
    var v;
    round, v := MakeRound(cfg, host, w, r);
    ReadyAgain(cfg, host, w, v, r);
  }

  /** What the browser has after it got the answer to `r`. */
  function AfterGet(cfg: Config, host: string, w: World, r: ReqId): World
    requires r in w.sent && HasPlanting(w.s, r)
  {
    var line := SetCookieLine(w.s.reqs[r].pc.answer.cookie, MaxAgeSeconds(cfg.days));
    w.(jar := Receive(w.jar, line, host, w.sent[r].path, w.s.clock), got := w.got + {r})
  }

  /** The round; `v` is the world before the browser gets the answer. */
  lemma MakeRound(cfg: Config, host: string, w: World, r: ReqId) returns (round: seq<Event>, v: World)
    requires Ready(cfg, host, w, r)
    ensures Round(cfg, host, w, round)
    ensures v == w.(sent := w.sent[r := Sent(GHOST_ADMIN_PATH, "")], s := v.s) && WorldOk(cfg, v)
    ensures PlantedAtOnce(cfg, w.s, v.s, r, EMAIL, Draw2()) && HasPlanting(v.s, r)
    ensures WorldOk(cfg, Later(cfg, host, w, round)) && Later(cfg, host, w, round) == AfterGet(cfg, host, v, r)
  {
    hide History, Later, SetCookieLine, Receive, WorldOk, PlantedAtOnce, Sends, IsSent, SecondRows.Fresh, HasRow,
      GhostRequest;
    AdminPathIsGhost();
    NoEventsYet(cfg, host, w);
    EmptyHeaderSent(w.jar, host, GHOST_ADMIN_PATH, w.s.clock);
    var ev := SendAndAnswer(cfg, host, w, [], r, GHOST_ADMIN_PATH, Draw2());
    v := Later(cfg, host, w, ev);
    UsedAtMost(cfg, w.s, v.s, r, Draw2());
    GetPlanting(cfg, host, w, ev, r);
    round := ev + [Get(r)];
    assert round[..|round| - 1] == ev;
    KeptAlong(cfg, host, w, ev, |ev|, 0);
    KeptAlong(cfg, host, w, round, |round|, 0);
    assert ev[..|ev|] == ev && round[..|round|] == round;
  }

  lemma ReadyAgain(cfg: Config, host: string, w: World, v: World, r: ReqId)
    requires cfg.days > 0 && MaxAgeSeconds(cfg.days) <= 0 && Ready(cfg, host, w, r)
    requires v == w.(sent := w.sent[r := Sent(GHOST_ADMIN_PATH, "")], s := v.s) && WorldOk(cfg, v)
    requires PlantedAtOnce(cfg, w.s, v.s, r, EMAIL, Draw2()) && HasPlanting(v.s, r)
    requires WorldOk(cfg, AfterGet(cfg, host, v, r))
    ensures Ready(cfg, host, AfterGet(cfg, host, v, r), r + 1)
  {
    hide SetCookieLine, Receive, WorldOk, PlantedAtOnce, IsSent, SecondRows.Fresh, HasRow;
    UsedAtMost(cfg, w.s, v.s, r, Draw2());
    RowStays(cfg, w.s, v.s, r, Draw2());
    FreshStays(w.s, v.s, Draw2());
    StillSendsNothing(cfg, host, v, r);
  }

  lemma FreshStays(s: State, t: State, bytes: seq<Byte>)
    requires SecondRows.Fresh(s, bytes) && t.used == s.used
    ensures SecondRows.Fresh(t, bytes)
  {
  }

  lemma NoEventsYet(cfg: Config, host: string, w: World)
    ensures History(cfg, host, w, []) && Later(cfg, host, w, []) == w
  {
  }

  lemma RowStays(cfg: Config, s: State, t: State, r: ReqId, bytes: seq<Byte>)
    requires cfg.days > 0 && EMAIL in s.users && HasRow(cfg, s, EMAIL) &&
      PlantedAtOnce(cfg, s, t, r, EMAIL, bytes)
    ensures t.used == s.used && EMAIL in t.users && HasRow(cfg, t, EMAIL)
  {
    hide HasRow;
  }

  /** With no Max-Age to speak of, the planted cookie has expired when it comes. */
  lemma StillSendsNothing(cfg: Config, host: string, w: World, r: ReqId)
    requires WorldOk(cfg, w) && r in w.sent && HasPlanting(w.s, r) && MaxAgeSeconds(cfg.days) <= 0
    requires w.sent[r].path == GHOST_ADMIN_PATH &&
      forall c <- w.jar :: !IsSent(c, host, GHOST_ADMIN_PATH, true, w.s.clock)
    ensures var line := SetCookieLine(w.s.reqs[r].pc.answer.cookie, MaxAgeSeconds(cfg.days));
            forall c <- Receive(w.jar, line, host, GHOST_ADMIN_PATH, w.s.clock) ::
              !IsSent(c, host, GHOST_ADMIN_PATH, true, w.s.clock)
  {
    hide WorldOk, SetCookieLine, PlainCookie, Parse, Integrity, IsSent;
    OkIsIntegrity(cfg, w);
    var cookie := w.s.reqs[r].pc.answer.cookie;
    PlantedIsPlain(cfg, w.s, r);
    AdminPathIsGhost();
    LineRoundTrip(cookie, MaxAgeSeconds(cfg.days), host, GHOST_ADMIN_PATH, w.s.clock);
    StoredIsSent(cookie, host, w.s.clock + CookieNanos(cfg.days), GHOST_ADMIN_PATH, w.s.clock);
  }

  /**
   Among the counts of days that are accepted, being redirected to /ghost/ again and again in no time is possible
   any number of times if and only if the product for Max-Age has overflown to zero or below; otherwise not twice.
   */
  lemma RedirectGoesOnIff(cfg: Config, host: string)
    requires cfg.days > 0
    ensures (forall n: nat :: CanGoRound(cfg, host, n)) <==> MaxAgeSeconds(cfg.days) <= 0
    ensures CanGoRound(cfg, host, 2) <==> MaxAgeSeconds(cfg.days) <= 0
  {
    hide New, Round;
    if CanGoRound(cfg, host, 2) {
      var w: World :| New(w) && GoesRound(cfg, host, w, 2);
      NewIsOk(cfg, w);
      var first: seq<Event> :| Round(cfg, host, w, first) && GoesRound(cfg, host, Later(cfg, host, w, first), 1);
      var second: seq<Event> :| Round(cfg, host, Later(cfg, host, w, first), second);
      TwoRounds(cfg, host, w, first, second);
    }
    if MaxAgeSeconds(cfg.days) <= 0 {
      var w := ReadyWorld(cfg, host);
      forall n: nat ensures CanGoRound(cfg, host, n) {
        RoundAndRound(cfg, host, w, 0, n);
      }
    }
  }

  lemma ReadyWorld(cfg: Config, host: string) returns (w: World)
    requires cfg.days > 0
    ensures New(w) && Ready(cfg, host, w, 0)
  {
    hide Init, Integrity, Encode;
    Identifiers.SessionIdFormOfDraw(Draw1());
    var s := Races.RacyTable(cfg, Encode(UrlSafe, Draw1()), 0);
    w := World({}, map[], {}, s);
    NewIsOk(cfg, w);
    SecondDrawIsFresh(s);
  }
}
