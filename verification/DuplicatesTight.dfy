/**
 The bound on duplicates is reached: any number of requests whose SELECTs all run before their
 INSERTs give as many rows with one creation time, whatever IDs they draw.
 */
module DuplicatesTight {
  import opened Wrappers
  import opened Base64
  import opened SessionTable
  import opened Interleaving
  import opened Duplicates

  const EMAIL := "a@b"
  const USER := "u"

  function Empty(): State {
    State(0, map[EMAIL := User(USER, "active")], [], map[], {}, {}, [])
  }

  predicate Draws(draws: seq<seq<Byte>>) {
    (forall d <- draws :: |d| == 24) && forall i, j :: 0 <= i < j < |draws| ==> draws[i] != draws[j]
  }

  function Sid(draws: seq<seq<Byte>>, r: nat): string
    requires r < |draws|
  {
    Encode(UrlSafe, draws[r])
  }

  function Waiting(cfg: Config): Request {
    Request(EMAIL, USER, -cfg.Window(), Drawing, NoChange)
  }

  /** Requests 0..n have looked and found nothing. */
  ghost predicate AllWaiting(cfg: Config, s: State, n: nat) {
    && s == Empty().(reqs := s.reqs) && |s.reqs| == n
    && forall r: nat :: (r in s.reqs <==> r < n) && (r < n ==> s.reqs[r] == Waiting(cfg))
  }

  /** Requests 0..n have arrived without a cookie. */
  ghost predicate Arrived(run: seq<Action>, n: nat) {
    forall r: nat :: r < n ==> Arrive(r, "", Email(EMAIL)) in run
  }

  /** The first `k` requests have been answered with the cookie of the ID they drew. */
  ghost predicate PlantedFor(cfg: Config, s: State, draws: seq<seq<Byte>>, k: nat) {
    forall r: nat :: r < k ==> r < |draws| && r in s.reqs && s.reqs[r].pc == Done(Plant(cfg.Sign(Sid(draws, r))))
  }

  /** Of `n` such requests the first `k` have inserted their rows. */
  ghost predicate SomeInserted(cfg: Config, s: State, draws: seq<seq<Byte>>, k: nat) {
    var n := |draws|;
    && k <= n && s.clock == 0 && s.deleted == {} && |s.log| == k && |s.reqs| == n
    && (forall r: nat :: (r in s.reqs <==> r < n) && (k <= r < n ==> s.reqs[r] == Waiting(cfg)))
    && (forall r: nat :: k <= r < n ==> Sid(draws, r) !in s.used)
    && PlantedFor(cfg, s, draws, k)
    && (forall e <- s.log :: e.row.userId == USER && e.row.createdAt == 0 && e.rivals <= s.reqs.Keys)
  }

  lemma OneMore(cfg: Config, n: nat, before: seq<Action>) returns (run: seq<Action>)
    requires ValidRun(cfg, Empty(), before) && AllWaiting(cfg, After(cfg, Empty(), before), n)
    ensures ValidRun(cfg, Empty(), run) && AllWaiting(cfg, After(cfg, Empty(), run), n + 1)
    ensures Arrived(before, n) ==> Arrived(run, n + 1)
  {
    hide ValidRun, After;
    run := before;
    Extend(cfg, Empty(), run, Arrive(n, "", Email(EMAIL)));
    run := run + [Arrive(n, "", Email(EMAIL))];
    Extend(cfg, Empty(), run, Proceed(n, Go));
    run := run + [Proceed(n, Go)];
    Extend(cfg, Empty(), run, Proceed(n, Go));
    run := run + [Proceed(n, Go)];
    Extend(cfg, Empty(), run, Proceed(n, Go));
    run := run + [Proceed(n, Go)];
  }

  lemma {:induction false} Gather(cfg: Config, n: nat) returns (run: seq<Action>)
    ensures ValidRun(cfg, Empty(), run) && AllWaiting(cfg, After(cfg, Empty(), run), n)
    ensures Arrived(run, n)
  {
    run := [];
    if n > 0 {
      run := Gather(cfg, n - 1);
      run := OneMore(cfg, n - 1, run);
    }
  }

  /** The request moves to `pc`, and `drawn` is used up; the table stays. */
  ghost function Moved(s: State, r: ReqId, pc: Pc, drawn: set<string>): State
    requires r in s.reqs
  {
    s.(reqs := s.reqs[r := s.reqs[r].(pc := pc)], used := s.used + drawn)
  }

  lemma DrawStep(cfg: Config, s: State, r: ReqId, bytes: seq<Byte>) returns (oid: string)
    requires r in s.reqs && s.reqs[r].pc == Drawing && |bytes| == 24 && Encode(UrlSafe, bytes) !in s.used
    ensures var a := Proceed(r, Draw(bytes, seq(8, _ => 0)));
            Enabled(s, a) && Step(cfg, s, a) ==
              Moved(s, r, Building(Encode(UrlSafe, bytes), oid), {Encode(UrlSafe, bytes)})
  {
    var a := Proceed(r, Draw(bytes, seq(8, _ => 0)));
    oid := Step(cfg, s, a).reqs[r].pc.oid;
  }

  lemma BuildStep(cfg: Config, s: State, r: ReqId) returns (data: SessionData)
    requires r in s.reqs && s.reqs[r].pc.Building?
    ensures Enabled(s, Proceed(r, Go))
    ensures Step(cfg, s, Proceed(r, Go)) == Moved(s, r, Timing(s.reqs[r].pc.sid, s.reqs[r].pc.oid, data), {})
  {
    data := Step(cfg, s, Proceed(r, Go)).reqs[r].pc.data;
  }

  lemma TimeStep(cfg: Config, s: State, r: ReqId) returns (row: Row)
    requires r in s.reqs && s.reqs[r].pc.Timing?
    ensures Enabled(s, Proceed(r, Go)) && Step(cfg, s, Proceed(r, Go)) == Moved(s, r, Inserting(row), {})
    ensures row.userId == s.reqs[r].userId && row.createdAt == s.clock && row.sessionId == s.reqs[r].pc.sid
  {
    row := Step(cfg, s, Proceed(r, Go)).reqs[r].pc.row;
  }

  lemma InsertStep(cfg: Config, s: State, r: ReqId)
    requires r in s.reqs && s.reqs[r].pc.Inserting?
    ensures Enabled(s, Proceed(r, Go))
    ensures var s', row := Step(cfg, s, Proceed(r, Go)), s.reqs[r].pc.row;
            && r in s'.reqs && s'.reqs[r].pc == Done(Plant(cfg.Sign(row.sessionId)))
            && s' == s.(rows := s'.rows, reqs := s.reqs[r := s'.reqs[r]],
                        log := s.log + [Insertion(r, row, Rivals(s, s.reqs[r].userId))])
  {
  }

  lemma NextInLine(cfg: Config, s: State, draws: seq<seq<Byte>>, k: nat)
    requires Draws(draws) && k < |draws| && SomeInserted(cfg, s, draws, k)
    ensures k in s.reqs && s.reqs[k] == Waiting(cfg) && Sid(draws, k) !in s.used && s.clock == 0 && |draws[k]| == 24
  {
    hide Sid;
  }

  /** Request `k` draws its ID and gets ready; nothing else changes. */
  lemma GetReady(cfg: Config, draws: seq<seq<Byte>>, k: nat, before: seq<Action>) returns (run: seq<Action>, row: Row)
    requires Draws(draws) && k < |draws|
    requires ValidRun(cfg, Empty(), before) && SomeInserted(cfg, After(cfg, Empty(), before), draws, k)
    ensures ValidRun(cfg, Empty(), run)
    ensures After(cfg, Empty(), run) == Moved(After(cfg, Empty(), before), k, Inserting(row), {Sid(draws, k)})
    ensures row.userId == USER && row.createdAt == 0 && row.sessionId == Sid(draws, k) && before <= run
  {
    hide ValidRun, After, Step, Enabled, SomeInserted, Empty;
    var s := After(cfg, Empty(), before);
    NextInLine(cfg, s, draws, k);
    var draw := Proceed(k, Draw(draws[k], seq(8, _ => 0)));
    var oid := DrawStep(cfg, s, k, draws[k]);
    Extend(cfg, Empty(), before, draw);
    run := before + [draw];
    var data := BuildStep(cfg, After(cfg, Empty(), run), k);
    Extend(cfg, Empty(), run, Proceed(k, Go));
    run := run + [Proceed(k, Go)];
    row := TimeStep(cfg, After(cfg, Empty(), run), k);
    Extend(cfg, Empty(), run, Proceed(k, Go));
    run := run + [Proceed(k, Go)];
  }

  /** The INSERT of the request that is next in line. */
  lemma NextInserts(cfg: Config, s: State, draws: seq<seq<Byte>>, k: nat, row: Row)
    requires Draws(draws) && k < |draws| && SomeInserted(cfg, s, draws, k)
    requires row.userId == USER && row.createdAt == 0 && row.sessionId == Sid(draws, k)
    ensures var t := Moved(s, k, Inserting(row), {Sid(draws, k)});
            Enabled(t, Proceed(k, Go)) && SomeInserted(cfg, Step(cfg, t, Proceed(k, Go)), draws, k + 1)
  {
    hide Step, Enabled, Sid, Draws, PlantedFor, Rivals, Config.Sign;
    var t := Moved(s, k, Inserting(row), {Sid(draws, k)});
    DifferentIds(draws, k);
    InsertStep(cfg, t, k);
    var t' := Step(cfg, t, Proceed(k, Go));
    KeysKept(s.reqs, t.reqs, t'.reqs, k, t'.reqs[k]);
    OneMorePlanted(cfg, s, t', draws, k);
    RivalsAreRequests(t, USER);
    assert t'.log[..k] == s.log;
  }

  lemma KeysKept(a: map<ReqId, Request>, b: map<ReqId, Request>, c: map<ReqId, Request>, k: nat, q: Request)
    requires k in a && k in b && b == a[k := b[k]] && c == b[k := q]
    ensures c.Keys == a.Keys && |c| == |a| && forall r <- a :: r != k ==> c[r] == a[r]
  {
    assert |c| == |c.Keys| && |a| == |a.Keys|;
  }

  lemma RivalsAreRequests(s: State, userId: string)
    ensures Rivals(s, userId) <= s.reqs.Keys
  {
  }

  lemma OneMorePlanted(cfg: Config, s: State, t: State, draws: seq<seq<Byte>>, k: nat)
    requires PlantedFor(cfg, s, draws, k) && k < |draws| && k in t.reqs
    requires t.reqs[k].pc == Done(Plant(cfg.Sign(Sid(draws, k))))
    requires forall r <- s.reqs :: r != k ==> r in t.reqs && t.reqs[r] == s.reqs[r]
    ensures PlantedFor(cfg, t, draws, k + 1)
  {
  }

  lemma InsertNext(cfg: Config, draws: seq<seq<Byte>>, k: nat, before: seq<Action>) returns (run: seq<Action>)
    requires Draws(draws) && k < |draws|
    requires ValidRun(cfg, Empty(), before) && SomeInserted(cfg, After(cfg, Empty(), before), draws, k)
    ensures ValidRun(cfg, Empty(), run) && SomeInserted(cfg, After(cfg, Empty(), run), draws, k + 1)
    ensures before <= run
  {
    hide ValidRun, After, Sid, Step, Enabled, SomeInserted, Moved, Draws, Empty;
    var ready, row := GetReady(cfg, draws, k, before);
    NextInserts(cfg, After(cfg, Empty(), before), draws, k, row);
    Extend(cfg, Empty(), ready, Proceed(k, Go));
    run := ready + [Proceed(k, Go)];
  }

  lemma DifferentIds(draws: seq<seq<Byte>>, k: nat)
    requires Draws(draws) && k < |draws|
    ensures forall r: nat :: k < r < |draws| ==> Sid(draws, r) != Sid(draws, k)
  {
    forall r: nat | k < r < |draws| ensures Sid(draws, r) != Sid(draws, k) {
      if Sid(draws, r) == Sid(draws, k) {
        EncodeInjective(UrlSafe, draws[r], draws[k]);
      }
    }
  }

  lemma {:induction false} InsertAll(cfg: Config, draws: seq<seq<Byte>>, k: nat) returns (run: seq<Action>)
    requires Draws(draws) && k <= |draws|
    ensures ValidRun(cfg, Empty(), run) && SomeInserted(cfg, After(cfg, Empty(), run), draws, k)
    ensures Arrived(run, |draws|)
  {
    hide ValidRun, After, SomeInserted, AllWaiting, Empty, Arrived, Draws;
    if k == 0 {
      run := Gather(cfg, |draws|);
      NoneInserted(cfg, After(cfg, Empty(), run), draws);
    } else {
      var before := InsertAll(cfg, draws, k - 1);
      run := InsertNext(cfg, draws, k - 1, before);
      ArrivedBefore(before, run, |draws|);
    }
  }

  lemma NoneInserted(cfg: Config, s: State, draws: seq<seq<Byte>>)
    requires AllWaiting(cfg, s, |draws|)
    ensures SomeInserted(cfg, s, draws, 0)
  {
    hide Waiting, Sid;
  }

  lemma ArrivedBefore(before: seq<Action>, run: seq<Action>, n: nat)
    requires Arrived(before, n) && before <= run
    ensures Arrived(run, n)
  {
  }

  /**
   Reuse does not prevent duplicates of concurrent requests, although the comment at its call says so: for
   every number of requests there is a run, from an empty table, in which each comes without a cookie, inserts a
   row for the same user at the same time and is answered with that row's cookie. WindowBound is then an equality.
   */
  lemma BoundIsReached(cfg: Config, draws: seq<seq<Byte>>) returns (run: seq<Action>)
    requires cfg.days > 0 && Draws(draws) && draws != []
    ensures Init(Empty()) && ValidRun(cfg, Empty(), run)
    ensures var s := After(cfg, Empty(), run);
            && |s.reqs| == |draws| && |InWindow(cfg, s, USER, 0)| == |draws| == |s.log[0].rivals|
            && Arrived(run, |draws|) && PlantedFor(cfg, s, draws, |draws|)
  {
    run := InsertAll(cfg, draws, |draws|);
    var s := After(cfg, Empty(), run);
    AllCounted(cfg, s, draws, |draws|);
    WindowBound(cfg, Empty(), run, USER, 0, 0);
    Fewer(s.log[0].rivals, s.reqs.Keys);
  }

  lemma Fewer<T>(a: set<T>, b: set<T>)
    requires a <= b
    ensures |a| <= |b|
  {
    assert b == a + (b - a);
  }

  lemma AllCounted(cfg: Config, s: State, draws: seq<seq<Byte>>, n: nat)
    requires cfg.days > 0 && SomeInserted(cfg, s, draws, n)
    ensures (forall k: nat :: k in InWindow(cfg, s, USER, 0) <==> k < n) && |InWindow(cfg, s, USER, 0)| == n
  {
    hide PlantedFor, Sid, Waiting;
    CountBelow(InWindow(cfg, s, USER, 0), n);
  }

  lemma {:induction false} CountBelow(ks: set<nat>, n: nat)
    requires forall k: nat :: k in ks <==> k < n
    ensures |ks| == n
  {
    if n > 0 {
      CountBelow(ks - {n - 1}, n - 1);
    }
  }
}
