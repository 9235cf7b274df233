/**
 The set-up script against the Authentik API, call by call. Any call may fail; the script then exits,
 and a failing write may have been applied or not.
 */
module SetupScript {
  import opened Wrappers
  import opened SetupPlan
  import opened SetupConvergence

  // ------------------------------------------------------------- flows

  datatype Flow = Flow(slug: string, pk: string)

  /** All flows, page after page. */
  function AllFlows(pages: seq<seq<Flow>>): seq<Flow> {
    if pages == [] then [] else pages[0] + AllFlows(pages[1..])
  }

  /** The key of the flow with that slug, or "". */
  function Lookup(flows: seq<Flow>, slug: string): string {
    if flows == [] then "" else if flows[0].slug == slug then flows[0].pk else Lookup(flows[1..], slug)
  }

  /** Some page lists a flow with that slug and key. */
  ghost predicate Listed(pages: seq<seq<Flow>>, slug: string, pk: string) {
    exists page <- pages :: Flow(slug, pk) in page
  }

  ghost predicate NotListed(pages: seq<seq<Flow>>, slug: string) {
    forall page <- pages, f <- page :: f.slug != slug
  }

  /** The lookup finds the flow that a page lists, and nothing exactly when none does. */
  lemma {:induction false} LookupIsListed(pages: seq<seq<Flow>>, slug: string)
    requires forall f <- AllFlows(pages) :: f.pk != ""
    ensures var pk := Lookup(AllFlows(pages), slug);
            (pk != "" ==> Listed(pages, slug, pk)) && (pk == "" <==> NotListed(pages, slug))
  {
    if pages != [] {
      forall f <- AllFlows(pages[1..]) ensures f in AllFlows(pages) {
      }
      forall f <- pages[0] ensures f in AllFlows(pages) {
      }
      LookupIsListed(pages[1..], slug);
      LookupOfAppend(pages[0], AllFlows(pages[1..]), slug);
      LookupInPage(pages[0], slug);
      assert pages == [pages[0]] + pages[1..];
    }
  }

  lemma {:induction false} LookupInPage(page: seq<Flow>, slug: string)
    requires forall f <- page :: f.pk != ""
    ensures var pk := Lookup(page, slug);
            (pk != "" ==> Flow(slug, pk) in page) && (pk == "" <==> forall f <- page :: f.slug != slug)
  {
    if page != [] {
      LookupInPage(page[1..], slug);
      assert page[0] in page && page == [page[0]] + page[1..];
    }
  }

  /** Slugs are unique and keys are not empty. */
  ghost predicate WellFormed(flows: seq<Flow>) {
    (forall f <- flows :: f.pk != "") && forall i, j :: 0 <= i < j < |flows| ==> flows[i].slug != flows[j].slug
  }

  lemma {:induction false} LookupOfAppend(a: seq<Flow>, b: seq<Flow>, slug: string)
    requires forall f <- a :: f.pk != ""
    ensures Lookup(a + b, slug) == if Lookup(a, slug) != "" then Lookup(a, slug) else Lookup(b, slug)
  {
    if a == [] {
      assert a + b == b;
    } else {
      LookupOfAppend(a[1..], b, slug);
      assert (a + b)[1..] == a[1..] + b;
      assert a[0] in a;
    }
  }

  lemma {:induction false} LookupMissing(a: seq<Flow>, slug: string)
    requires forall f <- a :: f.slug != slug
    ensures Lookup(a, slug) == ""
  {
    if a != [] {
      assert a[0] in a;
      LookupMissing(a[1..], slug);
    }
  }

  lemma {:induction false} AllFlowsOfAppend(pages: seq<seq<Flow>>, page: seq<Flow>)
    ensures AllFlows(pages + [page]) == AllFlows(pages) + page
  {
    if pages == [] {
      assert pages + [page] == [page];
      assert AllFlows([page]) == page + AllFlows([]);
    } else {
      AllFlowsOfAppend(pages[1..], page);
      assert (pages + [page])[1..] == pages[1..] + [page];
    }
  }

  /** Scanning one more flow, as the loop does: a match overwrites the variable. */
  lemma ScanOne(flows: seq<Flow>, n: nat, slug: string)
    requires WellFormed(flows) && n < |flows|
    ensures Lookup(flows[..n + 1], slug) == if flows[n].slug == slug then flows[n].pk else Lookup(flows[..n], slug)
  {
    assert flows[..n + 1] == flows[..n] + [flows[n]];
    LookupOfAppend(flows[..n], [flows[n]], slug);
    if flows[n].slug == slug {
      forall f <- flows[..n] ensures f.slug != slug {
        var i :| 0 <= i < n && flows[i] == f;
      }
      LookupMissing(flows[..n], slug);
    }
  }

  lemma FoundIsListed(pages: seq<seq<Flow>>, slug: string)
    requires WellFormed(AllFlows(pages))
    ensures var pk := Lookup(AllFlows(pages), slug);
            (pk != "" ==> Listed(pages, slug, pk)) && (pk == "" <==> NotListed(pages, slug))
  {
    hide AllFlows;
    LookupIsListed(pages, slug);
  }

  lemma NothingScanned(pages: seq<seq<Flow>>, slug: string)
    ensures AllFlows(pages[..0]) == [] && Lookup(AllFlows(pages)[..0], slug) == ""
  {
  }

  /** What a prefix has found stays found. */
  lemma FoundInPrefix(flows: seq<Flow>, n: nat, slug: string)
    requires WellFormed(flows) && n <= |flows|
    ensures Lookup(flows[..n], slug) != "" ==> Lookup(flows, slug) == Lookup(flows[..n], slug)
  {
    assert flows == flows[..n] + flows[n..];
    LookupOfAppend(flows[..n], flows[n..], slug);
  }

  lemma {:induction false} FlowsBefore(pages: seq<seq<Flow>>, n: nat)
    requires n < |pages|
    ensures var done := |AllFlows(pages[..n])|; var all := AllFlows(pages);
            done + |pages[n]| <= |all| && all[..done] == AllFlows(pages[..n]) &&
            all[done..done + |pages[n]|] == pages[n] && AllFlows(pages[..n + 1]) == all[..done + |pages[n]|]
  {
    assert pages[..n + 1] == pages[..n] + [pages[n]];
    AllFlowsOfAppend(pages[..n], pages[n]);
    FlowsSplit(pages, n + 1);
  }

  lemma {:induction false} FlowsSplit(pages: seq<seq<Flow>>, n: nat)
    requires n <= |pages|
    ensures AllFlows(pages) == AllFlows(pages[..n]) + AllFlows(pages[n..])
    decreases |pages| - n
  {
    if n == |pages| {
      assert pages[..n] == pages && pages[n..] == [];
    } else {
      FlowsSplit(pages, n + 1);
      assert pages[..n + 1] == pages[..n] + [pages[n]];
      AllFlowsOfAppend(pages[..n], pages[n]);
      assert pages[n..][1..] == pages[n + 1..];
    }
  }

  datatype FlowKeys = Found(auth: string, invalidation: string) | NoAuthFlow | NoInvalidationFlow | CallFailed

  // ------------------------------------------------------------- the API

  class Api {
    const pages: seq<seq<Flow>>
    var remote: Remote
    /** The key the next created provider gets. */
    var key: int
    /** How many calls have failed so far. */
    ghost var faults: nat
    /** The POST and PATCH calls made so far, in order, whether they succeeded or not. */
    ghost var writes: seq<Write>

    constructor (pages: seq<seq<Flow>>, remote: Remote, key: int)
      requires pages != []
      ensures this.pages == pages && this.remote == remote && this.key == key && faults == 0 && writes == []
    {
      this.pages, this.remote, this.key, faults, writes := pages, remote, key, 0, [];
    }

    /** Pages count from 1; the second result is the `next` field. */
    method GetFlows(page: nat) returns (r: Option<(seq<Flow>, bool)>)
      requires 1 <= page <= |pages|
      modifies `faults
      ensures faults == old(faults) + (if r.None? then 1 else 0)
      ensures r.Some? ==> r.value == (pages[page - 1], page < |pages|)
    {
      var failed: bool := *;
      faults := if failed then faults + 1 else faults;
      r := if failed then None else Some((pages[page - 1], page < |pages|));
    }

    method GetProviders() returns (r: Option<seq<Provider>>)
      modifies `faults
      ensures faults == old(faults) + (if r.None? then 1 else 0)
      ensures r.Some? ==> r.value == ProviderList(remote)
    {
      var failed: bool := *;
      faults := if failed then faults + 1 else faults;
      r := if failed then None else Some(ProviderList(remote));
    }

    method GetApps() returns (r: Option<seq<App>>)
      modifies `faults
      ensures faults == old(faults) + (if r.None? then 1 else 0)
      ensures r.Some? ==> r.value == AppList(remote)
    {
      var failed: bool := *;
      faults := if failed then faults + 1 else faults;
      r := if failed then None else Some(AppList(remote));
    }

    method GetOutposts(embedded: bool) returns (r: Option<seq<Outpost>>)
      modifies `faults
      ensures faults == old(faults) + (if r.None? then 1 else 0)
      ensures r.Some? ==> r.value == if embedded then EmbeddedList(remote) else ProxyList(remote)
    {
      var failed: bool := *;
      faults := if failed then faults + 1 else faults;
      r := if failed then None else Some(if embedded then EmbeddedList(remote) else ProxyList(remote));
    }

    method Perform(w: Write) returns (ok: bool)
      modifies this
      ensures remote == Apply(old(remote), w) || (!ok && remote == old(remote))
      ensures writes == old(writes) + [w] && faults == old(faults) + (if ok then 0 else 1)
      ensures key >= old(key) && (w.PostProvider? && remote != old(remote) ==> key > old(key))
    {
      ok := *;
      var applied: bool := *;
      if ok || applied {
        remote := Apply(remote, w);
        key := key + 1;
      }
      faults := if ok then faults else faults + 1;
      writes := writes + [w];
    }
  }

  // ------------------------------------------------------------- the steps

  /**
   The paged scan with its early exits finds what a search of all pages would find, also when both slugs
   are the same, and fails exactly when a call fails or one of them is on no page.
   */
  method FindFlows(api: Api, authSlug: string, invalidationSlug: string) returns (r: FlowKeys)
    requires api.pages != [] && WellFormed(AllFlows(api.pages))
    modifies api`faults
    ensures old(api.faults) <= api.faults && (r.CallFailed? <==> api.faults > old(api.faults))
    ensures var flows := AllFlows(api.pages);
            match r
            case Found(auth, invalidation) =>
              && auth == Lookup(flows, authSlug) != "" && invalidation == Lookup(flows, invalidationSlug) != ""
              && Listed(api.pages, authSlug, auth) && Listed(api.pages, invalidationSlug, invalidation)
            case NoAuthFlow => Lookup(flows, authSlug) == "" && NotListed(api.pages, authSlug)
            case NoInvalidationFlow =>
              && Lookup(flows, invalidationSlug) == "" && NotListed(api.pages, invalidationSlug)
              && Lookup(flows, authSlug) != "" && !NotListed(api.pages, authSlug)
            case CallFailed => true
  {
    hide WellFormed, AllFlows, Lookup, Listed, NotListed;
    FoundIsListed(api.pages, authSlug);
    FoundIsListed(api.pages, invalidationSlug);
    ghost var flows := AllFlows(api.pages);
    NothingScanned(api.pages, authSlug);
    NothingScanned(api.pages, invalidationSlug);
    var auth, invalidation := "", "";
    var page := 1;
    ghost var scanned := 0;
    while true
      invariant 1 <= page <= |api.pages|
      invariant api.faults == old(api.faults)
      invariant scanned == |AllFlows(api.pages[..page - 1])| <= |flows|
      invariant auth == Lookup(flows[..scanned], authSlug) && invalidation == Lookup(flows[..scanned], invalidationSlug)
      decreases |api.pages| - page
    {
      var result := api.GetFlows(page);
      if result.None? {
        return CallFailed;
      }
      var listed := result.value.0;
      FlowsBefore(api.pages, page - 1);
      ghost var start := scanned;
      var i := 0;
      while i < |listed|
        invariant api.faults == old(api.faults)
        invariant 0 <= i <= |listed| && scanned == start + i
        invariant auth == Lookup(flows[..scanned], authSlug) &&
          invalidation == Lookup(flows[..scanned], invalidationSlug)
      {
        assert listed[i] == flows[start..start + |listed|][i] == flows[scanned];
        ScanOne(flows, scanned, authSlug);
        ScanOne(flows, scanned, invalidationSlug);
        if listed[i].slug == authSlug {
          auth := listed[i].pk;
        }
        if listed[i].slug == invalidationSlug {
          invalidation := listed[i].pk;
        }
        scanned := scanned + 1;
        if auth != "" && invalidation != "" {
          break;
        }
        i := i + 1;
      }
      if (auth != "" && invalidation != "") || !result.value.1 {
        assert auth == "" || invalidation == "" ==> api.pages[..page] == api.pages;
        break;
      }
      assert api.pages[..page - 1 + 1] == api.pages[..page];
      page := page + 1;
    }
    FoundInPrefix(flows, scanned, authSlug);
    FoundInPrefix(flows, scanned, invalidationSlug);
    assert auth == "" || invalidation == "" ==> flows[..scanned] == flows;
    if auth == "" {
      return NoAuthFlow;
    }
    if invalidation == "" {
      return NoInvalidationFlow;
    }
    r := Found(auth, invalidation);
  }

  /**
   The calls made are the first of the planned ones, and the state is what they make of `before`, or what all
   of them but the last make of it.
   */
  ghost predicate Partly(before: Remote, now: Remote, planned: seq<Write>, issued: seq<Write>) {
    issued <= planned &&
    exists k :: 0 <= k <= |issued| <= k + 1 && now == ApplyAll(before, planned[..k])
  }

  lemma NothingDone(r: Remote, ws: seq<Write>)
    ensures Partly(r, r, ws, []) && (ws == [] ==> ApplyAll(r, ws) == r)
  {
    assert ws[..0] == [];
    assert ApplyAll(r, ws[..0]) == r;
  }

  lemma OneDone(r: Remote, w: Write)
    ensures ApplyAll(r, [w]) == Apply(r, w) && Partly(r, Apply(r, w), [w], [w]) && Partly(r, r, [w], [w])
  {
    ApplySingle(r, w);
    assert [w][..1] == [w] && [w][..0] == [];
    assert ApplyAll(r, [w][..0]) == r;
  }

  /**
   What a step did and said. On a dry run it makes no call that writes and announces the planned writes; else it
   makes exactly the planned calls and says nothing; when it fails, it has done a part of that.
   */
  ghost predicate Did(before: Remote, after: Remote, issued: seq<Write>, out: seq<Announcement>,
                      planned: seq<Write>, dryRun: bool, ok: bool) {
    if dryRun then after == before && issued == [] && out <= Announced(planned) && (ok ==> out == Announced(planned))
    else out == [] && (if ok then issued == planned && after == ApplyAll(before, planned)
      else Partly(before, after, planned, issued))
  }

  /** The writes made since there were `n`. */
  ghost function Since(api: Api, n: nat): seq<Write>
    reads api
    requires n <= |api.writes|
  {
    api.writes[n..]
  }

  lemma NothingDid(r: Remote, planned: seq<Write>, dryRun: bool)
    ensures Did(r, r, [], [], planned, dryRun, false)
  {
    NothingDone(r, planned);
  }

  lemma StepState(r: Remote, m: Remote, issued: seq<Write>, out: seq<Announcement>, planned: seq<Write>, dryRun: bool)
    requires Did(r, m, issued, out, planned, dryRun, true)
    ensures m == if dryRun then r else ApplyAll(r, planned)
  {
  }

  method CreateProvider(api: Api, flow: string, invalidation: string, dryRun: bool)
    returns (r: Option<int>, out: seq<Announcement>)
    modifies api
    ensures (dryRun ==> api.key == old(api.key)) && old(api.key) <= api.key
    ensures old(api.faults) <= api.faults && (r.Some? <==> api.faults == old(api.faults))
    ensures old(api.writes) <= api.writes
    ensures var before, key := old(api.remote), if dryRun then PLACEHOLDER else old(api.key);
            && (r.Some? ==> r.value == ProviderKey(before, key))
            && Did(before, api.remote, Since(api, |old(api.writes)|), out,
                   ProviderWrites(before, Payload(flow, invalidation), key), dryRun, r.Some?)
  {
    out := [];
    var data := Payload(flow, invalidation);
    NothingDone(api.remote, ProviderWrites(api.remote, data, api.key));
    var listed := api.GetProviders();
    if listed.None? {
      return None, out;
    }
    var existing := FirstWith(listed.value, IsProvider);
    if existing.Some? {
      return Some(existing.value.pk), out;
    }
    if dryRun {
      return Some(PLACEHOLDER), [WouldCreateProvider];
    }
    var pk := api.key;
    OneDone(api.remote, PostProvider(pk, data));
    var ok := api.Perform(PostProvider(pk, data));
    r := if ok then Some(pk) else None;
  }

  method CreateApplication(api: Api, pk: int, dryRun: bool) returns (ok: bool, out: seq<Announcement>)
    modifies api
    ensures (dryRun ==> api.key == old(api.key)) && old(api.key) <= api.key
    ensures old(api.faults) <= api.faults && (ok <==> api.faults == old(api.faults))
    ensures old(api.writes) <= api.writes
    ensures Did(old(api.remote), api.remote, Since(api, |old(api.writes)|), out, AppWrites(old(api.remote), pk),
      dryRun, ok)
  {
    out := [];
    NothingDone(api.remote, AppWrites(api.remote, pk));
    var listed := api.GetApps();
    if listed.None? {
      return false, out;
    }
    var existing := FirstWith(listed.value, IsApp);
    if existing.Some? {
      if existing.value.provider == Some(pk) {
        return true, out;
      }
      if dryRun {
        return true, [WouldUpdateApp(existing.value.slug)];
      }
      OneDone(api.remote, PatchApp(existing.value.slug, pk));
      ok := api.Perform(PatchApp(existing.value.slug, pk));
      return;
    }
    if dryRun {
      return true, [WouldCreateApp];
    }
    OneDone(api.remote, PostApp(pk));
    ok := api.Perform(PostApp(pk));
  }

  /** Without any proxy outpost the step only prints a hint. */
  method AssignToOutpost(api: Api, pk: int, dryRun: bool) returns (ok: bool, out: seq<Announcement>)
    modifies api
    ensures (dryRun ==> api.key == old(api.key)) && old(api.key) <= api.key
    ensures old(api.faults) <= api.faults && (ok <==> api.faults == old(api.faults))
    ensures old(api.writes) <= api.writes
    ensures Did(old(api.remote), api.remote, Since(api, |old(api.writes)|), out, OutpostWrites(old(api.remote), pk),
      dryRun, ok)
  {
    out := [];
    NothingDone(api.remote, OutpostWrites(api.remote, pk));
    var listed := api.GetOutposts(true);
    if listed.None? {
      return false, out;
    }
    if listed.value == [] {
      listed := api.GetOutposts(false);
      if listed.None? {
        return false, out;
      }
    }
    if listed.value == [] {
      return true, out;
    }
    var outpost := listed.value[0];
    if pk in outpost.providers {
      return true, out;
    }
    var updated := outpost.providers + [pk];
    if dryRun {
      return true, [WouldUpdateOutpost(outpost.pk)];
    }
    OneDone(api.remote, PatchOutpost(outpost.pk, updated));
    ok := api.Perform(PatchOutpost(outpost.pk, updated));
  }

  // ------------------------------------------------------------- the whole script

  /** The payload depends on the flows only. */
  function SetupData(api: Api, authSlug: string, invalidationSlug: string): ProviderData {
    var flows := AllFlows(api.pages);
    Payload(Lookup(flows, authSlug), Lookup(flows, invalidationSlug))
  }

  /** A failed step, seen as a failure of a longer plan that begins with it. */
  lemma PartlyThenMore(r: Remote, m: Remote, a: seq<Write>, b: seq<Write>, issued: seq<Write>)
    requires Partly(r, m, a, issued)
    ensures Partly(r, m, a + b, issued)
  {
    var k :| 0 <= k <= |issued| <= k + 1 && m == ApplyAll(r, a[..k]);
    assert (a + b)[..k] == a[..k];
    assert (a + b)[..|issued|] == issued;
  }

  lemma AllThenPartly(r: Remote, m: Remote, a: seq<Write>, b: seq<Write>, issued: seq<Write>)
    requires Partly(ApplyAll(r, a), m, b, issued)
    ensures Partly(r, m, a + b, a + issued)
  {
    var k :| 0 <= k <= |issued| <= k + 1 && m == ApplyAll(ApplyAll(r, a), b[..k]);
    ApplyInParts(r, a, b[..k]);
    assert (a + b)[..|a| + k] == a + b[..k];
    assert |a + issued| <= |a| + k + 1;
  }

  /** One step after another, when the first has gone through. */
  lemma ThenDid(r: Remote, m: Remote, after: Remote, issued: seq<Write>, issued': seq<Write>,
                out: seq<Announcement>, out': seq<Announcement>, a: seq<Write>, b: seq<Write>, dryRun: bool, ok: bool)
    requires Did(r, m, issued, out, a, dryRun, true) && Did(m, after, issued', out', b, dryRun, ok)
    ensures Did(r, after, issued + issued', out + out', a + b, dryRun, ok)
  {
    hide ApplyAll, Partly;
    assert Announced(a + b) == Announced(a) + Announced(b);
    if !dryRun {
      ApplyInParts(r, a, b);
      if !ok {
        AllThenPartly(r, after, a, b, issued');
      }
    }
  }

  /** A step that failed, as a failure of the longer plan. */
  lemma FailedEarly(r: Remote, m: Remote, issued: seq<Write>, out: seq<Announcement>, a: seq<Write>, b: seq<Write>,
                    dryRun: bool)
    requires Did(r, m, issued, out, a, dryRun, false)
    ensures Did(r, m, issued, out, a + b, dryRun, false)
  {
    hide ApplyAll, Partly;
    assert Announced(a + b) == Announced(a) + Announced(b);
    if !dryRun {
      PartlyThenMore(r, m, a, b, issued);
    }
  }

  /** A step reads only the list it works on, which the steps before it leave alone. */
  lemma LaterStepsSeeTheSame(r: Remote, data: ProviderData, key: int)
    ensures var pk := ProviderKey(r, key); var m1 := ApplyAll(r, ProviderWrites(r, data, key));
            && AppWrites(m1, pk) == AppWrites(r, pk)
            && OutpostWrites(ApplyAll(m1, AppWrites(r, pk)), pk) == OutpostWrites(r, pk)
  {
    hide FindApp, FindOutpost, FindProvider;
    var pk := ProviderKey(r, key);
    var first := ProviderWrites(r, data, key);
    var m1 := ApplyAll(r, first);
    AppsKept(r, first);
    SameAppFound(r, m1);
    OutpostsKept(r, first);
    OutpostsKept(m1, AppWrites(r, pk));
    SameOutpostFound(r, ApplyAll(m1, AppWrites(r, pk)));
  }

  lemma Completed(before: Remote, after: Remote, issued: seq<Write>, out: seq<Announcement>, data: ProviderData,
                  key: int)
    requires Did(before, after, issued, out, Plan(before, data, key), false, true)
    ensures issued == Plan(before, data, key) && after == Final(before, data, key)
  {
  }

  predicate BothFlows(api: Api, authSlug: string, invalidationSlug: string) {
    Lookup(AllFlows(api.pages), authSlug) != "" && Lookup(AllFlows(api.pages), invalidationSlug) != ""
  }

  /**
   A run completes exactly when no call failed and both flows are there. It then has made exactly the calls of
   the plan, in order; a run that exits early has made a prefix of them, the last one applied or not; a dry run
   has made none and announced the plan with the placeholder key.
   */
  method RunSetup(api: Api, authSlug: string, invalidationSlug: string, dryRun: bool)
    returns (completed: bool, out: seq<Announcement>)
    requires api.pages != [] && WellFormed(AllFlows(api.pages))
    modifies api
    ensures (dryRun ==> api.key == old(api.key)) && old(api.key) <= api.key
    ensures old(api.faults) <= api.faults && old(api.writes) <= api.writes
    ensures completed <==> api.faults == old(api.faults) && BothFlows(api, authSlug, invalidationSlug)
    ensures var before, key := old(api.remote), if dryRun then PLACEHOLDER else old(api.key);
            Did(before, api.remote, Since(api, |old(api.writes)|), out,
                Plan(before, SetupData(api, authSlug, invalidationSlug), key), dryRun, completed)
    ensures completed && !dryRun && FindProvider(old(api.remote)).None? ==>
              var n := |old(api.remote.providers)|;
              && |api.remote.providers| == n + 1
              && Listed(api.pages, authSlug, api.remote.providers[n].data.authorizationFlow)
              && Listed(api.pages, invalidationSlug, api.remote.providers[n].data.invalidationFlow)
  {
    hide ProviderWrites, AppWrites, OutpostWrites, ProviderKey, Lookup, AllFlows, ApplyAll, Partly, Did, Listed,
      FindProvider;
    ghost var before, n := api.remote, |api.writes|;
    ghost var data := SetupData(api, authSlug, invalidationSlug);
    ghost var k := if dryRun then PLACEHOLDER else api.key;
    ghost var w1 := ProviderWrites(before, data, k);
    ghost var w2 := AppWrites(before, ProviderKey(before, k));
    ghost var w3 := OutpostWrites(before, ProviderKey(before, k));
    assert Plan(before, data, k) == w1 + w2 + w3 == w1 + (w2 + w3);
    out := [];
    NothingDid(before, w1 + w2 + w3, dryRun);
    var flows := FindFlows(api, authSlug, invalidationSlug);
    if !flows.Found? {
      assert Since(api, n) == [];
      return false, out;
    }
    LaterStepsSeeTheSame(before, data, k);
    var provider, out1 := CreateProvider(api, flows.auth, flows.invalidation, dryRun);
    ghost var m1, h1 := api.remote, api.writes;
    if provider.None? {
      FailedEarly(before, m1, h1[n..], out1, w1, w2 + w3, dryRun);
      return false, out1;
    }
    StepState(before, m1, h1[n..], out1, w1, dryRun);
    var ok, out2 := CreateApplication(api, provider.value, dryRun);
    ghost var m2, h2 := api.remote, api.writes;
    ThenDid(before, m1, m2, h1[n..], h2[|h1|..], out1, out2, w1, w2, dryRun, ok);
    assert h2[n..] == h1[n..] + h2[|h1|..];
    if !ok {
      FailedEarly(before, m2, h2[n..], out1 + out2, w1 + w2, w3, dryRun);
      return false, out1 + out2;
    }
    StepState(m1, m2, h2[|h1|..], out2, w2, dryRun);
    var out3;
    completed, out3 := AssignToOutpost(api, provider.value, dryRun);
    out := out1 + out2 + out3;
    ghost var h3 := api.writes;
    ThenDid(before, m2, api.remote, h2[n..], h3[|h2|..], out1 + out2, out3, w1 + w2, w3, dryRun, completed);
    assert h3[n..] == h2[n..] + h3[|h2|..];
    if completed && !dryRun {
      Completed(before, api.remote, h3[n..], out, data, k);
      FinalProviderList(before, data, k);
    }
  }

  // ------------------------------------------------------------- aborted, repeated and pretended runs

  /** How far a run got that may have been cut short. */
  lemma AttemptOf(before: Remote, data: ProviderData, key: int, now: Remote, issued: seq<Write>,
                  out: seq<Announcement>, ok: bool) returns (a: Attempt)
    requires Did(before, now, issued, out, Plan(before, data, key), false, ok)
    ensures a.key == key && Possible(before, data, a) && now == LeftBy(before, data, a)
    ensures issued == Plan(before, data, key)[..a.made] && (ok ==> a.applied == |Plan(before, data, key)|)
  {
    hide ApplyAll, Plan;
    var planned := Plan(before, data, key);
    if ok {
      assert planned[..|planned|] == planned;
      a := Attempt(key, |planned|, |planned|);
    } else {
      var k :| 0 <= k <= |issued| <= k + 1 && now == ApplyAll(before, planned[..k]);
      a := Attempt(key, |issued|, k);
    }
  }

  /**
   Any number of runs that may be cut short at any call, and one more. What they call and leave is what the plans
   say. If the last completes and the page shows what is created, the writes applied over all the runs are those
   of one uninterrupted run, each once and in order; the state is what it leaves, with nothing left to write.
   */
  method AbortAndRerun(api: Api, authSlug: string, invalidationSlug: string, tries: nat)
    returns (completed: bool, ghost runs: seq<Attempt>)
    requires api.pages != [] && WellFormed(AllFlows(api.pages))
    modifies api
    ensures |runs| == tries + 1 && (forall a <- runs :: old(api.key) <= a.key) && old(api.writes) <= api.writes
    ensures api.faults == old(api.faults) && BothFlows(api, authSlug, invalidationSlug) ==> completed
    ensures var before, data := old(api.remote), SetupData(api, authSlug, invalidationSlug);
            && AllPossible(before, data, runs) && api.remote == StateAfter(before, data, runs)
            && Since(api, |old(api.writes)|) == CallsOf(before, data, runs)
            && (completed ==> LastCompleted(before, data, runs))
            && (completed && Visible(before) ==>
                  AppliedOf(before, data, runs) == Plan(before, data, FirstKey(runs)) &&
                  api.remote == Final(before, data, FirstKey(runs)) && Plan(api.remote, data, api.key) == [])
  {
    hide Plan, Visible, Did, Final, Lookup, AllFlows, Possible, LeftBy, AllPossible, StateAfter, CallsOf, AppliedOf,
      LastCompleted, FirstKey;
    ghost var before, data, n := api.remote, SetupData(api, authSlug, invalidationSlug), |api.writes|;
    NoRunsYet(before, data);
    runs := [];
    completed := false;
    var tried := 0;
    while tried < tries + 1
      invariant 0 <= tried <= tries + 1 && |runs| == tried
      invariant old(api.key) <= api.key && old(api.writes) <= api.writes && old(api.faults) <= api.faults
      invariant forall a <- runs :: old(api.key) <= a.key
      invariant AllPossible(before, data, runs) && api.remote == StateAfter(before, data, runs)
      invariant Since(api, n) == CallsOf(before, data, runs)
      invariant completed ==> runs != [] && LastCompleted(before, data, runs)
      invariant tried > 0 && api.faults == old(api.faults) && BothFlows(api, authSlug, invalidationSlug) ==> completed
    {
      ghost var m, h, key := api.remote, api.writes, api.key;
      var out;
      completed, out := RunSetup(api, authSlug, invalidationSlug, false);
      ghost var a := AttemptOf(m, data, key, api.remote, api.writes[|h|..], out, completed);
      RunMore(before, data, runs, a);
      assert Since(api, n) == h[n..] + api.writes[|h|..];
      runs := runs + [a];
      tried := tried + 1;
    }
    if completed && Visible(before) {
      AnyRunsConverge(before, data, runs);
      Silent(before, data, FirstKey(runs), api.key);
    }
  }

  lemma NoRunsYet(before: Remote, data: ProviderData)
    ensures AllPossible(before, data, []) && StateAfter(before, data, []) == before && CallsOf(before, data, []) == []
  {
  }

  /**
   A run straight after one that completed makes no call that writes exactly when the page showed, or had room
   for, what the first one created.
   */
  method RunTwice(api: Api, authSlug: string, invalidationSlug: string) returns (completed: bool, ghost between: nat)
    requires api.pages != [] && WellFormed(AllFlows(api.pages))
    modifies api
    ensures |old(api.writes)| <= between <= |api.writes| && old(api.writes) <= api.writes
    ensures api.faults == old(api.faults) && BothFlows(api, authSlug, invalidationSlug) ==> completed
    ensures completed ==>
              var plan := Plan(old(api.remote), SetupData(api, authSlug, invalidationSlug), old(api.key));
              && api.writes[..between] == old(api.writes) + plan
              && (between == |api.writes| <==> Visible(old(api.remote)))
  {
    hide Plan, Visible, Did, Final, Lookup, AllFlows;
    ghost var before, data, key, n := api.remote, SetupData(api, authSlug, invalidationSlug), api.key, |api.writes|;
    var first, out1 := RunSetup(api, authSlug, invalidationSlug, false);
    ghost var m1, h1, key' := api.remote, api.writes, api.key;
    between := |h1|;
    var second, out2 := RunSetup(api, authSlug, invalidationSlug, false);
    completed := first && second;
    if completed {
      Completed(before, m1, h1[n..], out1, data, key);
      Completed(m1, api.remote, api.writes[|h1|..], out2, data, key');
      FurtherRunIsSilentIff(before, data, key, key');
      assert api.writes[..|h1|] == h1 == h1[..n] + h1[n..];
    }
  }

  /**
   A dry run and the live run after it: what the one announced are the calls the other made, by kind and target
   and in order, exactly when a provider was there or the placeholder key and the new one are used alike.
   */
  method DryThenLive(api: Api, authSlug: string, invalidationSlug: string)
    returns (completed: bool, announced: seq<Announcement>)
    requires api.pages != [] && WellFormed(AllFlows(api.pages))
    modifies api
    ensures old(api.writes) <= api.writes
    ensures api.faults == old(api.faults) && BothFlows(api, authSlug, invalidationSlug) ==> completed
    ensures completed ==>
              (announced == Announced(Since(api, |old(api.writes)|)) <==>
               FindProvider(old(api.remote)).Some? || UsedAlike(old(api.remote), 0, old(api.key)))
  {
    hide Plan, Did, Final, Lookup, AllFlows, Announced, UsedAlike, FindProvider;
    ghost var before, data, n := api.remote, SetupData(api, authSlug, invalidationSlug), |api.writes|;
    var first;
    first, announced := RunSetup(api, authSlug, invalidationSlug, true);
    DryIsQuiet(before, api.remote, api.writes[n..], announced, Plan(before, data, PLACEHOLDER), first);
    ghost var h1, key := api.writes, api.key;
    var second, out := RunSetup(api, authSlug, invalidationSlug, false);
    completed := first && second;
    if completed {
      Announcing(before, before, h1[n..], announced, Plan(before, data, PLACEHOLDER));
      Completed(before, api.remote, api.writes[|h1|..], out, data, key);
      DryRunPredictsIff(before, data, key);
      assert api.writes[n..] == api.writes[|h1|..];
    }
  }

  lemma DryIsQuiet(before: Remote, after: Remote, issued: seq<Write>, out: seq<Announcement>, planned: seq<Write>,
                   ok: bool)
    requires Did(before, after, issued, out, planned, true, ok)
    ensures issued == [] && after == before
  {
  }

  lemma Announcing(before: Remote, after: Remote, issued: seq<Write>, out: seq<Announcement>, planned: seq<Write>)
    requires Did(before, after, issued, out, planned, true, true)
    ensures issued == [] && out == Announced(planned) && after == before
  {
  }
}
