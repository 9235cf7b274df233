/** Aborting the set-up at any call and running it again, running it once more, and only pretending to. */
module SetupConvergence {
  import opened Wrappers
  import opened SetupPlan

  // ------------------------------------------------------------- one write

  /** There is room on the page for one more containing match. */
  predicate ProviderRoom(r: Remote) {
    |Kept(r.providers, NamedLike)| < r.page
  }

  predicate AppRoom(r: Remote) {
    |Kept(r.apps, SlugLike)| < r.page
  }

  lemma ExactIsLike()
    ensures forall p: Provider :: IsProvider(p) ==> NamedLike(p)
    ensures forall a: App :: IsApp(a) ==> SlugLike(a)
  {
    forall p: Provider | IsProvider(p) ensures NamedLike(p) {
      assert p.data.name[0..] == p.data.name;
    }
    forall a: App | IsApp(a) ensures SlugLike(a) {
      assert a.slug[0..] == a.slug;
    }
  }

  lemma PageOfAppend<T>(xs: seq<T>, x: T, page: nat)
    ensures FirstPage(xs + [x], page) == if |xs| < page then FirstPage(xs, page) + [x] else FirstPage(xs, page)
  {
    if |xs| >= page {
      assert (xs + [x])[..page] == xs[..page];
      assert xs[..|xs|] == xs;
    }
  }

  /** A created provider is found again exactly when the first page has room for it. */
  lemma AfterPostProvider(r: Remote, key: int, data: ProviderData)
    requires FindProvider(r).None? && data.name == PROVIDER_NAME
    ensures FindProvider(Apply(r, PostProvider(key, data))) == if ProviderRoom(r) then Some(Provider(key, data))
      else None
  {
    var p := Provider(key, data);
    ExactIsLike();
    assert IsProvider(p) && NamedLike(p);
    var matches := Kept(r.providers, NamedLike);
    KeptOfAppend(r.providers, p, NamedLike);
    PageOfAppend(matches, p, r.page);
    FirstOfAppend(FirstPage(matches, r.page), p, IsProvider);
  }

  lemma AfterPostApp(r: Remote, pk: int)
    requires FindApp(r).None?
    ensures FindApp(Apply(r, PostApp(pk))) == if AppRoom(r) then Some(App(APP_NAME, APP_SLUG, Some(pk))) else None
  {
    var a := App(APP_NAME, APP_SLUG, Some(pk));
    ExactIsLike();
    assert IsApp(a) && SlugLike(a);
    var matches := Kept(r.apps, SlugLike);
    KeptOfAppend(r.apps, a, SlugLike);
    PageOfAppend(matches, a, r.page);
    FirstOfAppend(FirstPage(matches, r.page), a, IsApp);
  }

  lemma PageOfMap<T>(xs: seq<T>, f: T -> T, page: nat)
    ensures FirstPage(Mapped(xs, f), page) == Mapped(FirstPage(xs, page), f)
  {
  }

  lemma AfterPatchApp(r: Remote, slug: string, pk: int)
    ensures var m := Apply(r, PatchApp(slug, pk));
            && (FindApp(r).None? ==> FindApp(m).None?)
            && (FindApp(r).Some? ==> FindApp(m) == Some(SetProvider(FindApp(r).value, slug, pk)))
  {
    var f := (a: App) => SetProvider(a, slug, pk);
    KeptOfMap(r.apps, f, SlugLike);
    PageOfMap(Kept(r.apps, SlugLike), f, r.page);
    FirstOfMap(AppList(r), f, IsApp);
  }

  lemma AfterPatchOutpost(r: Remote, pk: string, providers: seq<int>)
    ensures var m := Apply(r, PatchOutpost(pk, providers));
            && (FindOutpost(r).None? ==> FindOutpost(m).None?)
            && (FindOutpost(r).Some? ==> FindOutpost(m) == Some(SetProviders(FindOutpost(r).value, pk, providers)))
  {
    var f := (o: Outpost) => SetProviders(o, pk, providers);
    KeptOfMap(r.outposts, f, IsEmbedded);
    KeptOfMap(r.outposts, f, IsProxy);
    PageOfMap(Kept(r.outposts, IsEmbedded), f, r.page);
    PageOfMap(Kept(r.outposts, IsProxy), f, r.page);
  }

  lemma SameProviderFound(r: Remote, m: Remote)
    requires r.providers == m.providers && r.page == m.page
    ensures FindProvider(r) == FindProvider(m) && ProviderRoom(r) == ProviderRoom(m)
  {
  }

  lemma SameAppFound(r: Remote, m: Remote)
    requires r.apps == m.apps && r.page == m.page
    ensures FindApp(r) == FindApp(m) && AppRoom(r) == AppRoom(m)
  {
  }

  lemma SameOutpostFound(r: Remote, m: Remote)
    requires r.outposts == m.outposts && r.page == m.page
    ensures FindOutpost(r) == FindOutpost(m)
  {
  }

  // ------------------------------------------------------------- resuming

  /** What the script creates it will find again: the page shows it, or has room for it. */
  predicate Visible(r: Remote) {
    (FindProvider(r).Some? || ProviderRoom(r)) && (FindApp(r).Some? || AppRoom(r))
  }

  /** What this write creates, if anything, shows on the page. */
  predicate Shown(r: Remote, w: Write) {
    (w.PostProvider? ==> ProviderRoom(r)) && (w.PostApp? ==> AppRoom(r))
  }

  lemma ProviderFirst(r: Remote, data: ProviderData, key: int, key': int)
    requires data.name == PROVIDER_NAME && FindProvider(r).None?
    ensures var m, w := Apply(r, PostProvider(key, data)), PostProvider(key, data);
            && Plan(r, data, key)[0] == w
            && (Visible(r) ==> Visible(m) && Shown(r, w))
            && (if ProviderRoom(r) then Plan(r, data, key)[1..] == Plan(m, data, key') else FindProvider(m).None?)
  {
    hide FindProvider, FindApp, FindOutpost, ProviderRoom, AppRoom;
    AfterPostProvider(r, key, data);
    var m := Apply(r, PostProvider(key, data));
    SameAppFound(r, m);
    SameOutpostFound(r, m);
    if ProviderRoom(r) {
      assert Plan(r, data, key) == [PostProvider(key, data)] + Plan(m, data, key');
    }
  }

  lemma AppFirst(r: Remote, data: ProviderData, key: int, key': int)
    requires FindProvider(r).Some? && AppWrites(r, ProviderKey(r, key)) != []
    ensures var w := AppWrites(r, ProviderKey(r, key))[0]; var m := Apply(r, w);
            && Plan(r, data, key)[0] == w && !w.PostProvider?
            && (Visible(r) ==> Visible(m) && Shown(r, w))
            && (if w.PostApp? && !AppRoom(r) then FindApp(m).None? else Plan(r, data, key)[1..] == Plan(m, data, key'))
  {
    hide FindProvider, FindApp, FindOutpost, ProviderRoom, AppRoom;
    var pk := ProviderKey(r, key);
    if FindApp(r).None? {
      AfterPostApp(r, pk);
    } else {
      AfterPatchApp(r, FindApp(r).value.slug, pk);
    }
    var w := AppWrites(r, pk)[0];
    var m := Apply(r, w);
    SameProviderFound(r, m);
    SameOutpostFound(r, m);
    if !(w.PostApp? && !AppRoom(r)) {
      assert Plan(r, data, key) == [w] + Plan(m, data, key');
    }
  }

  lemma OutpostFirst(r: Remote, data: ProviderData, key: int, key': int)
    requires FindProvider(r).Some? && AppWrites(r, ProviderKey(r, key)) == []
    requires OutpostWrites(r, ProviderKey(r, key)) != []
    ensures var w := OutpostWrites(r, ProviderKey(r, key))[0]; var m := Apply(r, w);
            && Plan(r, data, key)[0] == w && Shown(r, w)
            && (Visible(r) ==> Visible(m)) && Plan(r, data, key)[1..] == Plan(m, data, key')
  {
    hide FindProvider, FindApp, FindOutpost, ProviderRoom, AppRoom;
    var pk := ProviderKey(r, key);
    var o := FindOutpost(r).value;
    AfterPatchOutpost(r, o.pk, o.providers + [pk]);
    var w := OutpostWrites(r, pk)[0];
    var m := Apply(r, w);
    SameProviderFound(r, m);
    SameAppFound(r, m);
    assert Plan(r, data, key) == [w] + Plan(m, data, key');
  }

  /** A plan posts at most one provider, first, and at most one application. */
  lemma PostsOnce(r: Remote, data: ProviderData, key: int)
    ensures forall i :: 0 < i < |Plan(r, data, key)| ==> !Plan(r, data, key)[i].PostProvider?
    ensures Plan(r, data, key) != [] && Plan(r, data, key)[0].PostApp? ==>
              forall i :: 0 < i < |Plan(r, data, key)| ==> !Plan(r, data, key)[i].PostApp?
  {
    hide FindProvider, FindApp, FindOutpost;
  }

  /** What is not found is posted. */
  lemma LostIsPosted(r: Remote, data: ProviderData, key: int)
    ensures FindProvider(r).None? ==> Plan(r, data, key) != [] && Plan(r, data, key)[0].PostProvider?
    ensures FindApp(r).None? ==> exists w <- Plan(r, data, key) :: w.PostApp?
  {
    hide FindProvider, FindApp, FindOutpost;
    if FindApp(r).None? {
      var pk := ProviderKey(r, key);
      assert AppWrites(r, pk) == [PostApp(pk)];
      assert Plan(r, data, key)[|ProviderWrites(r, data, key)|] == PostApp(pk);
    }
  }

  /**
   After the first planned write the new plan is the rest of the old one, whatever key the API would give next,
   exactly when what the write created shows on the page.
   */
  lemma OneWrite(r: Remote, data: ProviderData, key: int, key': int)
    requires data.name == PROVIDER_NAME && Plan(r, data, key) != []
    ensures var w := Plan(r, data, key)[0]; var m := Apply(r, w);
            && (Plan(m, data, key') == Plan(r, data, key)[1..] <==> Shown(r, w))
            && (Visible(r) ==> Visible(m) && Shown(r, w))
  {
    hide Visible, FindProvider, FindApp, FindOutpost, Apply, Plan, ProviderRoom, AppRoom;
    var plan := Plan(r, data, key);
    PostsOnce(r, data, key);
    if FindProvider(r).None? {
      ProviderFirst(r, data, key, key');
    } else if AppWrites(r, ProviderKey(r, key)) != [] {
      AppFirst(r, data, key, key');
    } else {
      PlanIsOutpost(r, data, key);
      OutpostFirst(r, data, key, key');
    }
    var m := Apply(r, plan[0]);
    LostIsPosted(m, data, key');
    if Plan(m, data, key') == plan[1..] {
      forall w <- plan[1..] ensures exists i :: 0 < i < |plan| && plan[i] == w {
      }
    }
  }

  lemma PlanIsOutpost(r: Remote, data: ProviderData, key: int)
    requires FindProvider(r).Some? && AppWrites(r, ProviderKey(r, key)) == []
    ensures Plan(r, data, key) == OutpostWrites(r, ProviderKey(r, key))
  {
  }

  /** After any number of planned writes but none, likewise. */
  lemma {:induction false} Resume(r: Remote, data: ProviderData, key: int, key': int, k: nat)
    requires Visible(r) && data.name == PROVIDER_NAME && 0 < k <= |Plan(r, data, key)|
    ensures Plan(ApplyAll(r, Plan(r, data, key)[..k]), data, key') == Plan(r, data, key)[k..]
    decreases k
  {
    hide Plan, Visible, Apply;
    var plan := Plan(r, data, key);
    var m := Apply(r, plan[0]);
    assert plan[..k][0] == plan[0] && plan[..k][1..] == plan[1..][..k - 1];
    if k == 1 {
      OneWrite(r, data, key, key');
      assert plan[..1][1..] == [];
    } else {
      OneWrite(r, data, key, key);
      Resume(m, data, key, key', k - 1);
      assert plan[1..][k - 1..] == plan[k..];
    }
  }

  lemma {:induction false} ApplyInParts(r: Remote, a: seq<Write>, b: seq<Write>)
    ensures ApplyAll(r, a + b) == ApplyAll(ApplyAll(r, a), b)
    decreases |a|
  {
    if a == [] {
      assert a + b == b;
    } else {
      assert (a + b)[1..] == a[1..] + b;
      ApplyInParts(Apply(r, a[0]), a[1..], b);
    }
  }

  /**
   Abort after any `k` of the planned writes and run again to the end: the result is what one
   uninterrupted run leaves. Only the key of the provider may be the second run's, when nothing was written.
   */
  lemma RerunConverges(r: Remote, data: ProviderData, key: int, key': int, k: nat)
    requires Visible(r) && data.name == PROVIDER_NAME && k <= |Plan(r, data, key)|
    ensures var aborted := ApplyAll(r, Plan(r, data, key)[..k]);
            Final(aborted, data, key') == Final(r, data, if k == 0 then key' else key)
  {
    var plan := Plan(r, data, key);
    if k == 0 {
      assert plan[..k] == [];
    } else {
      Resume(r, data, key, key', k);
      ApplyInParts(r, plan[..k], plan[k..]);
      assert plan[..k] + plan[k..] == plan;
    }
  }

  // ------------------------------------------------------------- running once more

  predicate KeepsProviders(ws: seq<Write>) {
    forall w <- ws :: !w.PostProvider?
  }

  lemma {:induction false} ProvidersKept(r: Remote, ws: seq<Write>)
    requires KeepsProviders(ws)
    ensures ApplyAll(r, ws).providers == r.providers && ApplyAll(r, ws).page == r.page
    decreases |ws|
  {
    if ws != [] {
      assert ws[0] in ws;
      ProvidersKept(Apply(r, ws[0]), ws[1..]);
    }
  }

  predicate KeepsApps(ws: seq<Write>) {
    forall w <- ws :: !w.PostApp? && !w.PatchApp?
  }

  lemma {:induction false} AppsKept(r: Remote, ws: seq<Write>)
    requires KeepsApps(ws)
    ensures ApplyAll(r, ws).apps == r.apps && ApplyAll(r, ws).page == r.page
    decreases |ws|
  {
    if ws != [] {
      assert ws[0] in ws;
      AppsKept(Apply(r, ws[0]), ws[1..]);
    }
  }

  /**
   A further run writes nothing exactly when what was created shows on the first page. The script reads
   only one page, so on a full page of look-alikes it creates another provider (or application) each time.
   */
  lemma FurtherRunIsSilentIff(r: Remote, data: ProviderData, key: int, key': int)
    requires data.name == PROVIDER_NAME
    ensures Plan(Final(r, data, key), data, key') == [] <==> Visible(r)
  {
    if Visible(r) {
      Silent(r, data, key, key');
    } else if FindProvider(r).None? && !ProviderRoom(r) {
      ProviderLost(r, data, key);
    } else {
      AppLost(r, data, key);
    }
  }

  lemma Silent(r: Remote, data: ProviderData, key: int, key': int)
    requires Visible(r) && data.name == PROVIDER_NAME
    ensures Plan(Final(r, data, key), data, key') == []
  {
    var plan := Plan(r, data, key);
    if plan != [] {
      Resume(r, data, key, key', |plan|);
      assert plan[..|plan|] == plan;
    }
  }

  lemma ProviderLost(r: Remote, data: ProviderData, key: int)
    requires FindProvider(r).None? && !ProviderRoom(r) && data.name == PROVIDER_NAME
    ensures FindProvider(Final(r, data, key)).None?
  {
    hide FindProvider, FindApp, FindOutpost;
    var post := ProviderWrites(r, data, key);
    var rest := AppWrites(r, ProviderKey(r, key)) + OutpostWrites(r, ProviderKey(r, key));
    assert Plan(r, data, key) == post + rest;
    assert post == [PostProvider(key, data)];
    var m := Apply(r, post[0]);
    AfterPostProvider(r, key, data);
    ApplyInParts(r, post, rest);
    ApplySingle(r, post[0]);
    ProvidersKept(m, rest);
    SameProviderFound(m, ApplyAll(m, rest));
  }

  lemma ApplySingle(r: Remote, w: Write)
    ensures ApplyAll(r, [w]) == Apply(r, w)
  {
    assert ApplyAll(Apply(r, w), []) == Apply(r, w);
  }

  lemma AppLost(r: Remote, data: ProviderData, key: int)
    requires FindApp(r).None? && !AppRoom(r)
    ensures FindApp(Final(r, data, key)).None?
  {
    hide FindProvider, FindApp, FindOutpost, AppRoom;
    var pk := ProviderKey(r, key);
    var first, last := ProviderWrites(r, data, key), OutpostWrites(r, pk);
    assert AppWrites(r, pk) == [PostApp(pk)];
    assert Plan(r, data, key) == first + ([PostApp(pk)] + last);
    var m1 := ApplyAll(r, first);
    AppsKept(r, first);
    SameAppFound(r, m1);
    var m2 := Apply(m1, PostApp(pk));
    AfterPostApp(m1, pk);
    ApplyInParts(r, first, [PostApp(pk)] + last);
    ApplyInParts(m1, [PostApp(pk)], last);
    ApplySingle(m1, PostApp(pk));
    AppsKept(m2, last);
    SameAppFound(m2, ApplyAll(m2, last));
  }

  function Size(r: Remote): nat {
    |r.providers| + |r.apps|
  }

  predicate Posts(w: Write) {
    w.PostProvider? || w.PostApp?
  }

  /** Writes never remove a provider or an application, and each POST adds one. */
  lemma {:induction false} SizeGrows(r: Remote, ws: seq<Write>)
    ensures Size(ApplyAll(r, ws)) >= Size(r) + (if exists w <- ws :: Posts(w) then 1 else 0)
    decreases |ws|
  {
    if ws != [] {
      SizeGrows(Apply(r, ws[0]), ws[1..]);
    }
  }

  /** However often the first run gets, and whatever key comes next, the second run ends where one run would have. */
  ghost predicate AlwaysConverges(r: Remote, data: ProviderData, key: int) {
    forall k: nat, key': int :: k <= |Plan(r, data, key)| ==>
      Final(ApplyAll(r, Plan(r, data, key)[..k]), data, key') == Final(r, data, if k == 0 then key' else key)
  }

  /** Every abort converges exactly when what is created shows on the first page. */
  lemma RerunConvergesIff(r: Remote, data: ProviderData, key: int)
    requires data.name == PROVIDER_NAME
    ensures AlwaysConverges(r, data, key) <==> Visible(r)
  {
    hide Visible, Plan, FindProvider, FindApp, FindOutpost, Size;
    if Visible(r) {
      forall k: nat, key': int | k <= |Plan(r, data, key)|
        ensures Final(ApplyAll(r, Plan(r, data, key)[..k]), data, key') == Final(r, data, if k == 0 then key' else key)
      {
        RerunConverges(r, data, key, key', k);
      }
    } else if AlwaysConverges(r, data, key) {
      HiddenIsPostedAgain(r, data, key);
      FixedAtEnd(r, data, key);
      SizeGrows(Final(r, data, key), Plan(Final(r, data, key), data, key));
    }
  }

  lemma FixedAtEnd(r: Remote, data: ProviderData, key: int)
    requires AlwaysConverges(r, data, key) && Plan(r, data, key) != []
    ensures Final(Final(r, data, key), data, key) == Final(r, data, key)
  {
    hide Plan;
    var plan := Plan(r, data, key);
    assert plan[..|plan|] == plan;
  }

  lemma HiddenIsPostedAgain(r: Remote, data: ProviderData, key: int)
    requires data.name == PROVIDER_NAME && !Visible(r)
    ensures Plan(r, data, key) != [] && exists w <- Plan(Final(r, data, key), data, key) :: Posts(w)
  {
    hide Plan, FindProvider, FindApp, FindOutpost, Final, ProviderRoom, AppRoom;
    LostIsPosted(r, data, key);
    LostIsPosted(Final(r, data, key), data, key);
    if FindProvider(r).None? && !ProviderRoom(r) {
      ProviderLost(r, data, key);
      assert Plan(Final(r, data, key), data, key)[0] in Plan(Final(r, data, key), data, key);
    } else {
      AppLost(r, data, key);
    }
  }

  /** A provider with a key and a name of its own, of which the script's name is only the end. */
  function LookAlike(i: nat, data: ProviderData): Provider {
    Provider(i + 1, data.(name := seq(i + 1, _ => 'x') + PROVIDER_NAME))
  }

  /** As many look-alikes as fill a page. */
  function PageOf(page: nat, data: ProviderData): Remote {
    Remote(seq(page, i requires 0 <= i < page => LookAlike(i, data)), [], [], page)
  }

  /** A page of any length that look-alikes fill: every run creates one more provider of the exact name. */
  lemma LookAlikesHideProvider(page: nat, data: ProviderData, key: int, key': int)
    requires data.name == PROVIDER_NAME
    ensures var r := PageOf(page, data);
            var once := Final(r, data, key);
            && !Visible(r)
            && once.providers == r.providers + [Provider(key, data)]
            && Final(once, data, key').providers == r.providers + [Provider(key, data), Provider(key', data)]
  {
    hide Plan, FindProvider, FindApp, FindOutpost, NamedLike, AppRoom;
    var r := PageOf(page, data);
    NothingFoundOnPage(page, data, []);
    assert r.providers + [] == r.providers;
    FinalProviderList(r, data, key);
    var once := Final(r, data, key);
    NothingFoundOnPage(page, data, [Provider(key, data)]);
    SameProviderFound(once, r.(providers := once.providers));
    FinalProviderList(once, data, key');
  }

  lemma LookAlikeIsOnlyLike(i: nat, data: ProviderData)
    ensures NamedLike(LookAlike(i, data)) && !IsProvider(LookAlike(i, data))
  {
    assert LookAlike(i, data).data.name[i + 1..] == PROVIDER_NAME;
  }

  lemma NothingFoundOnPage(page: nat, data: ProviderData, others: seq<Provider>)
    ensures var r := PageOf(page, data); var m := r.(providers := r.providers + others);
            FindProvider(m).None? && !ProviderRoom(m)
  {
    var likes := PageOf(page, data).providers;
    forall i: nat | i < page ensures NamedLike(likes[i]) && !IsProvider(likes[i]) {
      LookAlikeIsOnlyLike(i, data);
    }
    KeptAll(likes, others, NamedLike);
    var matches := Kept(likes + others, NamedLike);
    assert matches[..page] == likes;
    assert FirstPage(matches, page) == likes;
    FirstMember(likes, IsProvider);
  }

  /** A front that the filter keeps whole stays in front. */
  lemma {:induction false} KeptAll<T>(xs: seq<T>, ys: seq<T>, keep: T -> bool)
    requires forall x <- xs :: keep(x)
    ensures Kept(xs + ys, keep) == xs + Kept(ys, keep)
  {
    if xs == [] {
      assert xs + ys == ys;
    } else {
      assert (xs + ys)[1..] == xs[1..] + ys && xs[0] in xs;
      KeptAll(xs[1..], ys, keep);
    }
  }

  // ------------------------------------------------------------- any number of runs cut short

  /** One run: the key the API would give, how many of its planned writes it made, and how many were applied. */
  datatype Attempt = Attempt(key: int, made: nat, applied: nat)

  /** The last write made may not have been applied. */
  predicate Possible(r: Remote, data: ProviderData, a: Attempt) {
    a.applied <= a.made <= a.applied + 1 && a.made <= |Plan(r, data, a.key)|
  }

  /** What the run leaves. */
  function LeftBy(r: Remote, data: ProviderData, a: Attempt): Remote
    requires Possible(r, data, a)
  {
    ApplyAll(r, Plan(r, data, a.key)[..a.applied])
  }

  predicate AllPossible(r: Remote, data: ProviderData, runs: seq<Attempt>)
    decreases |runs|
  {
    runs == [] || (Possible(r, data, runs[0]) && AllPossible(LeftBy(r, data, runs[0]), data, runs[1..]))
  }

  function StateAfter(r: Remote, data: ProviderData, runs: seq<Attempt>): Remote
    requires AllPossible(r, data, runs)
    decreases |runs|
  {
    if runs == [] then r else StateAfter(LeftBy(r, data, runs[0]), data, runs[1..])
  }

  /** The calls that the runs make, one run after the other. */
  function CallsOf(r: Remote, data: ProviderData, runs: seq<Attempt>): seq<Write>
    requires AllPossible(r, data, runs)
    decreases |runs|
  {
    if runs == [] then []
    else Plan(r, data, runs[0].key)[..runs[0].made] + CallsOf(LeftBy(r, data, runs[0]), data, runs[1..])
  }

  /** Those of them that were applied. */
  function AppliedOf(r: Remote, data: ProviderData, runs: seq<Attempt>): seq<Write>
    requires AllPossible(r, data, runs)
    decreases |runs|
  {
    if runs == [] then []
    else Plan(r, data, runs[0].key)[..runs[0].applied] + AppliedOf(LeftBy(r, data, runs[0]), data, runs[1..])
  }

  /** The key of the first run that changed anything, or of the last run. */
  function FirstKey(runs: seq<Attempt>): int
    requires runs != []
  {
    if |runs| == 1 || runs[0].applied > 0 then runs[0].key else FirstKey(runs[1..])
  }

  predicate LastCompleted(r: Remote, data: ProviderData, runs: seq<Attempt>)
    requires AllPossible(r, data, runs) && runs != []
    decreases |runs|
  {
    if |runs| == 1 then runs[0].applied == |Plan(r, data, runs[0].key)|
    else LastCompleted(LeftBy(r, data, runs[0]), data, runs[1..])
  }

  lemma {:induction false} StillVisible(r: Remote, data: ProviderData, key: int, k: nat)
    requires Visible(r) && data.name == PROVIDER_NAME && k <= |Plan(r, data, key)|
    ensures Visible(ApplyAll(r, Plan(r, data, key)[..k]))
    decreases k
  {
    hide Plan, Visible, Apply, Shown;
    var plan := Plan(r, data, key);
    if k > 0 {
      OneWrite(r, data, key, key);
      assert plan[..k][0] == plan[0] && plan[..k][1..] == plan[1..][..k - 1];
      StillVisible(Apply(r, plan[0]), data, key, k - 1);
    } else {
      assert plan[..k] == [];
    }
  }

  /**
   However many runs are cut short, and wherever: when the last completes, the writes applied over all of them are
   those of one uninterrupted run, each once and in order, and the state is what that run would leave.
   */
  lemma {:induction false} AnyRunsConverge(r: Remote, data: ProviderData, runs: seq<Attempt>)
    requires Visible(r) && data.name == PROVIDER_NAME && AllPossible(r, data, runs) && runs != []
    requires LastCompleted(r, data, runs)
    ensures AppliedOf(r, data, runs) == Plan(r, data, FirstKey(runs))
    ensures StateAfter(r, data, runs) == Final(r, data, FirstKey(runs))
    decreases |runs|
  {
    hide Plan, Visible;
    var a, rest := runs[0], runs[1..];
    var plan, m := Plan(r, data, a.key), LeftBy(r, data, a);
    if |runs| == 1 {
      assert plan[..|plan|] == plan;
      assert rest == [] && AppliedOf(m, data, rest) == [];
    } else {
      StillVisible(r, data, a.key, a.applied);
      AnyRunsConverge(m, data, rest);
      if a.applied == 0 {
        assert plan[..0] == [];
      } else {
        Resume(r, data, a.key, FirstKey(rest), a.applied);
        RerunConverges(r, data, a.key, FirstKey(rest), a.applied);
        assert plan[..a.applied] + plan[a.applied..] == plan;
      }
    }
  }

  /** One run more. */
  lemma {:induction false} RunMore(r: Remote, data: ProviderData, runs: seq<Attempt>, a: Attempt)
    requires AllPossible(r, data, runs) && Possible(StateAfter(r, data, runs), data, a)
    ensures AllPossible(r, data, runs + [a])
    ensures StateAfter(r, data, runs + [a]) == LeftBy(StateAfter(r, data, runs), data, a)
    ensures CallsOf(r, data, runs + [a]) ==
            CallsOf(r, data, runs) + Plan(StateAfter(r, data, runs), data, a.key)[..a.made]
    ensures LastCompleted(r, data, runs + [a]) <==> a.applied == |Plan(StateAfter(r, data, runs), data, a.key)|
    decreases |runs|
  {
    hide Plan, Possible, LeftBy;
    if runs == [] {
      assert runs + [a] == [a] && [a][1..] == [];
      var m := LeftBy(r, data, a);
      assert AllPossible(m, data, []) && StateAfter(m, data, []) == m && CallsOf(m, data, []) == [];
    } else {
      assert (runs + [a])[0] == runs[0] && (runs + [a])[1..] == runs[1..] + [a];
      RunMore(LeftBy(r, data, runs[0]), data, runs[1..], a);
    }
  }

  // ------------------------------------------------------------- the state a run leaves

  lemma {:induction false} KeptMembers<T>(xs: seq<T>, keep: T -> bool)
    ensures forall x :: x in Kept(xs, keep) <==> x in xs && keep(x)
  {
    if xs != [] {
      KeptMembers(xs[1..], keep);
      assert xs == [xs[0]] + xs[1..];
    }
  }

  lemma {:induction false} FirstMember<T>(xs: seq<T>, good: T -> bool)
    ensures var f := FirstWith(xs, good);
            (f.Some? ==> f.value in xs && good(f.value)) && (f.None? ==> forall x <- xs :: !good(x))
  {
    if xs != [] {
      FirstMember(xs[1..], good);
    }
  }

  predicate Unused(r: Remote, key: int) {
    (forall a <- r.apps :: a.provider != Some(key)) && (forall o <- r.outposts :: key !in o.providers)
  }

  function Named(providers: seq<Provider>): seq<Provider> {
    Kept(providers, IsProvider)
  }

  lemma FoundIsThere(r: Remote)
    requires FindProvider(r).Some?
    ensures FindProvider(r).value in Named(r.providers)
  {
    FirstMember(ProviderList(r), IsProvider);
    KeptMembers(r.providers, NamedLike);
    KeptMembers(r.providers, IsProvider);
  }

  lemma FinalProviderList(r: Remote, data: ProviderData, key: int)
    ensures var m := Final(r, data, key);
            && m.page == r.page
            && m.providers == (if FindProvider(r).Some? then r.providers else r.providers + [Provider(key, data)])
  {
    hide FindProvider, FindApp, FindOutpost;
    var post := ProviderWrites(r, data, key);
    var rest := AppWrites(r, ProviderKey(r, key)) + OutpostWrites(r, ProviderKey(r, key));
    assert Plan(r, data, key) == post + rest;
    ApplyInParts(r, post, rest);
    if FindProvider(r).None? {
      ApplySingle(r, PostProvider(key, data));
    }
    ProvidersKept(ApplyAll(r, post), rest);
  }

  /** The script finds its provider afterwards, if it found it before or the page has room for it. */
  lemma FinalProviders(r: Remote, data: ProviderData, key: int)
    requires (FindProvider(r).Some? || ProviderRoom(r)) && data.name == PROVIDER_NAME
    ensures var m := Final(r, data, key); FindProvider(m).Some? && FindProvider(m).value.pk == ProviderKey(r, key)
  {
    hide FindProvider, ProviderRoom, Final;
    var m := Final(r, data, key);
    FinalProviderList(r, data, key);
    if FindProvider(r).None? {
      AfterPostProvider(r, key, data);
      SameProviderFound(Apply(r, PostProvider(key, data)), m);
    } else {
      SameProviderFound(r, m);
    }
  }

  /** A created provider carries the payload: forward auth for the one host, with the flows as given. */
  lemma CreatedProvider(r: Remote, flow: string, invalidation: string, key: int)
    requires FindProvider(r).None?
    ensures var m := Final(r, Payload(flow, invalidation), key);
            && |m.providers| == |r.providers| + 1
            && var p := m.providers[|r.providers|];
            && p.pk == key && m.providers == r.providers + [p]
            && p.data.name == "ghost-forward-auth" && p.data.mode == "forward_single"
            && p.data.authorizationFlow == flow && p.data.invalidationFlow == invalidation
            && p.data.externalHost == "https://blog.esamir.com"
            && p.data.accessValidity == "days=365" && p.data.refreshValidity == "days=365"
            && FindProvider(m) == if ProviderRoom(r) then Some(p) else None
  {
    var data := Payload(flow, invalidation);
    FinalProviderList(r, data, key);
    AfterPostProvider(r, key, data);
    SameProviderFound(Apply(r, PostProvider(key, data)), Final(r, data, key));
  }

  ghost predicate PointsTo(apps: seq<App>, pk: int) {
    exists a <- apps :: a.slug == "ghost" && a.provider == Some(pk)
  }

  /** A missing application is created last; nothing but the provider of the script's own slug changes otherwise. */
  ghost predicate AppsBecome(apps: seq<App>, after: seq<App>, found: bool, pk: int) {
    && |after| == |apps| + (if found then 0 else 1)
    && (forall i :: 0 <= i < |apps| ==>
          after[i] == apps[i] || (found && apps[i].slug == "ghost" && after[i] == apps[i].(provider := Some(pk))))
    && (!found ==> after[|apps|] == App("ghost", "ghost", Some(pk)))
  }

  lemma FinalApps(r: Remote, data: ProviderData, key: int)
    ensures PointsTo(Final(r, data, key).apps, ProviderKey(r, key))
    ensures AppsBecome(r.apps, Final(r, data, key).apps, FindApp(r).Some?, ProviderKey(r, key))
  {
    hide FindProvider, FindApp, FindOutpost;
    var pk := ProviderKey(r, key);
    var first, middle, last := ProviderWrites(r, data, key), AppWrites(r, pk), OutpostWrites(r, pk);
    ApplyInParts(r, first + middle, last);
    ApplyInParts(r, first, middle);
    AppsKept(r, first);
    var m := ApplyAll(r, first);
    AppsAfter(r, m, pk);
    AppsKept(ApplyAll(m, middle), last);
  }

  lemma AppsAfter(r: Remote, m: Remote, pk: int)
    requires m.apps == r.apps
    ensures PointsTo(ApplyAll(m, AppWrites(r, pk)).apps, pk)
    ensures AppsBecome(r.apps, ApplyAll(m, AppWrites(r, pk)).apps, FindApp(r).Some?, pk)
  {
    FoundAppIsThere(r);
    hide FindApp;
    match FindApp(r) {
      case Some(a) =>
        if a.provider != Some(pk) {
          ApplySingle(m, PatchApp(a.slug, pk));
          var i :| 0 <= i < |r.apps| && r.apps[i] == a;
          assert ApplyAll(m, AppWrites(r, pk)).apps[i] == a.(provider := Some(pk));
        }
      case None =>
        ApplySingle(m, PostApp(pk));
        assert ApplyAll(m, AppWrites(r, pk)).apps[|r.apps|].provider == Some(pk);
    }
  }

  lemma FoundAppIsThere(r: Remote)
    ensures FindApp(r).Some? ==> FindApp(r).value in r.apps && IsApp(FindApp(r).value)
  {
    FirstMember(AppList(r), IsApp);
    KeptMembers(r.apps, SlugLike);
  }

  /** The outpost that is found afterwards is the one before, with the key added if it was not listed. */
  lemma FinalOutpost(r: Remote, data: ProviderData, key: int)
    ensures var m, pk := Final(r, data, key), ProviderKey(r, key);
            match FindOutpost(r)
            case None => FindOutpost(m).None?
            case Some(o) =>
              FindOutpost(m) == Some(o.(providers := o.providers + (if pk in o.providers then [] else [pk])))
  {
    hide FindProvider, FindApp, FindOutpost;
    var pk := ProviderKey(r, key);
    var before := ProviderWrites(r, data, key) + AppWrites(r, pk);
    var m := ApplyAll(r, before);
    ApplyInParts(r, before, OutpostWrites(r, pk));
    OutpostsKept(r, before);
    SameOutpostFound(r, m);
    if OutpostWrites(r, pk) == [] {
      assert ApplyAll(m, []) == m;
      assert FindOutpost(r).Some? ==> FindOutpost(r).value.providers + [] == FindOutpost(r).value.providers;
    } else {
      var o := FindOutpost(r).value;
      ApplySingle(m, PatchOutpost(o.pk, o.providers + [pk]));
      AfterPatchOutpost(m, o.pk, o.providers + [pk]);
    }
  }

  /** The embedded outpost is preferred: the first one that the page can show is the one the script works on. */
  lemma EmbeddedIsPreferred(r: Remote, i: nat)
    requires r.page > 0 && i < |r.outposts| && r.outposts[i].managed == "goauthentik.io/outposts/embedded"
    requires forall j :: 0 <= j < i ==> r.outposts[j].managed != "goauthentik.io/outposts/embedded"
    ensures FindOutpost(r) == Some(r.outposts[i])
  {
    FirstKept(r.outposts, IsEmbedded, i);
  }

  /** Without one it is the first outpost of kind proxy; without that, none. */
  lemma ProxyIsFallback(r: Remote, i: nat)
    requires r.page > 0 && forall o <- r.outposts :: o.managed != "goauthentik.io/outposts/embedded"
    requires forall j :: 0 <= j < i && j < |r.outposts| ==> r.outposts[j].kind != "proxy"
    ensures i < |r.outposts| && r.outposts[i].kind == "proxy" ==> FindOutpost(r) == Some(r.outposts[i])
    ensures i == |r.outposts| ==> FindOutpost(r).None?
  {
    NoneKept(r.outposts, IsEmbedded);
    if i < |r.outposts| && r.outposts[i].kind == "proxy" {
      FirstKept(r.outposts, IsProxy, i);
    }
    if i == |r.outposts| {
      NoneKept(r.outposts, IsProxy);
    }
  }

  lemma {:induction false} NoneKept<T>(xs: seq<T>, keep: T -> bool)
    requires forall x <- xs :: !keep(x)
    ensures Kept(xs, keep) == []
  {
    if xs != [] {
      assert xs[0] in xs;
      NoneKept(xs[1..], keep);
    }
  }

  lemma {:induction false} FirstKept<T>(xs: seq<T>, keep: T -> bool, i: nat)
    requires i < |xs| && keep(xs[i]) && forall j :: 0 <= j < i ==> !keep(xs[j])
    ensures Kept(xs, keep) != [] && Kept(xs, keep)[0] == xs[i]
  {
    if i > 0 {
      FirstKept(xs[1..], keep, i - 1);
    }
  }

  /** Only the outpost found gets another provider list, and it keeps the providers it had. */
  lemma OnlyThatOutpostChanges(r: Remote, data: ProviderData, key: int, i: nat)
    requires i < |r.outposts|
    ensures var m, pk, o := Final(r, data, key), ProviderKey(r, key), r.outposts[i];
            && |m.outposts| == |r.outposts|
            && m.outposts[i] ==
               if FindOutpost(r).Some? && o.pk == FindOutpost(r).value.pk && pk !in FindOutpost(r).value.providers
               then o.(providers := FindOutpost(r).value.providers + [pk]) else o
  {
    hide FindProvider, FindApp, FindOutpost;
    var pk := ProviderKey(r, key);
    var before := ProviderWrites(r, data, key) + AppWrites(r, pk);
    var m := ApplyAll(r, before);
    ApplyInParts(r, before, OutpostWrites(r, pk));
    OutpostsKept(r, before);
    if OutpostWrites(r, pk) == [] {
      assert ApplyAll(m, []) == m;
    } else {
      ApplySingle(m, OutpostWrites(r, pk)[0]);
    }
  }

  /**
   The state a run leaves, on any remote state with at most one provider of the exact name: an application of
   the slug points to the provider, the outpost, if there is any, lists it, and there is one provider of the
   name exactly when the page showed the one there was, or there was none.
   */
  lemma FinalStateIsSetUp(r: Remote, data: ProviderData, key: int)
    requires data.name == "ghost-forward-auth" && |Named(r.providers)| <= 1
    ensures var m, pk := Final(r, data, key), ProviderKey(r, key);
            && (exists p <- m.providers :: p.data.name == "ghost-forward-auth" && p.pk == pk)
            && PointsTo(m.apps, pk)
            && (FindOutpost(m).Some? ==> pk in FindOutpost(m).value.providers)
            && (|Named(m.providers)| == 1 <==> FindProvider(r).Some? || Named(r.providers) == [])
  {
    hide FindProvider, FindApp, FindOutpost, PointsTo, Final;
    FinalProviderList(r, data, key);
    FinalApps(r, data, key);
    FinalOutpost(r, data, key);
    if FindProvider(r).None? {
      KeptOfAppend(r.providers, Provider(key, data), IsProvider);
      var named := Named(r.providers + [Provider(key, data)]);
      assert named[|named| - 1] in named;
      assert Provider(key, data) in Final(r, data, key).providers;
    } else {
      FoundIsThere(r);
      KeptMembers(r.providers, IsProvider);
    }
  }

  /** When the page shows what is created, the one application that the script finds is the one that points there. */
  lemma FoundAppPointsToProvider(r: Remote, data: ProviderData, key: int)
    requires Visible(r) && data.name == PROVIDER_NAME
    ensures var m := Final(r, data, key); FindApp(m).Some? && FindApp(m).value.provider == Some(ProviderKey(r, key))
  {
    hide FindApp, FindOutpost;
    FinalProviders(r, data, key);
    Silent(r, data, key, key);
  }

  /** The outpost lists the provider once when its list had no duplicates. */
  lemma OutpostListsOnce(r: Remote, data: ProviderData, key: int)
    requires FindOutpost(r).Some?
    requires forall k: int :: multiset(FindOutpost(r).value.providers)[k] <= 1
    ensures var m, pk := Final(r, data, key), ProviderKey(r, key);
            FindOutpost(m).Some? && multiset(FindOutpost(m).value.providers)[pk] == 1
  {
    hide FindOutpost;
    FinalOutpost(r, data, key);
    var o := FindOutpost(r).value;
    if ProviderKey(r, key) in o.providers {
      assert multiset(o.providers)[ProviderKey(r, key)] >= 1;
      assert o.providers + [] == o.providers;
    }
  }

  lemma {:induction false} OutpostsKept(r: Remote, ws: seq<Write>)
    requires forall w <- ws :: !w.PatchOutpost?
    ensures ApplyAll(r, ws).outposts == r.outposts && ApplyAll(r, ws).page == r.page
    decreases |ws|
  {
    if ws != [] {
      assert ws[0] in ws;
      OutpostsKept(Apply(r, ws[0]), ws[1..]);
    }
  }

  // ------------------------------------------------------------- the dry run

  /** What the dry run prints instead of a write. */
  datatype Announcement =
    | WouldCreateProvider
    | WouldCreateApp
    | WouldUpdateApp(slug: string)
    | WouldUpdateOutpost(outpost: string)

  function Announce(w: Write): Announcement {
    match w
    case PostProvider(_, _) => WouldCreateProvider
    case PostApp(_) => WouldCreateApp
    case PatchApp(slug, _) => WouldUpdateApp(slug)
    case PatchOutpost(outpost, _) => WouldUpdateOutpost(outpost)
  }

  /** An announcement tells the kind of the write and its target, and nothing else. */
  lemma AnnouncesKindAndTarget(w: Write, w': Write)
    ensures Announce(w) == Announce(w') <==>
            (w.PostProvider? && w'.PostProvider?) || (w.PostApp? && w'.PostApp?) ||
            (w.PatchApp? && w'.PatchApp? && w.slug == w'.slug) ||
            (w.PatchOutpost? && w'.PatchOutpost? && w.outpost == w'.outpost)
  {
  }

  function Announced(ws: seq<Write>): seq<Announcement> {
    seq(|ws|, i requires 0 <= i < |ws| => Announce(ws[i]))
  }

  const PLACEHOLDER := 0

  /** The keys count alike for the application and the outpost that are found. */
  predicate UsedAlike(r: Remote, key: int, key': int) {
    (FindApp(r).Some? ==> (FindApp(r).value.provider == Some(key) <==> FindApp(r).value.provider == Some(key'))) &&
    (FindOutpost(r).Some? ==> (key in FindOutpost(r).value.providers <==> key' in FindOutpost(r).value.providers))
  }

  /**
   The plan with the placeholder key announces, by kind and target and in order, what the plan with the key of
   the API announces, exactly when a provider exists or the two keys are used alike.
   */
  lemma DryRunPredictsIff(r: Remote, data: ProviderData, key: int)
    ensures Announced(Plan(r, data, 0)) == Announced(Plan(r, data, key)) <==>
            FindProvider(r).Some? || UsedAlike(r, 0, key)
  {
    hide FindProvider, FindApp, FindOutpost;
    if FindProvider(r).None? {
      var a, b := PlanTail(r, PLACEHOLDER), PlanTail(r, key);
      TailsAnnouncedAlike(r, PLACEHOLDER, key);
      assert Plan(r, data, PLACEHOLDER) == [PostProvider(PLACEHOLDER, data)] + a;
      assert Plan(r, data, key) == [PostProvider(key, data)] + b;
      AnnouncedSplits(PostProvider(PLACEHOLDER, data), a);
      AnnouncedSplits(PostProvider(key, data), b);
      assert ([WouldCreateProvider] + Announced(a))[1..] == Announced(a);
      assert ([WouldCreateProvider] + Announced(b))[1..] == Announced(b);
    }
  }

  lemma AnnouncedSplits(w: Write, ws: seq<Write>)
    ensures Announced([w] + ws) == [Announce(w)] + Announced(ws)
  {
  }

  function PlanTail(r: Remote, pk: int): seq<Write> {
    AppWrites(r, pk) + OutpostWrites(r, pk)
  }

  lemma TailsAnnouncedAlike(r: Remote, pk: int, pk': int)
    ensures Announced(PlanTail(r, pk)) == Announced(PlanTail(r, pk')) <==> UsedAlike(r, pk, pk')
  {
    hide FindApp, FindOutpost;
    var a, b := PlanTail(r, pk), PlanTail(r, pk');
    if a != [] {
      AnnouncedSplits(a[0], a[1..]);
      assert a == [a[0]] + a[1..];
    }
    if b != [] {
      AnnouncedSplits(b[0], b[1..]);
      assert b == [b[0]] + b[1..];
    }
    assert UsedAlike(r, pk, pk') ==> Announced(a) == Announced(b);
    if Announced(a) == Announced(b) {
      assert |a| == |Announced(a)| == |b|;
      assert a == [] || Announce(a[0]) == Announced(a)[0] == Announced(b)[0] == Announce(b[0]);
      assert |AppWrites(r, pk)| == |AppWrites(r, pk')|;
    }
  }

  /** With fresh keys in particular. */
  lemma DryRunPredicts(r: Remote, data: ProviderData, key: int)
    requires FindProvider(r).None? ==> Unused(r, 0) && Unused(r, key)
    ensures Announced(Plan(r, data, 0)) == Announced(Plan(r, data, key))
  {
    hide FindProvider, FindApp, FindOutpost, Plan;
    DryRunPredictsIff(r, data, key);
    if FindProvider(r).None? {
      NeverChosen(r, PLACEHOLDER);
      NeverChosen(r, key);
    }
  }

  lemma NeverChosen(r: Remote, key: int)
    requires Unused(r, key)
    ensures FindApp(r).Some? ==> FindApp(r).value.provider != Some(key)
    ensures FindOutpost(r).Some? ==> key !in FindOutpost(r).value.providers
  {
    FirstMember(AppList(r), IsApp);
    KeptMembers(r.apps, SlugLike);
    KeptMembers(r.outposts, IsEmbedded);
    KeptMembers(r.outposts, IsProxy);
  }
}
