/**
 The Authentik set-up as a plan: which writes one uninterrupted run of the script makes on a given
 remote state. Reruns, aborted runs and dry runs are compared with it.
 */
module SetupPlan {
  import opened Wrappers

  const PROVIDER_NAME := "ghost-forward-auth"
  const APP_NAME := "ghost"
  const APP_SLUG := "ghost"
  const EXTERNAL_HOST := "https://blog.esamir.com"
  const TOKEN_VALIDITY := "days=365"
  const EMBEDDED := "goauthentik.io/outposts/embedded"

  // ------------------------------------------------------------- the remote state

  datatype ProviderData = ProviderData(
    name: string, authorizationFlow: string, invalidationFlow: string, mode: string, externalHost: string,
    accessValidity: string, refreshValidity: string)

  datatype Provider = Provider(pk: int, data: ProviderData)

  datatype App = App(name: string, slug: string, provider: Option<int>)

  datatype Outpost = Outpost(pk: string, managed: string, kind: string, providers: seq<int>)

  /** Lists in the order the API returns them; a created object comes last. `page` is the length of one page. */
  datatype Remote = Remote(providers: seq<Provider>, apps: seq<App>, outposts: seq<Outpost>, page: nat)

  predicate Contains(text: string, part: string) {
    exists i :: 0 <= i <= |text| && part <= text[i..]
  }

  function Kept<T>(xs: seq<T>, keep: T -> bool): seq<T> {
    if xs == [] then [] else (if keep(xs[0]) then [xs[0]] else []) + Kept(xs[1..], keep)
  }

  function Mapped<T>(xs: seq<T>, f: T -> T): seq<T> {
    seq(|xs|, i requires 0 <= i < |xs| => f(xs[i]))
  }

  function FirstPage<T>(xs: seq<T>, page: nat): seq<T> {
    if |xs| <= page then xs else xs[..page]
  }

  function FirstWith<T>(xs: seq<T>, good: T -> bool): Option<T> {
    if xs == [] then None else if good(xs[0]) then Some(xs[0]) else FirstWith(xs[1..], good)
  }

  predicate NamedLike(p: Provider) {
    Contains(p.data.name, PROVIDER_NAME)
  }

  predicate SlugLike(a: App) {
    Contains(a.slug, APP_SLUG)
  }

  predicate IsEmbedded(o: Outpost) {
    o.managed == EMBEDDED
  }

  predicate IsProxy(o: Outpost) {
    o.kind == "proxy"
  }

  /** The answers to the filtered list requests: one page of the containing matches. */
  function ProviderList(r: Remote): seq<Provider> {
    FirstPage(Kept(r.providers, NamedLike), r.page)
  }

  function AppList(r: Remote): seq<App> {
    FirstPage(Kept(r.apps, SlugLike), r.page)
  }

  function EmbeddedList(r: Remote): seq<Outpost> {
    FirstPage(Kept(r.outposts, IsEmbedded), r.page)
  }

  function ProxyList(r: Remote): seq<Outpost> {
    FirstPage(Kept(r.outposts, IsProxy), r.page)
  }

  predicate IsProvider(p: Provider) {
    p.data.name == PROVIDER_NAME
  }

  predicate IsApp(a: App) {
    a.slug == APP_SLUG
  }

  function FindProvider(r: Remote): Option<Provider> {
    FirstWith(ProviderList(r), IsProvider)
  }

  function FindApp(r: Remote): Option<App> {
    FirstWith(AppList(r), IsApp)
  }

  function FindOutpost(r: Remote): Option<Outpost> {
    if EmbeddedList(r) != [] then Some(EmbeddedList(r)[0])
    else if ProxyList(r) != [] then Some(ProxyList(r)[0])
    else None
  }

  // ------------------------------------------------------------- writes

  datatype Write =
    | PostProvider(pk: int, data: ProviderData)
    | PostApp(provider: int)
    | PatchApp(slug: string, provider: int)
    | PatchOutpost(outpost: string, providers: seq<int>)

  function SetProvider(a: App, slug: string, provider: int): App {
    if a.slug == slug then a.(provider := Some(provider)) else a
  }

  function SetProviders(o: Outpost, pk: string, providers: seq<int>): Outpost {
    if o.pk == pk then o.(providers := providers) else o
  }

  function Apply(r: Remote, w: Write): Remote {
    match w
    case PostProvider(pk, data) => r.(providers := r.providers + [Provider(pk, data)])
    case PostApp(provider) => r.(apps := r.apps + [App(APP_NAME, APP_SLUG, Some(provider))])
    case PatchApp(slug, provider) =>
      r.(apps := Mapped(r.apps, (a: App) => SetProvider(a, slug, provider)))
    case PatchOutpost(pk, providers) =>
      r.(outposts := Mapped(r.outposts, (o: Outpost) => SetProviders(o, pk, providers)))
  }

  function ApplyAll(r: Remote, ws: seq<Write>): Remote
    decreases |ws|
  {
    if ws == [] then r else ApplyAll(Apply(r, ws[0]), ws[1..])
  }

  // ------------------------------------------------------------- the plan

  function Payload(flow: string, invalidation: string): ProviderData {
    ProviderData(PROVIDER_NAME, flow, invalidation, "forward_single", EXTERNAL_HOST, TOKEN_VALIDITY, TOKEN_VALIDITY)
  }

  /** `key` is the key that the API will give to a created provider. */
  function ProviderKey(r: Remote, key: int): int {
    match FindProvider(r) case Some(p) => p.pk case None => key
  }

  function ProviderWrites(r: Remote, data: ProviderData, key: int): seq<Write> {
    if FindProvider(r).Some? then [] else [PostProvider(key, data)]
  }

  function AppWrites(r: Remote, pk: int): seq<Write> {
    match FindApp(r)
    case Some(a) => if a.provider == Some(pk) then [] else [PatchApp(a.slug, pk)]
    case None => [PostApp(pk)]
  }

  function OutpostWrites(r: Remote, pk: int): seq<Write> {
    match FindOutpost(r)
    case Some(o) => if pk in o.providers then [] else [PatchOutpost(o.pk, o.providers + [pk])]
    case None => []
  }

  function Plan(r: Remote, data: ProviderData, key: int): seq<Write> {
    ProviderWrites(r, data, key) + AppWrites(r, ProviderKey(r, key)) + OutpostWrites(r, ProviderKey(r, key))
  }

  /** What one uninterrupted run leaves. */
  function Final(r: Remote, data: ProviderData, key: int): Remote {
    ApplyAll(r, Plan(r, data, key))
  }

  // ------------------------------------------------------------- lists under the writes

  lemma {:induction false} KeptOfAppend<T>(xs: seq<T>, x: T, keep: T -> bool)
    ensures Kept(xs + [x], keep) == Kept(xs, keep) + (if keep(x) then [x] else [])
  {
    if xs == [] {
      assert xs + [x] == [x];
    } else {
      assert (xs + [x])[1..] == xs[1..] + [x];
      KeptOfAppend(xs[1..], x, keep);
    }
  }

  lemma {:induction false} FirstOfAppend<T>(xs: seq<T>, x: T, good: T -> bool)
    ensures FirstWith(xs + [x], good) ==
            if FirstWith(xs, good).Some? then FirstWith(xs, good) else if good(x) then Some(x) else None
  {
    if xs == [] {
      assert xs + [x] == [x];
    } else {
      assert (xs + [x])[1..] == xs[1..] + [x];
      FirstOfAppend(xs[1..], x, good);
    }
  }

  /** A change of elements that the filter does not see commutes with it. */
  lemma {:induction false} KeptOfMap<T>(xs: seq<T>, f: T -> T, keep: T -> bool)
    requires forall x <- xs :: keep(f(x)) == keep(x)
    ensures Kept(Mapped(xs, f), keep) == Mapped(Kept(xs, keep), f)
  {
    if xs != [] {
      KeptOfMap(xs[1..], f, keep);
      assert Mapped(xs, f)[0] == f(xs[0]) && Mapped(xs, f)[1..] == Mapped(xs[1..], f);
      assert xs[0] in xs;
      var head := if keep(xs[0]) then [xs[0]] else [];
      assert Mapped(head + Kept(xs[1..], keep), f) == Mapped(head, f) + Mapped(Kept(xs[1..], keep), f);
    }
  }

  lemma {:induction false} FirstOfMap<T>(xs: seq<T>, f: T -> T, good: T -> bool)
    requires forall x <- xs :: good(f(x)) == good(x)
    ensures FirstWith(Mapped(xs, f), good) ==
            match FirstWith(xs, good) case None => None case Some(x) => Some(f(x))
  {
    if xs != [] {
      FirstOfMap(xs[1..], f, good);
      assert Mapped(xs, f)[0] == f(xs[0]) && Mapped(xs, f)[1..] == Mapped(xs[1..], f);
    }
  }
}
