# Ghost sign-on proxy: a verified model

The repository is an Envoy external-authorisation service. For every request to a Ghost blog it asks
Authentik who the browser belongs to. Where that is an active staff user without a Ghost session cookie, it
puts a row into Ghost's `sessions` table (or refreshes one that is there), signs its ID as express-session
does, and redirects the browser to `/ghost/` with the cookie. A Python script sets Authentik up for it.

The model has four parts.

* **The session lifecycle.** `Interleaving` is a step machine: any number of requests on any number of replicas
  over one table, where each clock reading and each SQL statement is a step of its own. Ghost may add, rewrite
  and delete rows, users may change, and any statement may fail, whether applied or not. `CookieIntegrity`,
  `Duplicates`, `DuplicatesTight` and `SecondRows` prove what every run keeps; `Histories` and `Stories` follow each
  request through the states of a run, from which `Effects` and `Races` conclude what it did to the table.
  `SessionStore` and `ExtAuth` are the same code as classes that update a database and a clock, one call at a time;
  `CallsAreRuns` proves that each such call is a run of the machine. `UserAgent`, `RedirectLoop`, `BrowserHistory`
  and `Replanting` close the loop with a browser's cookie jar, on one clock; `Answering` shows that the proxy can
  answer.
* **The codecs**: `Base64`, `Identifiers`, `CookieSigning`, `CookieHeader`, `SettingsSecret` (with `Text`).
* **The lifetime arithmetic**: `Lifetime`, with int64 products written out.
* **The set-up script**: `SetupPlan` says which writes a run makes, `SetupConvergence` compares interrupted,
  repeated and pretended runs with it, `SetupScript` is the script call by call against an API that may fail.

`dafny verify dfyconfig.toml` checks everything.

## Where the code differs from its documentation

* `Check` calls Authentik before it looks for the Ghost cookie (`internal/adapters/primary/extauth/server.go:91-121`);
  `docs/extauth-architecture.md:170-183` has it the other way round. The model follows the code.
* Reuse is said to avoid duplicate rows of concurrent requests (`internal/core/service/auth_service.go:61-62`).
  It does not: `DuplicatesTight.BoundIsReached` gives, for every number of requests, a run in which each inserts
  a row. `Duplicates.WindowBound` is the exact bound, and `SecondRows.SecondRowIffRival` the exact condition for a
  second row to be possible.
* The refresh checks no count of changed rows, so a row that Ghost deletes between SELECT and UPDATE still yields
  a cookie (`Races.PlantCanMissItsRow`, exactly when: `Races.PlantsWithoutRowIff`); and of two refreshes the later
  UPDATE wins even with the earlier expiry (`Races.ExpiryCanFall`, exactly when: `Races.UpdateLowersExpiryIff`), so
  that `expires` does not only grow.
* Overlapping requests of one browser are each planted a cookie at once; Max-Age lies between plantings only from
  the receipt of one to the sending of the next (`Replanting.PlantedTwiceIff`).
* The configuration accepts every positive number of days. Beyond 106751 the nanosecond duration overflows and
  `expires` no longer matches the reuse window (`Lifetime.ExpiryMatchesWindowIff`). Beyond 106751991167300 Max-Age
  overflows too (`Lifetime.MaxAgeIsExactIff`), and where it is not positive the redirect need never end
  (`Replanting.RedirectGoesOnIff`).
* The script is said to be safe to run again. It reads one page of each filtered list, so that holds exactly when
  that page shows, or has room for, what the script creates (`SetupConvergence.FurtherRunIsSilentIff`,
  `SetupScript.RunTwice`; states where it does not: `SetupConvergence.LookAlikesHideProvider`).

## Assumptions

* A drawn session ID is unused. All replicas and the browser read one clock, which does not go back. `int` has 64
  bits.
* Ghost's own rows have session IDs of the same form; when Ghost rewrites a row's `session_data` it keeps
  `user_id` and does not take `verified` away.
* `created_at` keeps the time that was written. Among rows of equal creation time the SELECT may return any.
* HMAC-SHA256 is any function of key and text to 32 bytes.
* In the classes (not in the machine) a failed statement changes nothing. In the script a failed write may have
  been applied or not.
* Objects created in Authentik come last in its lists; the name and slug filters are case-sensitive containment.
  Flow slugs are unique and flow keys non-empty.
* A browser keeps the proxy's cookie until it expires, talks to one host over https, and nothing else takes the
  cookie's name, host and path.

## Model

| member | source | states |
|---|---|---|
| CookieIntegrity.AnsweredCookiesAreGood | internal/core/service/auth_service.go:50-90 | in every state of every interleaving, every cookie answered so far verifies, under the configured secret, for a 32-character session ID; if Ghost has not deleted the row, the ID names exactly one, whose column and whose JSON carry the ID of the user that request found, with `verified` true; if Ghost has, it names none |
| CookieIntegrity.IntegrityAlways | internal/adapters/secondary/mariadb/session_store.go:126-196 | the invariant behind it holds along every run: unique IDs, drawn IDs that are nobody else's, requests that work only on rows of their own user |
| Duplicates.WindowBound | internal/core/service/auth_service.go:61-82 | any window of one lifetime holds at most as many INSERTs of undeleted rows of one user as there were requests about to insert for that user at the first of them |
| Duplicates.TableBound | internal/core/service/auth_service.go:61-82 | the same bound for the rows themselves: those in the table that the proxy inserted for one user within one window |
| Duplicates.NonOverlappingRowsAreFarApart | internal/adapters/secondary/mariadb/session_store.go:127-142 | when the second row's request was not then about to insert, two rows of one user are strictly more than one lifetime apart |
| SecondRows.SecondRowIffRival | internal/core/service/auth_service.go:61-82 | in every run, after an INSERT, a continuation that inserts a second row for the user, stamped at most one lifetime after the first and while the first exists, is there if and only if another request was then about to insert for that user in time; until one lifetime after the stamp every such request is in time |
| SecondRows.DuplicateIffRecentRival | internal/adapters/secondary/mariadb/session_store.go:127-142 | two rows of one user in one window: possible after that INSERT if and only if such a rival was not stamped more than one lifetime before |
| SecondRows.SecondNeedsRival | internal/adapters/secondary/mariadb/session_store.go:181-185 | a second row comes only from a request that was then about to insert for that user, and is stamped as that request was, or later if it was not yet stamped |
| SecondRows.GoesOn | internal/adapters/secondary/mariadb/session_store.go:168-187 | every request that is about to insert, in every state the invariant holds of, can go on by its own steps to insert a row for its user |
| DuplicatesTight.BoundIsReached | internal/core/service/auth_service.go:61-82 | for every number of requests some run inserts that many rows of one user at one time, so the bound is exact and the comment in the code does not hold |
| Effects.RequestTouchesOwnRows | internal/adapters/secondary/mariadb/session_store.go:154-156 | in every reachable state a request's step leaves other users' rows as they are, changes at most session_data and updated_at of its own user's rows, and adds at most one row, of that user |
| Effects.AnswerDecidesEffect | internal/adapters/primary/extauth/server.go:92-134 | over every run: a login redirect left the table alone at each step of its request; a planted cookie verifies for the ID of the one row its request wrote, namely the row that was the newest in the window at its SELECT, refreshed, or a new row of its user after a SELECT that found none; a pass left the table alone unless its own write was applied and reported failed |
| Effects.PassChangedTableIff | internal/adapters/primary/extauth/server.go:111-121 | a request that let the browser through changed the table if and only if its own write, one that makes a difference, was applied and reported failed |
| Stories.StoryAlways | internal/core/service/auth_service.go:39-91 | at every step of every history each request is where its own earlier steps brought it: lookup, cutoff, SELECT and building of session_data, in that order, with what each of them read |
| Effects.OnlyActiveUsersGetCookies | internal/core/service/auth_service.go:50-59 | in every run, also when users change, a request that is answered with a cookie found its e-mail address to belong to an active user at one of its steps, and the cookie is good for that user's ID |
| Races.PlantsWithoutRowIff | internal/adapters/secondary/mariadb/session_store.go:154-161 | in every reachable state, the cookie planted by a write has no row if and only if the write is a refresh and Ghost has deleted the row |
| Races.PlantCanMissItsRow | internal/adapters/secondary/mariadb/session_store.go:154-161 | from every initial table with a row in the window of an active user, a run that ends in a planted cookie without a row |
| Races.UpdateLowersExpiryIff | internal/adapters/secondary/mariadb/session_store.go:149-158 | in every run, a refresh sets the row's expiry to one lifetime after its own clock reading, and lowers it if and only if the data it replaces, where the proxy made it, was built at a later reading |
| Races.ExpiryCanFall | internal/adapters/secondary/mariadb/session_store.go:149-158 | from every initial table with a row in the window, a run of two requests in which the last refresh lowers the expiry by the time between their readings |
| Races.RacyTable | internal/adapters/secondary/mariadb/session_store.go:127-135 | such a table exists for every length of time within the window |
| SessionStore.Store.FindByUserId | internal/adapters/secondary/mariadb/session_store.go:126-162 | a session comes back only for the newest row in the window that starts one lifetime before a clock reading within the call, nothing comes back only when no row is in it; the refresh replaces that row's data and update time, and every other outcome leaves the table as it was; the cookie value returned verifies, under the configured secret, for that row's ID; it fails exactly when a statement failed |
| SessionStore.Store.Create | internal/adapters/secondary/mariadb/session_store.go:167-196 | success adds exactly one row, with the IDs that the drawn bytes encode and the times read within the call, and returns a cookie value that verifies for its ID under the configured secret; failure leaves the table as it was and comes exactly from a failed statement or random read |
| SessionStore.ReuseIsFresh | internal/adapters/secondary/mariadb/session_store.go:115-162 | the reused row is younger than one lifetime, creation times and every other row are untouched, and the new expiry lies between call start + lifetime and call end + lifetime, however stale the old one was |
| SessionStore.CreationIsFresh | internal/adapters/secondary/mariadb/session_store.go:167-196 | the created row is the only change; its session ID decodes to the bytes drawn, its object ID to the second of a reading within the call and the other bytes drawn; its times lie within the call and its expiry one lifetime later |
| SessionTable.NewestExists | internal/adapters/secondary/mariadb/session_store.go:128-135 | the SELECT has a row to return whenever some row matches |
| ExtAuth.ReplyCarriesVerdict | internal/adapters/secondary/authentik/forward_auth.go:65-109 | exactly one of e-mail, redirect and error is set, so that the tuple of possibly empty strings gives back the three-way verdict |
| ExtAuth.AuthService.EnsureSession | internal/core/service/auth_service.go:39-91 | an error-free empty result means exactly that the Ghost cookie was there; a non-empty one means that an active user's row was refreshed or, after a lookup that found none, inserted; all else leaves the table as it was; an error means a failed statement, no active user, or a failed random read after a lookup that found none |
| ExtAuth.Server.Check | internal/adapters/primary/extauth/server.go:74-135 | Check over empty-string results equals a decision over sum types: what is answered, what is on the wire and what the table holds afterwards; on a 200 an active user without the cookie gets one that verifies for a row of theirs, unless a statement or a needed random read failed, and every failure lets the request through |
| ExtAuth.AllCookiesArrive | internal/adapters/primary/extauth/server.go:155-182 | with these append actions the browser gets Location once and every cookie of Authentik's answer, in order |
| ExtAuth.DeniedRedirectTo | internal/adapters/primary/extauth/server.go:155-182 | the loop builds those headers |
| ExtAuth.PlantArrives | internal/adapters/primary/extauth/server.go:188-213 | the planting redirect reaches the browser with its target and its one cookie |
| ExtAuth.WireFollowsHttp | internal/adapters/primary/extauth/server.go:91-134 | from Authentik's HTTP answer to what the browser is sent: a 302 with a Location gives a 302 with that Location and those cookies, a 200 with an e-mail address a pass or a 302 to /ghost/ with a cookie that verifies for a row of that active user, everything else a pass |
| CallsAreRuns.CallIsARun | internal/adapters/primary/extauth/server.go:74-135 | whatever one Check call does to the table, some run of the machine with that one request does, with the same answer, so that what all runs keep holds of the calls |
| CallsAreRuns.CallTouchesOwnRows | internal/core/service/auth_service.go:39-91 | one call leaves the rows of every other user as they are |
| RedirectLoop.LineRoundTrip | internal/adapters/primary/extauth/server.go:219-224 | the printed line, parsed by section 5.2 of RFC 6265, gives the pair, Path, both flags and the expiry, for every cookie value without blanks, quotes, semicolons and backslashes and for every Max-Age |
| RedirectLoop.SignedIsPlain | internal/adapters/secondary/mariadb/session_store.go:203-209 | every signed session ID is such a value, for every key and HMAC |
| RedirectLoop.RecognisedAfterPlanting | internal/core/service/auth_service.go:94-103 | among any other cookies, in any order, the next request to a path under /ghost is recognised for Max-Age seconds, and afterwards only because of another cookie |
| RedirectLoop.StoredIsSentIff | internal/adapters/primary/extauth/server.go:219-224 | the planted cookie is sent to its own host only, over https only, for /ghost and what is below it only, and until it expires |
| RedirectLoop.PlantedReplaces | internal/adapters/primary/extauth/server.go:219-224 | it replaces the cookie planted before and leaves the others |
| RedirectLoop.CookieAgreesWithRow | internal/adapters/secondary/mariadb/session_store.go:293-317 | what the browser stores has the path, flags and length of life that the row's session_data states, and the line the same SameSite |
| RedirectLoop.PlantingMeansAbsent | internal/adapters/primary/extauth/server.go:110-134 | in every run, a planted cookie answers a request without a recognised cookie and is of the form that the browser sends back unchanged |
| RedirectLoop.CallAnswers | internal/adapters/primary/extauth/server.go:74-135 | what one imperative call answers is an answer in the sense of the redirect statements |
| RedirectLoop.SecondCallPasses | internal/adapters/primary/extauth/server.go:91-134 | redirect termination: while Authentik asks for no login, a call or the one after its redirect lets the browser through, whatever other requests run and whatever other answers the browser gets in between, if it keeps the cookie and follows within Max-Age |
| BrowserHistory.PlantingsAreFarApart | internal/adapters/primary/extauth/server.go:123-134 | over every history of one browser and the proxy, on one clock, with overlapping requests and among the requests of others: a request sent after a planting was received, and answered with a planting itself, was sent at least Max-Age after that receipt |
| Replanting.PlantedTwiceIff | internal/adapters/primary/extauth/server.go:123-134 | for all instants of sending and receiving, in either order of sending, one history of a new browser and one proxy in which both of two requests are planted a cookie exists if and only if the second was sent before the first was answered, or Max-Age after that at least |
| Replanting.RedirectGoesOnIff | internal/adapters/primary/extauth/server.go:123-134 | among the accepted counts of days: a browser can be redirected to /ghost/ with a cookie any number of times in a row, in no time, if and only if the int64 product for Max-Age is zero or less; otherwise not even twice |
| Answering.PlantsNow | internal/core/service/auth_service.go:50-90 | in every state, whatever other requests are doing and whatever the table holds, the proxy can answer a request of an active user that came without a cookie with one at once, refreshing a row if the window has one and else inserting one, given an unused draw |
| UserAgent.HeaderRecognisedIff | internal/core/service/auth_service.go:94-103 | for every jar and every order of sending, the proxy recognises the header exactly when one of the cookies sent is recognisable by itself |
| UserAgent.AttributesOfListing | internal/adapters/primary/extauth/server.go:219-224 | the attribute parser gives back every attribute of a line, in order |
| CookieHeader.RecognitionDistributes | internal/core/service/auth_service.go:94-103 | joining two headers with "; " is recognised exactly when one of them is |
| CookieHeader.RecognisedAmong | internal/core/service/auth_service.go:94-103 | a list of pairs is recognised exactly when one of its pairs is |
| CookieHeader.PlainPairRecognised | internal/core/service/auth_service.go:94-103 | the cookie's name with a plain value is recognised |
| CookieHeader.HeaderRecognisedByName | internal/core/service/auth_service.go:94-103 | a header of pairs is recognised if and only if one of them has the name ghost-admin-api-session and a value that net/http reads; any other cookie is not |
| CookieHeader.PairRecognisedIff | internal/core/service/auth_service.go:94-103 | the same for a single pair |
| CookieHeader.SpacesDoNotMatter | internal/core/service/auth_service.go:94-103 | white space around the header changes nothing |
| Base64.DecodeIffEncode | internal/adapters/secondary/mariadb/session_store.go:213-219 | over both alphabets of RFC 4648, unpadded encoding and strict decoding are inverse to each other in both directions |
| Base64.EncodeBuffer | internal/adapters/secondary/mariadb/session_store.go:206-218 | the encoder's loop over a byte buffer computes that encoding |
| Base64.TrimPadding | internal/adapters/secondary/mariadb/session_store.go:206-207 | trimming '=' from the padded form leaves the unpadded one, so nothing is lost |
| Base64.EncodesByTable | internal/adapters/secondary/mariadb/session_store.go:206-218 | each three bytes, as one number, are its four digits to the base 64, written with Table 1 or 2 of RFC 4648 |
| Base64.TailByTable | internal/adapters/secondary/mariadb/session_store.go:206-218 | one or two bytes at the end are two or three characters of the table, filled up with zero bits |
| Identifiers.GenerateSessionId | internal/adapters/secondary/mariadb/session_store.go:213-219 | the ID is the URL-safe encoding of the 24 bytes drawn, and a failed draw is an error |
| Identifiers.SessionIdFormOfDraw | internal/adapters/secondary/mariadb/session_store.go:213-219 | 32 characters of the URL-safe alphabet for every draw |
| Identifiers.SessionIdFormIsDraw | internal/adapters/secondary/mariadb/session_store.go:211-219 | and every such text is the encoding of a draw, so the form describes the IDs exactly |
| Identifiers.GenerateObjectId | internal/adapters/secondary/mariadb/session_store.go:223-230 | filling the buffer in place gives the hex of the truncated time and the eight random bytes |
| Identifiers.FillFrom | internal/adapters/secondary/mariadb/session_store.go:226 | the random read replaces the tail of the buffer and keeps its front |
| Identifiers.ObjectIdRoundTrip | internal/adapters/secondary/mariadb/session_store.go:221-230 | 24 lowercase hex digits that decode to the 12 bytes; equal IDs have equal 32-bit times and equal random parts |
| Identifiers.ObjectIdOrder | internal/adapters/secondary/mariadb/session_store.go:223-230 | IDs of different 32-bit seconds sort as those seconds do, whatever the random part, and conversely |
| Identifiers.ObjectIdHoldsTime | internal/adapters/secondary/mariadb/session_store.go:223-230 | the first four decoded bytes are the seconds, in big-endian order, up to 2106, and congruent to them modulo 2^32 always; the other eight are those drawn |
| Identifiers.LaterSecondsSortLater | internal/adapters/secondary/mariadb/session_store.go:223-230 | up to 2106 the ID of a later second sorts after that of an earlier one, whatever the random parts |
| Identifiers.HexDigitsOf | internal/adapters/secondary/mariadb/session_store.go:229 | each byte is its two digits out of 0123456789abcdef |
| Identifiers.HexDecodeIffEncode | internal/adapters/secondary/mariadb/session_store.go:229 | lowercase hex and its decoder are inverse to each other in both directions |
| CookieSigning.UnsignIffSigned | internal/adapters/secondary/mariadb/session_store.go:203-209 | splitting at the last dot and comparing the decoded tail with the MAC accepts exactly the signed values and gives back the ID, even one with dots in it |
| CookieSigning.SignCookieShape | internal/adapters/secondary/mariadb/session_store.go:203-209 | the length is that of the ID and 46; the tail decodes to the whole 32-byte MAC |
| CookieSigning.SignCookieInjective | internal/adapters/secondary/mariadb/session_store.go:203-209 | two IDs never have the same cookie |
| Lifetime.RepresentationsAgree | internal/adapters/secondary/mariadb/session_store.go:293-300 | for 1 to 106751 days no int64 product overflows, and every intermediate product is exact, and seconds, milliseconds, nanoseconds and window are one length of time |
| Lifetime.ExpiryMatchesWindowIff | config/config.go:63-69 | among the counts that the configuration accepts, the expiry matches the window exactly up to 106751 |
| Lifetime.FirstOverflow | internal/adapters/secondary/mariadb/session_store.go:295 | with one day more the expiry lies before the clock reading, while Max-Age is still right |
| Lifetime.MaxAgeIsExactIff | internal/adapters/primary/extauth/server.go:69 | among the counts that the configuration accepts, Max-Age is the length of the days exactly up to 106751991167300; with one more it is negative |
| SettingsSecret.LoadSecret | internal/adapters/secondary/mariadb/session_store.go:79-97 | loading fails exactly on empty text and else gives the loaded secret that the three lemmas below describe |
| SettingsSecret.UnquotesIffJsonString | internal/adapters/secondary/mariadb/session_store.go:93-97 | the unwrapping applies exactly to JSON strings between blanks, by the grammar of section 7 of RFC 8259 |
| SettingsSecret.LoadingInvertsStoring | internal/adapters/secondary/mariadb/session_store.go:88-97 | however a non-empty secret is written as a JSON string (plain, short escapes, \u escapes, surrogate pairs), the loaded key is the secret |
| SettingsSecret.PlainSecretLoads | internal/adapters/secondary/mariadb/session_store.go:88-97 | a secret between quotes as it is loads as itself when it has no quotes, backslashes and control characters |
| SettingsSecret.LoneSurrogateIsReplaced | internal/adapters/secondary/mariadb/session_store.go:93-94 | a \u escape of a surrogate by itself becomes U+FFFD, as encoding/json reads it |
| SettingsSecret.OtherTextIsVerbatim | internal/adapters/secondary/mariadb/session_store.go:85-97 | other non-empty text is the key as it stands; no loaded key is empty |
| SetupConvergence.OneWrite | scripts/authentik-setup-ghost.py:262-276 | after the first write of a run, a new run would make exactly the remaining writes, whatever key comes next, if and only if what the write created shows on the first page |
| SetupConvergence.RerunConvergesIff | scripts/authentik-setup-ghost.py:130-239 | aborted after any number of writes and run again to the end, the script always leaves what one uninterrupted run leaves, up to the fresh key, if and only if the first page shows or has room for what is created |
| SetupConvergence.FurtherRunIsSilentIff | scripts/authentik-setup-ghost.py:130-137 | the plan of a further run is empty if and only if the first page shows or has room for the provider and the application |
| SetupConvergence.LookAlikesHideProvider | scripts/authentik-setup-ghost.py:130-137 | remote states that fail, for every length of a page: as many look-alikes as fill it; two runs create two providers of the exact name |
| SetupConvergence.AnyRunsConverge | scripts/authentik-setup-ghost.py:130-239 | any number of runs cut short anywhere, then one that completes, where the first page shows or has room for what is created: the writes applied over all of them are those of one uninterrupted run, each once and in order, and so is the state |
| SetupConvergence.FoundAppPointsToProvider | scripts/authentik-setup-ghost.py:166-190 | where the first page shows or has room for what is created, the application that the script finds afterwards points to the provider |
| SetupConvergence.FinalStateIsSetUp | scripts/authentik-setup-ghost.py:140-239 | on every remote state with at most one provider of the exact name: afterwards an application of the slug points to the provider, the outpost, if any, lists it, and there is one provider of the name if and only if the page showed the one before or there was none |
| SetupConvergence.CreatedProvider | scripts/authentik-setup-ghost.py:147-163 | a created provider has forward auth for the one host and the flows given, and is the one found afterwards exactly when the page has room |
| SetupConvergence.OutpostListsOnce | scripts/authentik-setup-ghost.py:208-239 | the outpost lists the provider once when its list had no duplicates |
| SetupConvergence.EmbeddedIsPreferred | scripts/authentik-setup-ghost.py:211-222 | the first embedded outpost is the one the script works on |
| SetupConvergence.ProxyIsFallback | scripts/authentik-setup-ghost.py:213-222 | without one it is the first outpost of type proxy, and without that none |
| SetupConvergence.OnlyThatOutpostChanges | scripts/authentik-setup-ghost.py:228-238 | only the outpost found gets another list, namely its own with the key added at the end |
| SetupConvergence.FinalApps | scripts/authentik-setup-ghost.py:176-205 | afterwards an application of the slug points to the provider; a missing one is created last with the script's name and slug, and no application of another slug changes |
| SetupConvergence.DryRunPredictsIff | scripts/authentik-setup-ghost.py:157-159 | the plan with the placeholder key 0 is announced as the plan with the new key if and only if a provider exists or the two keys are used alike by the application and the outpost found |
| SetupConvergence.DryRunPredicts | scripts/authentik-setup-ghost.py:157-159 | in particular when neither key is in use |
| SetupScript.FindFlows | scripts/authentik-setup-ghost.py:86-127 | the paged scan with its early exits ends, finds what a search of all pages together finds, also for equal slugs, and fails exactly when a call fails or a slug is on no page; each key is that of a flow some page lists with that slug |
| SetupScript.CreateProvider | scripts/authentik-setup-ghost.py:140-163 | makes exactly the calls of the plan's first part; on failure a part of them, the last applied or not; on a dry run none, and announces them |
| SetupScript.CreateApplication | scripts/authentik-setup-ghost.py:176-205 | the same for the plan's second part |
| SetupScript.AssignToOutpost | scripts/authentik-setup-ghost.py:208-239 | the same for the plan's last part |
| SetupScript.RunSetup | scripts/authentik-setup-ghost.py:244-276 | a run completes exactly when no call failed and both flows are there; it then has made exactly the calls of the plan, in order; one that exits at any failed call has made a prefix of them, the last applied or not; a dry run has made none and announced them; a created provider has the authorization flow of the one slug and the invalidation flow of the other, each listed on some page |
| SetupScript.AbortAndRerun | scripts/authentik-setup-ghost.py:262-276 | any number of runs that may fail anywhere and one more: the recorded calls and the state are those that the plans of the runs say; if the last run completes and the first page showed or had room for what is created, the applied calls are those of one uninterrupted run, each once, and nothing is left to write |
| SetupScript.RunTwice | scripts/authentik-setup-ghost.py:262-276 | the second of two completed runs makes no call that writes if and only if the first page showed or had room for what the first created |
| SetupScript.DryThenLive | scripts/authentik-setup-ghost.py:157-235 | what a dry run announces is what the live run after it is recorded to call, by kind and target and in order, if and only if a provider was there or both keys are used alike |

## Left out

- gRPC serving, health checks, signals and shutdown; HTTP, TLS and timeouts of the Authentik client and of `urllib`: their outcomes are arbitrary inputs.
- The SQL driver, connection pool, column precision and collation; each statement is one atomic step.
- HMAC-SHA256 itself and the quality of the random source.
- JSON marshalling of session_data, date formatting and the calendar; session_data is a record, time a number of nanoseconds.
- Bytes that are not valid UTF-8 in the settings column; the column's text is a sequence of Unicode characters.
- Logging, `safeHead`, `safeTail`, environment loading and the DSN.
- `firstNonEmpty` and the forwarded host, scheme and path that go to Authentik: they reach no modelled decision.
- net/http's limit on the number of cookies in one header.
- The Expires and Domain attributes of RFC 6265, eviction, and its order of sending (every order is covered); other hosts.
- Pages of the filtered lists after the first, which the script never asks for; the length of a page is a field of the remote state.
- Two operators running the set-up script at the same time.
- What `find_flows` does when two flows share a slug.
- The printed texts of the script, except which writes a dry run announces.
- The `driven` and `driving` port packages, which the running program does not use.
