# Server-side analytics relay — a Dafny model

This project models the event relay of a WordPress server-side analytics
plugin. There are two halves.

**The browser script** (`js/main.js`):
- `window.consent.getStatus` decides whether an event may be sent and
  whether it should be tracked cookieless. It reads the Cookiehub or
  Cookiebot consent widget on a poll.
- The session tracker keeps a session count in `localStorage` and a
  tab-scoped session id in `sessionStorage`.
- `window.serverside.request` merges browser, session and event fields and
  posts them to the relay only when consent is given. It then clears the
  poll's interval.

**The relay endpoint** (`ServerSideAnalytics` in `index.php`):
- It resolves the client id from the first-party cookie.
- It merges `tid`, `cid` and `_dbg` over the body.
- It forwards the result as a query string built with `http_build_query`,
  with `+` rewritten to `%20`.
- It writes the collection endpoint's cookie back, never over an existing
  cookie. As written it does so unless the client asked for cookieless
  tracking without consent; the model uses the corrected gate of the
  finding below, which refuses every body asking for cookieless tracking.

Modules and what they hold:
- `Values`: `Option`, and the flat scalar `Value` carried in an event body.
- `Decimal`: decimal text of integers and JavaScript's `parseInt`.
- `Php`: PHP 8 truthiness and the loose `==` on scalars.
- `Dict`: ordered key/value lists. A JavaScript object spread and PHP's
  `array_merge` over string keys are both `Merge`.
- `Query`: `urlencode` over UTF-8 bytes, `http_build_query`, the `+`
  rewrite, and an `application/x-www-form-urlencoded` decoder as its
  partner.
- `ConsentGate`: `getStatus`. `GetStatus` is a loop over widget snapshots
  that is proved against the function `Resolve`.
- `Session`: the class `Storage`. Its two maps are updated in place by
  `SessionCount` and `SessionData`, which are proved against the functions
  `CountStep` and `SessionStep`.
- `EventClient`: the class `Client`. `Request` records the posts made and
  the intervals left running.
- `Relay`: the class `Relay`. It records outbound requests and `Set-Cookie`
  entries.
- `Pipeline`: what the relay's cookie gate sees in the bodies the script
  sends.

Where the documented intent and the code differ, the model follows the code.
Two examples:
- The minted session id is `Date.now()` plus an integer in
  [100000000, 999999999). It is not a bare nine-digit number.
- `_dbg` is `debug_mode == '1'` under PHP 8 loose comparison.

The one exception is the relay's cookie gate, described under "## Findings".

## Model

| member | source | states |
|---|---|---|
| ConsentGate.CookiehubReading | js/main.js:80-102 | the check throws exactly when `window.cookiehub` is missing; it answers exactly when `hasAnswered()`, and the answer is `hasConsented("analytics")` |
| ConsentGate.CookiebotReading | js/main.js:109-131 | no response means not answered; granted iff `consented \|\| (consent.marketing && consent.statistics)`; it throws when the global is missing, or when `consent` is read while missing (only if `consented` is false) |
| ConsentGate.Respond | js/main.js:84-124 | an answer always carries the interval id; consent gives `{true, false}`; a refusal gives `consent == cookieless == (tracking == 'hybrid')` |
| ConsentGate.ReadingOf | js/main.js:149-180 | the configured provider's check is the one read; a provider other than cookiehub or cookiebot never answers |
| ConsentGate.TickOf | js/main.js:145-181 | a settled tick carries this poll's interval id and never says cookieless without consent; a provider other than cookiehub or cookiebot makes every tick wait |
| ConsentGate.AnsweredSnapshotSettles | js/main.js:80-131 | an answered snapshot settles the tick the same way for Cookiehub and Cookiebot: consent gives `{interval_id, true, false}`, a refusal `consent == cookieless == (tracking == 'hybrid')` |
| ConsentGate.Resolve | js/main.js:136-182 | `disable` resolves to exactly `{consent: true, cookieless: false}` with no interval id; a mode that neither disables nor polls never settles; a resolved status has an interval id iff the mode polls |
| ConsentGate.PollFrom | js/main.js:145-181 | a poll that resolves carries this poll's interval id and never says cookieless without consent |
| ConsentGate.PollFromFirstActive | js/main.js:145-181 | unanswered ticks are skipped; the first answered tick resolves the poll; a tick that throws rejects it; with no such tick the status stays pending |
| ConsentGate.FirstAnswerDecides | js/main.js:145-181 | a poll resolves to `d` iff some tick answers `d` and every earlier tick waits |
| ConsentGate.RefusalDecision | js/main.js:90-95 | for either provider and any ticks, a refusal resolves to `consent == cookieless == (tracking == 'hybrid')`, and a resolved poll is a refusal iff it is not `{consent: true, cookieless: false}` |
| ConsentGate.GetStatus | js/main.js:73-184 | the loop settles to `Resolve`; the interval runs in the polling modes and is cleared iff some tick throws, even after resolution |
| Decimal.ParseIntOfNumberToString | js/main.js:279-280 | a count stored with `setItem` reads back through `parseInt` as the same number, NaN included |
| Session.CountStep | js/main.js:265-287 | without consent it returns 1 and leaves `localStorage` unchanged; only `session_count` can change; a tab with a session id gets 1 |
| Session.CountStepCases | js/main.js:269-286 | the four cases: a missing counter is stored as 1 and returns 1; a new tab stores and returns count + 1, or `NaN` when the stored count does not parse; otherwise it returns 1 and leaves the counter unchanged |
| Session.CountNeverDecreases | js/main.js:265-287 | a stored count that parses still parses afterwards and is never smaller; a count that does not parse starts parsing only by being created as `1` |
| Session.CountStepStoresResult | js/main.js:279-281 | whenever the counter is written, it reads back as the count returned |
| Session.Storage.SessionCount | js/main.js:265-287 | the in-place update of `localStorage` and the returned count are exactly `CountStep` |
| Session.Engagement | js/main.js:289-291 | `seg` is 0 or 1, and it is 1 iff the tab already has a session id |
| Session.RandomInt | js/main.js:259-263 | for `0 <= Math.random() < 1` the value is `Date.now()` plus an integer in `[min, max)` |
| Session.MintedSidRange | js/main.js:303 | the stored new session id reads back as `Date.now()` plus an integer in [100000000, 999999999) |
| Session.MintStep | js/main.js:301-304 | an existing session id is kept as it is; afterwards the tab has a session id; no other `sessionStorage` key changes |
| Session.SessionStep | js/main.js:258-311 | `seg` reflects presence before minting; the returned `sid` is the stored one; an existing id is never overwritten; a new one is the minted value |
| Session.Storage.SessionData | js/main.js:293-310 | the in-place update of both storage areas and the returned object are exactly `SessionStep` |
| Session.RunStable | js/main.js:289-310 | across the events of one tab: one session id; every event after the first has `seg` 1 and `sct` 1; the id is not rewritten; the counter is at most created, and then at `1` when the first event has consent |
| EventClient.BrowserData | js/main.js:320-330 | `browserData` has the nine keys in order, with `v` 2, `ds` 'web', `sr` `WxH`, and the status's `consent` and `cookieless` |
| EventClient.BrowserDataPageFields | js/main.js:322-326 | `ul`, `dl`, `dt` and `dh` hold `navigator.language`, `document.URL`, `document.title` and `document.domain` |
| EventClient.SessionObject | js/main.js:295-310 | the session object has `seg`, `sct`, `_s`, `sid`, with `_s` equal to `sct` |
| EventClient.Payload | js/main.js:339-343 | the spread body never repeats a key |
| EventClient.PayloadPrecedence | js/main.js:339-343 | in the body, event fields override session fields, which override browser fields |
| EventClient.SpreadKeys | js/main.js:339-343 | the body's keys are the browser keys, then the session keys, then the event's new keys, in order |
| EventClient.PendingKeepsPolling | js/main.js:145-181 | a status that never settles leaves its interval running; a rejected one has cleared it |
| EventClient.Client.Request | js/main.js:314-361 | the status comes from `getStatus`; exactly one post of the merged body is made to `/track` iff consent is true, together with one session step; otherwise nothing changes; the interval is left running iff the mode polls and the status is pending |
| EventClient.Client.Send | js/main.js:333-353 | one post of the merged browser, session and event fields to `/track` is recorded, and both storage areas take the session step |
| EventClient.Client.Settle | js/main.js:356 | the interval named by a resolved status is cleared |
| Php.EqualsOneIsTruthy | index.php:242 | an option that compares equal to `'1'` is truthy |
| Php.EqualsOneExamples | index.php:242 | the loose `== '1'` accepts `'1'`, `1`, `true` and `'01'`, and rejects `null`, `''`, `0` and `'on'` |
| Relay.InboundCookie | index.php:180 | the cookie counts iff it is set and neither `''` nor `'0'` |
| Relay.GetCid | index.php:179-185 | a truthy inbound cookie is the client id; otherwise the id is the decimal text `<time>.<n>` and reads back as that time and that n, with 10000000 ≤ n ≤ 90000000 |
| Relay.ForwardedCookie | index.php:213-217 | the cookie is forwarded, by name and value, iff it is set and truthy |
| Relay.Flag | index.php:248-249 | a flag is never `null`: a missing or `null` entry, or a body that is not a JSON object or array, reads as `''`; otherwise it is the body's value |
| Relay.CookieGate | index.php:279 | the gate as written is open iff `cookieless` is falsy or `consent` is truthy |
| Relay.CorrectedGateNarrows | index.php:279 | the corrected gate implies the written one, and they differ exactly on bodies whose `cookieless` and `consent` are both truthy |
| Relay.CookieWrites | index.php:279-282 | at most one cookie is written: the response cookie, iff the body does not ask for cookieless tracking, the browser has no truthy cookie and the endpoint sent one |
| Relay.Extras | index.php:254-258 | the added map is `tid`, `cid`, `_dbg`, with `_dbg` true iff `debug_mode == '1'` |
| Relay.QueryData | index.php:252-259 | a body without repeated keys gives a merged map without repeated keys |
| Relay.QueryDataOverrides | index.php:252-259 | `tid`, `cid` and `_dbg` override same-named body fields; every other body field is kept unchanged; key order is the body's, then the new keys |
| Relay.DebugFlag | index.php:257 | `_dbg` is true exactly when `debug_mode == '1'`, and then `debug_mode` is truthy |
| Query.ReplacePlusEncodeBytes | index.php:261 | after the rewrite a space is `%20` and every other byte is written as by `urlencode` |
| Query.QueryRoundTrip | index.php:261 | decoding the query gives exactly the non-null fields of the merged map, in order, as UTF-8 bytes |
| Query.QueryHasNoPlus | index.php:261 | the query has no `+`; it holds only unreserved characters, `%`, `&` and `=` |
| Relay.QueryUrl | index.php:261 | the URL is the endpoint, then `?`, then a query with no `+` |
| Relay.QueryUrlReadsBack | index.php:261 | the URL is the endpoint, `?`, then a query with no `+` that decodes to the merged map |
| Relay.NewCookie | index.php:197-205 | the written cookie has the response cookie's name, value and domain, `expires = now + cookie_expires`, path `/`, secure, httponly and the configured same-site value |
| Relay.RetrieveCookie | index.php:280 | the retrieved response cookie has the option's name; none is retrieved only when no response cookie has it |
| Relay.CookieRoundTrip | index.php:179-217 | once written, a truthy cookie is the next request's client id, is forwarded, and is not written again, whatever the body and the endpoint's answer |
| Relay.Active | index.php:242 | only a truthy `active` option turns the relay on, and the stored `'1'` does |
| Relay.Headers | index.php:268-272 | the request carries exactly `Content-Type: application/json; charset=utf-8`, `Accept-Encoding: deflate, gzip, br` and `X-Gtm-Server-Preview` set to the preview string |
| Relay.Relay.SetServerSideCookie | index.php:192-207 | a truthy inbound cookie is returned and never overwritten; otherwise the response cookie, if any, is written |
| Relay.Relay.SendEventRequest | index.php:241-283 | inactive gives false and no effect; a body that is not a JSON object or array (no JSON, `null` or a scalar) fails before any request; otherwise one request is made to the query URL with the forwarded cookie and fixed headers, and the cookies written are `CookieWrites` (the corrected gate of the finding below) |
| Pipeline.SentBodyOpensGate | js/main.js:328-333 | every body the script sends claims consent, so the relay's cookie gate is open for it |
| Pipeline.HybridDeclinedKeepsCookie | index.php:277-282 | a hybrid-mode refusal, with either provider and any ticks, sends `{consent: true, cookieless: true}`; the relay then sees a truthy `cookieless` and the gate as written is still open |
| Pipeline.HybridDeclinedWritesNoCookie | index.php:277-282 | under the corrected gate, the body of a hybrid-mode refusal gets no cookie written, whatever the browser holds and the endpoint answers |
| Pipeline.SentBodyCookieWrites | index.php:279-282 | under the corrected gate, a body the script sends gets the response cookie written iff the visitor did not refuse, the browser has no truthy cookie and the endpoint sent one |
| Pipeline.NormalDeclinedSendsNothing | js/main.js:333 | a normal-mode refusal, with either provider and any ticks, settles to `{interval_id, false, false}` and nothing is sent; every resolved status without consent is such a refusal |
| Pipeline.CookiehubRefusals | js/main.js:90-95 | one answered-and-declined Cookiehub snapshot gives `{true, true}` in hybrid mode and `{false, false}` in normal mode |

## Findings

| source | as written | input that shows it | evidently intended | confidence | as-written member | corrected member |
|---|---|---|---|---|---|---|
| index.php:279 | `$cookieless != true \|\| $consent == true` opens the gate for every body the script sends, because the script reports `consent: true` together with `cookieless: true` when a hybrid-mode visitor refuses (js/main.js:93-94, js/main.js:122-123) | hybrid tracking, Cookiehub answered with analytics refused: the body carries `consent: true, cookieless: true`, the browser has no `FPID` cookie, the endpoint answers with one; the relay writes it back | hybrid tracking sets no cookie without consent (index.php:71, index.php:277): a body asking for cookieless tracking gets no cookie | high; not executed | `Relay.CookieGate`, with `Pipeline.HybridDeclinedKeepsCookie` | `Relay.CookiesAllowed` and `Relay.CookieWrites`, used by `Relay.Relay.SendEventRequest`, with `Pipeline.HybridDeclinedWritesNoCookie` and `Pipeline.SentBodyCookieWrites` |

## Left out

- Script injection (`loadCookiehub`, `loadCookiebot`, `loadTagManager`) and the `initGlobals` presence check. These are DOM wiring.
- Timers and Promises. The `setInterval` poll is a sequence of widget snapshots, and the interval id is a parameter.
- Session.CountStep: not every asynchronous effect is captured.
  - `getSessionCount` is not awaited, so in the browser `sct` and `_s` are a pending Promise.
  - Its update runs after the session id has been minted. The "count + 1" branch is therefore not reached in the browser.
  - The model runs the count step first, in written order, and takes the consent of its second `getStatus` call as a parameter.
- EventClient.Client.Request: the second poll started by `getSessionCount` is not modelled; in the browser nothing clears its interval unless one of its ticks throws.
- `fetch`'s response handling and `console.error` logging. The post is recorded, and its JSON encoding is taken to carry the fields unchanged.
- Network and cookie I/O (`wp_remote_get`, `setcookie`, `register_rest_route`). These are recorded as effects, and the endpoint's response cookies are a parameter.
- `Date.now()`, `time()`, `mt_rand` and `Math.random()`. These are parameters.
- Session.RandomInt: computed over exact reals; floating-point rounding of `Math.random() * (max - min) + min` is not modelled.
- JavaScript numbers are unbounded integers. Precision loss above 2^53 is not modelled.
- Nested arrays, floats and integer-like keys in the body. Values are flat scalars (`null`, booleans, integers, strings), and keys are strings, so `array_merge`'s renumbering of integer keys does not arise. An empty JSON list is the empty body; a non-empty list has integer keys and is left out with them.
- PHP strings are modelled as Unicode text encoded to UTF-8 by `urlencode`. Byte strings that are not valid UTF-8 are not modelled.
- Relay.RetrieveCookie: `wp_remote_retrieve_cookie` returns `''` when no cookie matches. That is modelled as `None`, so `$cookie != ''` becomes `Some?`.
- Relay.Relay.SendEventRequest: writes the response cookie under the corrected gate of the finding above, not under the written `$cookieless != true || $consent == true`; the written gate is `Relay.CookieGate`, and `Relay.CorrectedGateNarrows` states where the two differ.
- Relay.NewCookie: `cookie_expires` is taken to be an integer. PHP's arithmetic on a non-numeric option is not modelled.
- The settings page, asset enqueueing and plugin bootstrap (`includes/class-settings-page.php`, `includes/class-enqueue.php`). These are WordPress UI and wiring.
