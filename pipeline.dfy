/** The browser script and the relay endpoint together: what the relay's
    cookie gate sees in the bodies the script sends. */
module Pipeline {
  import opened Values
  import opened Dict
  import opened Php
  import opened ConsentGate
  import opened Session
  import opened EventClient
  import opened Relay

  /** The `consent` and `cookieless` flags the relay reads from a body the
      script sent, when the event does not carry fields of those names. */
  lemma SentFlags(env: Env, d: Decision, f: SessionFields, event: seq<(string, Value)>)
    requires DistinctKeys(event) && "consent" !in Keys(event) && "cookieless" !in Keys(event)
    ensures var body := Some(Body(env, d, f, event));
      Flag(body, "consent") == Bool(d.consent) && Flag(body, "cookieless") == Bool(d.cookieless)
  {
    var b := BrowserData(env, d);
    var s := SessionObject(f);
    assert "consent" !in Keys(s) && "cookieless" !in Keys(s);
    FlagFromBrowser(b, s, event, "consent", Bool(d.consent));
    FlagFromBrowser(b, s, event, "cookieless", Bool(d.cookieless));
  }

  lemma FlagFromBrowser(b: seq<(string, Value)>, s: seq<(string, Value)>, e: seq<(string, Value)>, k: string, v: Value)
    requires DistinctKeys(b) && DistinctKeys(s) && DistinctKeys(e)
    requires k !in Keys(s) && k !in Keys(e) && Get(b, k) == Some(v) && v != Null
    ensures Flag(Some(Payload(b, s, e)), k) == v
  {
    PayloadPrecedence(b, s, e, k);
  }

  /** Every body the script sends says `consent: true` unless the event
      overrides it, so the relay's cookie gate is open for it: the
      "cookieless without consent" branch at the relay is never taken for
      these bodies, whatever the consent mode. */
  lemma SentBodyOpensGate(cfg: Config, snaps: seq<Snapshot>, id: int, env: Env, f: SessionFields,
                          event: seq<(string, Value)>)
    requires DistinctKeys(event) && "consent" !in Keys(event) && "cookieless" !in Keys(event)
    requires Sends(Resolve(cfg, snaps, id))
    ensures var body := Some(Body(env, Resolve(cfg, snaps, id).decision, f, event));
      CookieGate(Flag(body, "cookieless"), Flag(body, "consent"))
  {
    SentFlags(env, Resolve(cfg, snaps, id).decision, f, event);
  }

  /** Hybrid mode, the visitor refuses (with either provider, after any
      number of unanswered ticks): the status is `{interval_id, consent:
      true, cookieless: true}`, the script sends the event, and the gate as
      written at the relay is open although the body asks for cookieless
      tracking. */
  lemma HybridDeclinedKeepsCookie(cfg: Config, snaps: seq<Snapshot>, id: int, env: Env, f: SessionFields,
                                  event: seq<(string, Value)>)
    requires cfg.tracking == "hybrid" && Refuses(cfg, snaps, id)
    requires DistinctKeys(event) && "consent" !in Keys(event) && "cookieless" !in Keys(event)
    ensures Resolve(cfg, snaps, id) == Resolved(Decision(Some(id), true, true))
    ensures var status := Resolve(cfg, snaps, id);
      var body := Some(Body(env, status.decision, f, event));
      && Sends(status)
      && Truthy(Flag(body, "cookieless"))
      && CookieGate(Flag(body, "cookieless"), Flag(body, "consent"))
  {
    RefusalDecision(cfg, snaps, id);
    SentFlags(env, Decision(Some(id), true, true), f, event);
  }

  /** Under the corrected gate the same request writes no cookie, whatever
      the endpoint answers and whatever the browser holds. */
  lemma HybridDeclinedWritesNoCookie(cfg: Config, snaps: seq<Snapshot>, id: int, env: Env, f: SessionFields,
                                     event: seq<(string, Value)>, opts: Options, jar: Jar,
                                     responseCookies: seq<HttpCookie>, cookieTime: int)
    requires cfg.tracking == "hybrid" && Refuses(cfg, snaps, id)
    requires DistinctKeys(event) && "consent" !in Keys(event) && "cookieless" !in Keys(event)
    ensures Resolve(cfg, snaps, id).Resolved?
    ensures var body := Some(Body(env, Resolve(cfg, snaps, id).decision, f, event));
      CookieWrites(opts, jar, body, responseCookies, cookieTime) == []
  {
    HybridDeclinedKeepsCookie(cfg, snaps, id, env, f, event);
    LooseEqualsTrueIsTruthy(Bool(true));
  }

  /** Under the corrected gate, a body the script sends gets the response
      cookie written back exactly when the visitor did not refuse (and the
      browser has no cookie yet and the endpoint sent one). */
  lemma SentBodyCookieWrites(cfg: Config, snaps: seq<Snapshot>, id: int, env: Env, f: SessionFields,
                             event: seq<(string, Value)>, opts: Options, jar: Jar,
                             responseCookies: seq<HttpCookie>, cookieTime: int)
    requires DistinctKeys(event) && "consent" !in Keys(event) && "cookieless" !in Keys(event)
    requires Sends(Resolve(cfg, snaps, id))
    ensures var body := Some(Body(env, Resolve(cfg, snaps, id).decision, f, event));
      CookieWrites(opts, jar, body, responseCookies, cookieTime) != [] <==>
        && !(Polls(cfg) && Refuses(cfg, snaps, id))
        && InboundCookie(opts, jar).None?
        && RetrieveCookie(responseCookies, opts.cookieName).Some?
  {
    var d := Resolve(cfg, snaps, id).decision;
    SentFlags(env, d, f, event);
    if Polls(cfg) {
      RefusalDecision(cfg, snaps, id);
    }
  }

  /** Normal mode: a refusal, with either provider and after any number of
      unanswered ticks, settles to `{interval_id, false, false}` and nothing
      is sent; and every resolved status without consent is such a
      refusal. */
  lemma NormalDeclinedSendsNothing(cfg: Config, snaps: seq<Snapshot>, id: int)
    requires cfg.tracking == "normal"
    ensures Refuses(cfg, snaps, id) ==>
      Resolve(cfg, snaps, id) == Resolved(Decision(Some(id), false, false)) && !Sends(Resolve(cfg, snaps, id))
    ensures Resolve(cfg, snaps, id).Resolved? && !Resolve(cfg, snaps, id).decision.consent ==>
      Refuses(cfg, snaps, id) && Resolve(cfg, snaps, id).decision == Decision(Some(id), false, false)
  {
    RefusalDecision(cfg, snaps, id);
  }

  /** The single-snapshot Cookiehub case of both refusals. */
  lemma CookiehubRefusals(id: int, hub: Cookiehub)
    requires hub.answered && !hub.analytics
    ensures Resolve(Config("cookiehub", "hybrid"), [Snapshot(Some(hub), None)], id) == Resolved(Decision(Some(id), true, true))
    ensures Resolve(Config("cookiehub", "normal"), [Snapshot(Some(hub), None)], id) == Resolved(Decision(Some(id), false, false))
  {
    var snaps := [Snapshot(Some(hub), None)];
    assert ReadingOf(Config("cookiehub", "hybrid"), snaps[0]) == Answered(false);
    assert ReadingOf(Config("cookiehub", "normal"), snaps[0]) == Answered(false);
    RefusalDecision(Config("cookiehub", "hybrid"), snaps, id);
    RefusalDecision(Config("cookiehub", "normal"), snaps, id);
  }
}
