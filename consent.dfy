/** `window.consent.getStatus` of the browser script: how the consent
    decision is reached from the configured tracking mode and the consent
    widget's state. The `setInterval` poll becomes a loop over the
    snapshots the widget shows at successive ticks; the interval id the
    browser hands out is a parameter. */
module ConsentGate {
  import opened Values

  /** The localized settings the script reads: `cmp_provider` and
      `cmp_tracking`. */
  datatype Config = Config(provider: string, tracking: string)

  /** A resolved status object: `interval_id` (absent when no poll ran),
      `consent` and `cookieless`. */
  datatype Decision = Decision(intervalId: Option<int>, consent: bool, cookieless: bool)

  /** `window.cookiehub`: `hasAnswered()` and `hasConsented("analytics")`. */
  datatype Cookiehub = Cookiehub(answered: bool, analytics: bool)

  /** `window.Cookiebot.consent`. */
  datatype CookiebotConsent = CookiebotConsent(marketing: bool, statistics: bool)

  /** `window.Cookiebot`: `hasResponse`, `consented` and the `consent`
      object, which may be missing. */
  datatype Cookiebot = Cookiebot(hasResponse: bool, consented: bool, consent: Option<CookiebotConsent>)

  /** What the page exposes at one tick: each widget's global, `None` when
      it is not defined (reading it then throws). */
  datatype Snapshot = Snapshot(cookiehub: Option<Cookiehub>, cookiebot: Option<Cookiebot>)

  /** What one status check finds: no answer yet, an answer, or an
      exception. */
  datatype Reading = NotAnswered | Answered(granted: bool) | Threw

  function CookiehubReading(w: Option<Cookiehub>): (r: Reading)
    ensures r == Threw <==> w.None?
    ensures r.Answered? <==> w.Some? && w.value.answered
    ensures r.Answered? ==> r.granted == w.value.analytics
  {
    match w
    case None => Threw
    case Some(hub) => if hub.answered then Answered(hub.analytics) else NotAnswered
  }

  /** `consented || (consent.marketing && consent.statistics)`: the
      right operand is only evaluated, and can only throw, when
      `consented` is false. */
  function CookiebotReading(w: Option<Cookiebot>): (r: Reading)
    ensures r == Threw <==> w.None? || (w.value.hasResponse && !w.value.consented && w.value.consent.None?)
    ensures r == NotAnswered <==> w.Some? && !w.value.hasResponse
    ensures r.Answered? ==> (r.granted <==> w.value.consented || (w.value.consent.value.marketing && w.value.consent.value.statistics))
  {
    match w
    case None => Threw
    case Some(bot) =>
      if !bot.hasResponse then NotAnswered
      else if bot.consented then Answered(true)
      else
        match bot.consent
        case None => Threw
        case Some(c) => Answered(c.marketing && c.statistics)
  }

  /** The status object built for an answer. */
  function Respond(tracking: string, granted: bool, id: int): (d: Decision)
    ensures d.intervalId == Some(id)
    ensures granted ==> d.consent && !d.cookieless
    ensures !granted ==> d.consent == d.cookieless == (tracking == "hybrid")
  {
    if granted then Decision(Some(id), true, false)
    else Decision(Some(id), tracking == "hybrid", tracking == "hybrid")
  }

  /** One run of the interval callback. */
  datatype Tick = Waiting | Settled(decision: Decision) | Failed

  function TickOfReading(tracking: string, r: Reading, id: int): Tick {
    match r
    case NotAnswered => Waiting
    case Answered(granted) => Settled(Respond(tracking, granted, id))
    case Threw => Failed
  }

  /** The status check the configured provider runs: Cookiehub's on
      `window.cookiehub`, Cookiebot's on `window.Cookiebot`, none for any
      other provider. */
  function ReadingOf(cfg: Config, snap: Snapshot): (r: Reading)
    ensures cfg.provider != "cookiehub" && cfg.provider != "cookiebot" ==> r == NotAnswered
  {
    if cfg.provider == "cookiehub" then CookiehubReading(snap.cookiehub)
    else if cfg.provider == "cookiebot" then CookiebotReading(snap.cookiebot)
    else NotAnswered
  }

  function TickOf(cfg: Config, snap: Snapshot, id: int): (t: Tick)
    ensures t.Settled? ==> t.decision.intervalId == Some(id)
    ensures t.Settled? ==> (t.decision.cookieless ==> t.decision.consent)
    ensures cfg.provider != "cookiehub" && cfg.provider != "cookiebot" ==> t == Waiting
  {
    TickOfReading(cfg.tracking, ReadingOf(cfg, snap), id)
  }

  /** `consented || (consent.marketing && consent.statistics)`, for a
      widget whose answer can be read without throwing. */
  predicate CookiebotGrants(bot: Cookiebot) {
    bot.consented || (bot.consent.Some? && bot.consent.value.marketing && bot.consent.value.statistics)
  }

  /** An answered snapshot settles the tick the same way for both
      providers: consent gives `{interval_id, true, false}`, a refusal
      `consent == cookieless == (tracking == 'hybrid')`. For Cookiebot,
      `consented` alone answers, since the `consent` object is then never
      read. */
  lemma AnsweredSnapshotSettles(cfg: Config, snap: Snapshot, id: int, granted: bool)
    requires
      || (cfg.provider == "cookiehub" && snap.cookiehub == Some(Cookiehub(true, granted)))
      || (cfg.provider == "cookiebot" && snap.cookiebot.Some? && snap.cookiebot.value.hasResponse
          && (snap.cookiebot.value.consented || snap.cookiebot.value.consent.Some?)
          && (granted <==> CookiebotGrants(snap.cookiebot.value)))
    ensures granted ==> TickOf(cfg, snap, id) == Settled(Decision(Some(id), true, false))
    ensures !granted ==>
      TickOf(cfg, snap, id) == Settled(Decision(Some(id), cfg.tracking == "hybrid", cfg.tracking == "hybrid"))
  {
    assert ReadingOf(cfg, snap) == Answered(granted);
  }

  /** The modes that start a poll. */
  predicate Polls(cfg: Config) { cfg.tracking == "normal" || cfg.tracking == "hybrid" }

  /** The settled state of the returned promise. */
  datatype Status = Resolved(decision: Decision) | Rejected | Pending

  /** The promise settles at the first tick that does not wait. */
  function PollFrom(cfg: Config, snaps: seq<Snapshot>, id: int): (s: Status)
    ensures s.Resolved? ==> s.decision.intervalId == Some(id)
    ensures s.Resolved? ==> (s.decision.cookieless ==> s.decision.consent)
  {
    if snaps == [] then Pending
    else
      match TickOf(cfg, snaps[0], id)
      case Waiting => PollFrom(cfg, snaps[1..], id)
      case Settled(d) => Resolved(d)
      case Failed => Rejected
  }

  /** The status `getStatus` settles to, given the snapshots its poll sees. */
  function Resolve(cfg: Config, snaps: seq<Snapshot>, id: int): (s: Status)
    ensures cfg.tracking == "disable" ==> s == Resolved(Decision(None, true, false))
    ensures !Polls(cfg) && cfg.tracking != "disable" ==> s == Pending
    ensures s.Resolved? ==> (s.decision.intervalId.Some? <==> Polls(cfg))
    ensures s.Resolved? && Polls(cfg) ==> s.decision.intervalId == Some(id)
    ensures s.Resolved? ==> (s.decision.cookieless ==> s.decision.consent)
  {
    if cfg.tracking == "disable" then Resolved(Decision(None, true, false))
    else if Polls(cfg) then PollFrom(cfg, snaps, id)
    else Pending
  }

  /** Index of the first tick that does not wait (`|snaps|` if none). */
  function FirstActive(cfg: Config, snaps: seq<Snapshot>, id: int): (k: nat)
    ensures k <= |snaps|
    ensures forall j :: 0 <= j < k ==> TickOf(cfg, snaps[j], id) == Waiting
    ensures k < |snaps| ==> TickOf(cfg, snaps[k], id) != Waiting
  {
    if snaps == [] then 0
    else if TickOf(cfg, snaps[0], id) == Waiting then 1 + FirstActive(cfg, snaps[1..], id)
    else 0
  }

  /** The poll's outcome, stated through the first active tick: unanswered
      ticks are skipped, an answer resolves, an exception rejects. */
  lemma {:induction false} PollFromFirstActive(cfg: Config, snaps: seq<Snapshot>, id: int)
    ensures var k := FirstActive(cfg, snaps, id);
      PollFrom(cfg, snaps, id) ==
        if k == |snaps| then Pending
        else match TickOf(cfg, snaps[k], id)
          case Settled(d) => Resolved(d)
          case _ => Rejected
  {
    if snaps != [] && TickOf(cfg, snaps[0], id) == Waiting {
      PollFromFirstActive(cfg, snaps[1..], id);
      var k := FirstActive(cfg, snaps[1..], id);
      if k < |snaps[1..]| {
        assert snaps[1..][k] == snaps[k + 1];
      }
    }
  }

  /** A poll resolves to `d` exactly when some tick answers with `d` and
      every earlier tick waits. */
  lemma FirstAnswerDecides(cfg: Config, snaps: seq<Snapshot>, id: int, d: Decision)
    requires Polls(cfg)
    ensures Resolve(cfg, snaps, id) == Resolved(d) <==>
      exists k :: 0 <= k < |snaps| && TickOf(cfg, snaps[k], id) == Settled(d)
        && forall j :: 0 <= j < k ==> TickOf(cfg, snaps[j], id) == Waiting
  {
    PollFromFirstActive(cfg, snaps, id);
    var k0 := FirstActive(cfg, snaps, id);
    if Resolve(cfg, snaps, id) == Resolved(d) {
      assert k0 < |snaps| && TickOf(cfg, snaps[k0], id) == Settled(d);
    }
    if exists k :: 0 <= k < |snaps| && TickOf(cfg, snaps[k], id) == Settled(d)
        && forall j :: 0 <= j < k ==> TickOf(cfg, snaps[j], id) == Waiting {
      var k :| 0 <= k < |snaps| && TickOf(cfg, snaps[k], id) == Settled(d)
        && forall j :: 0 <= j < k ==> TickOf(cfg, snaps[j], id) == Waiting;
      assert k0 == k;
    }
  }

  /** The visitor refuses: the first tick that does not wait reads an
      answer, and the answer is no. */
  predicate Refuses(cfg: Config, snaps: seq<Snapshot>, id: int) {
    var k := FirstActive(cfg, snaps, id);
    k < |snaps| && ReadingOf(cfg, snaps[k]) == Answered(false)
  }

  /** A refusal resolves, for either provider and any ticks, to
      `consent == cookieless == (tracking == 'hybrid')`; and a resolved
      poll is a refusal exactly when it is not `{consent: true,
      cookieless: false}`. */
  lemma RefusalDecision(cfg: Config, snaps: seq<Snapshot>, id: int)
    requires Polls(cfg)
    ensures Refuses(cfg, snaps, id) ==>
      Resolve(cfg, snaps, id) == Resolved(Decision(Some(id), cfg.tracking == "hybrid", cfg.tracking == "hybrid"))
    ensures Resolve(cfg, snaps, id).Resolved? ==>
      (Refuses(cfg, snaps, id) <==> Resolve(cfg, snaps, id).decision != Decision(Some(id), true, false))
  {
    PollFromFirstActive(cfg, snaps, id);
  }

  /** Whether some tick throws. */
  predicate SomeTickFails(cfg: Config, snaps: seq<Snapshot>, id: int) {
    exists i :: 0 <= i < |snaps| && TickOf(cfg, snaps[i], id) == Failed
  }

  /** The state of the poll's interval when the snapshots run out. */
  datatype Timer = NoTimer | Running(id: int) | Cleared(id: int)

  /** `getStatus`, run against the given ticks: the promise settles once
      (later `resolve`/`reject` calls have no effect), and the interval is
      cleared by the first tick that throws, even after the promise has
      resolved; nothing else in `getStatus` stops it. */
  method GetStatus(cfg: Config, snaps: seq<Snapshot>, id: int) returns (status: Status, timer: Timer)
    ensures status == Resolve(cfg, snaps, id)
    ensures timer == if !Polls(cfg) then NoTimer
      else if SomeTickFails(cfg, snaps, id) then Cleared(id)
      else Running(id)
  {
    status := Pending;
    timer := NoTimer;
    if cfg.tracking == "disable" {
      status := Resolved(Decision(None, true, false));
    }
    if Polls(cfg) {
      timer := Running(id);
      var i := 0;
      while i < |snaps| && timer == Running(id)
        invariant 0 <= i <= |snaps|
        invariant timer == Running(id) || timer == Cleared(id)
        invariant timer == Running(id) <==> forall j :: 0 <= j < i ==> TickOf(cfg, snaps[j], id) != Failed
        invariant timer == Cleared(id) ==> i > 0 && TickOf(cfg, snaps[i - 1], id) == Failed && status != Pending
        invariant status.Pending? ==> PollFrom(cfg, snaps, id) == PollFrom(cfg, snaps[i..], id)
        invariant !status.Pending? ==> PollFrom(cfg, snaps, id) == status
      {
        var tick := TickOf(cfg, snaps[i], id);
        assert snaps[i..][1..] == snaps[i + 1..];
        match tick {
          case Waiting =>
          case Settled(d) =>
            if status == Pending {
              status := Resolved(d);
            }
          case Failed =>
            timer := Cleared(id);
            if status == Pending {
              status := Rejected;
            }
        }
        i := i + 1;
      }
    }
  }
}
