/** `window.serverside.request` of the browser script: wait for the
    consent status, build the browser fields, and, only when `consent` is
    true, post `{...browserData, ...sessionData(), ...eventData}` to the
    relay endpoint; then clear the poll's interval if the status names one.
    The post is recorded rather than sent, and its JSON encoding is taken
    to carry the fields unchanged. */
module EventClient {
  import opened Values
  import opened Decimal
  import opened Dict
  import opened ConsentGate
  import opened Session

  /** `${window.serverside.endpoint}/track`. */
  const TrackUrl: string := "/wp-json/ksd-server-side-analytics/v1/track"

  /** What the page tells the script: `navigator.language`, the screen
      size, and the document's URL, title and domain. */
  datatype Env = Env(language: string, width: int, height: int, url: string, title: string, domain: string)

  const BrowserKeys: seq<string> := ["v", "ul", "sr", "dl", "dt", "dh", "ds", "cookieless", "consent"]

  /** `browserData`. */
  function BrowserData(env: Env, d: Decision): (b: seq<(string, Value)>)
    ensures DistinctKeys(b) && Keys(b) == BrowserKeys
    ensures Get(b, "consent") == Some(Bool(d.consent)) && Get(b, "cookieless") == Some(Bool(d.cookieless))
    ensures Get(b, "v") == Some(Int(2)) && Get(b, "ds") == Some(Str("web"))
    ensures Get(b, "sr") == Some(Str(IntToString(env.width) + "x" + IntToString(env.height)))
  {
    var b := [("v", Int(2)), ("ul", Str(env.language)),
      ("sr", Str(IntToString(env.width) + "x" + IntToString(env.height))),
      ("dl", Str(env.url)), ("dt", Str(env.title)), ("dh", Str(env.domain)), ("ds", Str("web")),
      ("cookieless", Bool(d.cookieless)), ("consent", Bool(d.consent))];
    LiteralFacts(b, BrowserKeys);
    GetAt(b, 0);
    GetAt(b, 2);
    GetAt(b, 6);
    GetAt(b, 7);
    GetAt(b, 8);
    b
  }

  /** The page fields of `browserData`: `ul` is `navigator.language`, `dl`
      `document.URL`, `dt` `document.title` and `dh` `document.domain`. */
  lemma BrowserDataPageFields(env: Env, d: Decision)
    ensures var b := BrowserData(env, d);
      && Get(b, "ul") == Some(Str(env.language)) && Get(b, "dl") == Some(Str(env.url))
      && Get(b, "dt") == Some(Str(env.title)) && Get(b, "dh") == Some(Str(env.domain))
  {
    var b := BrowserData(env, d);
    GetAt(b, 1);
    GetAt(b, 3);
    GetAt(b, 4);
    GetAt(b, 5);
  }

  /** A JavaScript number as JSON writes it: NaN becomes `null`. */
  function JsonNumber(x: JsNumber): (v: Value)
    ensures x.Num? <==> v.Int?
    ensures x.Num? ==> v == Int(x.n)
  {
    match x
    case Num(n) => Int(n)
    case NaN => Null
  }

  const SessionKeys: seq<string> := ["seg", "sct", "_s", "sid"]

  /** The object `sessionData()` returns: `seg`, `sct`, `_s` (the same
      value as `sct`), then `sid`. */
  function SessionObject(f: SessionFields): (s: seq<(string, Value)>)
    ensures DistinctKeys(s) && Keys(s) == SessionKeys
    ensures Get(s, "sct") == Get(s, "_s") == Some(JsonNumber(f.sct))
    ensures Get(s, "seg") == Some(Int(f.seg)) && Get(s, "sid") == Some(Str(f.sid))
  {
    var s := [("seg", Int(f.seg)), ("sct", JsonNumber(f.sct)), ("_s", JsonNumber(f.sct)), ("sid", Str(f.sid))];
    LiteralFacts(s, SessionKeys);
    GetAt(s, 0);
    GetAt(s, 1);
    GetAt(s, 2);
    GetAt(s, 3);
    s
  }

  /** `{...browser, ...session, ...event}`. */
  function Payload(browser: seq<(string, Value)>, session: seq<(string, Value)>, event: seq<(string, Value)>): (p: seq<(string, Value)>)
    ensures DistinctKeys(p)
  {
    Merge(Merge(Merge([], browser), session), event)
  }

  /** Precedence: event fields override session fields, which override
      browser fields; every key of any part is in the payload. */
  lemma PayloadPrecedence(browser: seq<(string, Value)>, session: seq<(string, Value)>, event: seq<(string, Value)>, k: string)
    requires DistinctKeys(browser) && DistinctKeys(session) && DistinctKeys(event)
    ensures Get(Payload(browser, session, event), k) ==
      if k in Keys(event) then Get(event, k)
      else if k in Keys(session) then Get(session, k)
      else Get(browser, k)
  {
    GetMerge([], browser, k);
    GetMerge(Merge([], browser), session, k);
    GetMerge(Merge(Merge([], browser), session), event, k);
  }

  /** The keys of a spread of two disjoint objects and an event: the
      first object's keys, then the second's, then the event's own new
      keys, each in its order. */
  lemma SpreadKeys(b: seq<(string, Value)>, s: seq<(string, Value)>, e: seq<(string, Value)>)
    requires DistinctKeys(b) && DistinctKeys(s) && DistinctKeys(e)
    requires forall k :: k in Keys(s) ==> k !in Keys(b)
    ensures Keys(Payload(b, s, e)) == Keys(b) + Keys(s) + NewKeys(Keys(b) + Keys(s), Keys(e))
  {
    MergeDisjoint([], b);
    assert [] + b == b;
    forall i | 0 <= i < |s| ensures s[i].0 !in Keys(b) {
      KeysAt(s, i);
    }
    MergeDisjoint(b, s);
    KeysAppend(b, s);
    KeysMerge(b + s, e);
  }

  /** A recorded `fetch` POST. */
  datatype Post = Post(url: string, body: seq<(string, Value)>)

  /** Whether a settled status leads to a post. */
  predicate Sends(status: Status) { status.Resolved? && status.decision.consent }

  /** The body of the post for a decision, the session fields and the event. */
  function Body(env: Env, d: Decision, f: SessionFields, event: seq<(string, Value)>): seq<(string, Value)> {
    Payload(BrowserData(env, d), SessionObject(f), event)
  }

  /** A status that never settles leaves its poll running; a rejected one
      has already cleared it. */
  lemma PendingKeepsPolling(cfg: Config, snaps: seq<Snapshot>, id: int)
    requires Polls(cfg)
    ensures Resolve(cfg, snaps, id) == Pending ==> !SomeTickFails(cfg, snaps, id)
    ensures Resolve(cfg, snaps, id) == Rejected ==> SomeTickFails(cfg, snaps, id)
  {
    PollFromFirstActive(cfg, snaps, id);
    var k := FirstActive(cfg, snaps, id);
    if Resolve(cfg, snaps, id) == Rejected {
      assert TickOf(cfg, snaps[k], id) == Failed;
    }
  }

  /** The page's script: its storage, the intervals still running, and
      the posts made. */
  class Client {
    const storage: Storage
    var intervals: set<int>
    var posts: seq<Post>

    constructor (storage: Storage)
      ensures this.storage == storage && intervals == {} && posts == []
    {
      this.storage := storage;
      intervals := {};
      posts := [];
    }

    /** `window.serverside.request(eventData)`, with the status settled
        against `snaps`, `id` the interval id the browser hands out, and
        `countConsent` the consent the session counter's own status
        settles to. */
    method Request(cfg: Config, snaps: seq<Snapshot>, id: int, countConsent: bool, env: Env,
                   event: seq<(string, Value)>, now: int, random: real) returns (status: Status)
      requires id !in intervals
      modifies this, storage
      ensures status == Resolve(cfg, snaps, id)
      ensures Sends(status) ==>
        var r := SessionStep(Stores(old(storage.local), old(storage.session)), countConsent, now, random);
        && posts == old(posts) + [Post(TrackUrl, Body(env, status.decision, r.fields, event))]
        && Stores(storage.local, storage.session) == r.stores
      ensures !Sends(status) ==>
        posts == old(posts) && storage.local == old(storage.local) && storage.session == old(storage.session)
      ensures intervals == old(intervals) + (if Polls(cfg) && status.Pending? then {id} else {})
    {
      var timer;
      status, timer := GetStatus(cfg, snaps, id);
      if Sends(status) {
        Send(status.decision, countConsent, env, event, now, random);
      }
      Settle(cfg, snaps, id, status, timer);
    }

    /** The interval the poll started (it is running unless a tick threw),
        cleared by `request` when the status names it. */
    method Settle(cfg: Config, snaps: seq<Snapshot>, id: int, status: Status, timer: Timer)
      requires id !in intervals
      requires status == Resolve(cfg, snaps, id)
      requires timer == if !Polls(cfg) then NoTimer else if SomeTickFails(cfg, snaps, id) then Cleared(id) else Running(id)
      modifies this`intervals
      ensures intervals == old(intervals) + (if Polls(cfg) && status.Pending? then {id} else {})
    {
      if Polls(cfg) {
        PendingKeepsPolling(cfg, snaps, id);
      }
      if timer == Running(id) {
        intervals := intervals + {id};
      }
      if status.Resolved? && status.decision.intervalId.Some? {
        intervals := intervals - {status.decision.intervalId.value};
      }
    }

    /** The `fetch` of a consented request: `sessionData()` runs as the
        body is built. */
    method Send(d: Decision, countConsent: bool, env: Env, event: seq<(string, Value)>, now: int, random: real)
      modifies this`posts, storage
      ensures var r := SessionStep(Stores(old(storage.local), old(storage.session)), countConsent, now, random);
        && posts == old(posts) + [Post(TrackUrl, Body(env, d, r.fields, event))]
        && Stores(storage.local, storage.session) == r.stores
    {
      var fields := storage.SessionData(countConsent, now, random);
      posts := posts + [Post(TrackUrl, Body(env, d, fields, event))];
    }
  }
}
