/** The two-tier session tracker of the browser script: a durable session
    counter in `localStorage` and a tab-scoped session id in
    `sessionStorage`, read and written by `getSessionCount`,
    `getSessionEngagement` and the session-id block of `sessionData`.

    `getSessionCount` is `async` and awaits a second `getStatus`; the
    script does not await it, so the body carries a pending promise under
    `sct` and `_s`, and the counter update runs only after the session
    id has been minted. This model runs the counter step to completion
    first, in the order the statements are written, and takes the
    consent that second `getStatus` settles to as a parameter. */
module Session {
  import opened Values
  import opened Decimal

  const SessionCountKey: string := "session_count"
  const SessionIdKey: string := "session_id"

  /** A Web Storage area: keys to string values. */
  type Store = map<string, string>

  /** `storage.getItem(k)` is truthy: the key is there and its value is
      not the empty string. */
  predicate Present(m: Store, k: string) { k in m && m[k] != "" }

  /** The counter as a number, when it is stored and parses. */
  function CountValue(local: Store): Option<int> {
    if SessionCountKey in local && ParseInt(local[SessionCountKey]).Num?
    then Some(ParseInt(local[SessionCountKey]).n)
    else None
  }

  /** One counter step: the new `localStorage` and the returned count. */
  datatype CountResult = CountResult(local: Store, sct: JsNumber)

  /** `getSessionCount` once its status has settled with `consent`. */
  function CountStep(local: Store, session: Store, consent: bool): (r: CountResult)
    ensures !consent ==> r.local == local && r.sct == Num(1)
    ensures r.local - {SessionCountKey} == local - {SessionCountKey}
    ensures Present(session, SessionIdKey) ==> r.sct == Num(1)
    ensures Present(session, SessionIdKey) && Present(local, SessionCountKey) ==> r.local == local
  {
    if !consent then CountResult(local, Num(1))
    else if !Present(local, SessionCountKey) then CountResult(local[SessionCountKey := "1"], Num(1))
    else if !Present(session, SessionIdKey) then
      var n := Increment(ParseInt(local[SessionCountKey]));
      CountResult(local[SessionCountKey := NumberToString(n)], n)
    else CountResult(local, Num(1))
  }

  /** Whenever the counter is written, the returned count is what a later
      `parseInt` of the stored value gives back. */
  lemma CountStepStoresResult(local: Store, session: Store, consent: bool)
    requires CountStep(local, session, consent).local != local
    ensures var r := CountStep(local, session, consent);
      SessionCountKey in r.local && ParseInt(r.local[SessionCountKey]) == r.sct
  {
    var r := CountStep(local, session, consent);
    ParseIntOfNumberToString(r.sct);
  }

  /** The four cases: a new counter starts at 1, a new tab adds exactly 1
      to a stored count (a stored value that does not parse becomes
      `"NaN"`, as `parseInt(x) + 1` is `NaN`), and otherwise the counter is
      left alone. */
  lemma CountStepCases(local: Store, session: Store, consent: bool)
    ensures var r := CountStep(local, session, consent);
      && (consent && !Present(local, SessionCountKey) ==> r.local == local[SessionCountKey := "1"] && r.sct == Num(1))
      && (consent && Present(local, SessionCountKey) && !Present(session, SessionIdKey) && CountValue(local).Some? ==>
            r.sct == Num(CountValue(local).value + 1) && CountValue(r.local) == Some(CountValue(local).value + 1))
      && (consent && Present(local, SessionCountKey) && !Present(session, SessionIdKey) && CountValue(local).None? ==>
            r.sct == NaN && r.local == local[SessionCountKey := "NaN"])
      && (consent && Present(local, SessionCountKey) && Present(session, SessionIdKey) ==> r.local == local && r.sct == Num(1))
  {
    var r := CountStep(local, session, consent);
    if consent && Present(local, SessionCountKey) && !Present(session, SessionIdKey) && CountValue(local).Some? {
      ParseIntOfNumberToString(r.sct);
    }
  }

  /** The stored counter never decreases, and a counter that did not parse
      never starts parsing except by being created fresh. */
  lemma {:induction false} CountNeverDecreases(local: Store, session: Store, consent: bool)
    ensures var after := CountStep(local, session, consent).local;
      CountValue(local).Some? ==> CountValue(after).Some? && CountValue(after).value >= CountValue(local).value
    ensures var after := CountStep(local, session, consent).local;
      CountValue(local).None? && CountValue(after).Some? ==>
        !Present(local, SessionCountKey) && after == local[SessionCountKey := "1"]
  {
    var r := CountStep(local, session, consent);
    if r.local != local {
      ParseIntOfNumberToString(r.sct);
    }
  }

  /** `getSessionEngagement`: 1 once the tab has a session id. */
  function Engagement(session: Store): (seg: int)
    ensures seg == 0 || seg == 1
    ensures seg == 1 <==> Present(session, SessionIdKey)
  {
    if Present(session, SessionIdKey) then 1 else 0
  }

  /** `getRandomInt(min, max)` for integer bounds: `Date.now()` plus
      `Math.floor(Math.random() * (max - min) + min)`, with the clock and the
      random number as parameters (floating-point rounding not modelled). */
  function RandomInt(now: int, min: int, max: int, random: real): (v: int)
    ensures 0.0 <= random < 1.0 && min < max ==> now + min <= v < now + max
  {
    var x := random * (max - min) as real + min as real;
    assert 0.0 <= random < 1.0 && min < max ==> min as real <= x < max as real by {
      if 0.0 <= random < 1.0 && min < max {
        assert random * (max - min) as real < (max - min) as real;
      }
    }
    now + x.Floor
  }

  const SidMin: int := 100000000
  const SidMax: int := 999999999

  /** The value `setItem` stores for a new session id. */
  function MintedSid(now: int, random: real): string {
    IntToString(RandomInt(now, SidMin, SidMax, random))
  }

  /** The minted id reads back as `Date.now()` plus an integer in
      [100000000, 999999999). */
  lemma MintedSidRange(now: int, random: real)
    requires 0.0 <= random < 1.0
    ensures ParseInt(MintedSid(now, random)).Num?
    ensures now + SidMin <= ParseInt(MintedSid(now, random)).n < now + SidMax
  {
    ParseIntOfIntToString(RandomInt(now, SidMin, SidMax, random));
  }

  /** The object `sessionData` returns. */
  datatype SessionFields = SessionFields(seg: int, sct: JsNumber, sid: string)

  /** Both storage areas. */
  datatype Stores = Stores(local: Store, session: Store)

  function MintStep(session: Store, now: int, random: real): (s: Store)
    ensures Present(session, SessionIdKey) ==> s == session
    ensures Present(s, SessionIdKey)
    ensures s - {SessionIdKey} == session - {SessionIdKey}
  {
    if Present(session, SessionIdKey) then session else session[SessionIdKey := MintedSid(now, random)]
  }

  /** `sessionData()`: count, engagement, then the id block, and the
      returned object. */
  datatype SessionResult = SessionResult(stores: Stores, fields: SessionFields)

  function SessionStep(st: Stores, countConsent: bool, now: int, random: real): (r: SessionResult)
    ensures r.fields.seg == (if Present(st.session, SessionIdKey) then 1 else 0)
    ensures Present(r.stores.session, SessionIdKey) && r.fields.sid == r.stores.session[SessionIdKey]
    ensures Present(st.session, SessionIdKey) ==> r.stores.session == st.session && r.fields.sid == st.session[SessionIdKey]
    ensures Present(st.session, SessionIdKey) && Present(st.local, SessionCountKey) ==> r.stores == st
    ensures !Present(st.session, SessionIdKey) ==> r.fields.sid == MintedSid(now, random)
  {
    var count := CountStep(st.local, st.session, countConsent);
    var seg := Engagement(st.session);
    var session := MintStep(st.session, now, random);
    SessionResult(Stores(count.local, session), SessionFields(seg, count.sct, session[SessionIdKey]))
  }

  /** Inputs of one `sessionData()` call: the counter's consent, the clock
      and the random number. */
  datatype Call = Call(countConsent: bool, now: int, random: real)

  /** The session objects of successive calls in one tab. */
  function Run(st: Stores, calls: seq<Call>): (fs: seq<SessionFields>)
    ensures |fs| == |calls|
    decreases |calls|
  {
    if calls == [] then []
    else
      var r := SessionStep(st, calls[0].countConsent, calls[0].now, calls[0].random);
      [r.fields] + Run(r.stores, calls[1..])
  }

  function FinalStores(st: Stores, calls: seq<Call>): Stores
    decreases |calls|
  {
    if calls == [] then st
    else
      var r := SessionStep(st, calls[0].countConsent, calls[0].now, calls[0].random);
      FinalStores(r.stores, calls[1..])
  }

  /** Within a tab every event carries the same session id, and every
      event after the first has engagement 1 and count 1; after the first
      call the session id is never rewritten, and the counter can only be
      created (at 1, when it is still missing). */
  lemma {:induction false} RunStable(st: Stores, calls: seq<Call>)
    requires calls != []
    ensures var first := SessionStep(st, calls[0].countConsent, calls[0].now, calls[0].random);
      var fs := Run(st, calls);
      && (forall i :: 0 <= i < |fs| ==> fs[i].sid == fs[0].sid)
      && (forall i :: 1 <= i < |fs| ==> fs[i].seg == 1 && fs[i].sct == Num(1))
      && FinalStores(st, calls).session == first.stores.session
      && FinalStores(st, calls).local - {SessionCountKey} == first.stores.local - {SessionCountKey}
      && (Present(first.stores.local, SessionCountKey) ==> FinalStores(st, calls).local == first.stores.local)
      && (calls[0].countConsent && !Present(st.local, SessionCountKey) ==>
            SessionCountKey in FinalStores(st, calls).local && FinalStores(st, calls).local[SessionCountKey] == "1")
  {
    var first := SessionStep(st, calls[0].countConsent, calls[0].now, calls[0].random);
    SettledRun(first.stores, calls[1..]);
  }

  lemma {:induction false} SettledRun(st: Stores, calls: seq<Call>)
    requires Present(st.session, SessionIdKey)
    ensures forall i :: 0 <= i < |Run(st, calls)| ==>
      Run(st, calls)[i] == SessionFields(1, Num(1), st.session[SessionIdKey])
    ensures FinalStores(st, calls).session == st.session
    ensures FinalStores(st, calls).local - {SessionCountKey} == st.local - {SessionCountKey}
    ensures Present(st.local, SessionCountKey) ==> FinalStores(st, calls).local == st.local
    ensures Present(FinalStores(st, calls).local, SessionCountKey) || FinalStores(st, calls).local == st.local
    decreases |calls|
  {
    if calls != [] {
      var r := SessionStep(st, calls[0].countConsent, calls[0].now, calls[0].random);
      SettledRun(r.stores, calls[1..]);
    }
  }

  /** The browser's storage areas, updated in place. */
  class Storage {
    var local: Store
    var session: Store

    constructor (local0: Store, session0: Store)
      ensures local == local0 && session == session0
    {
      local := local0;
      session := session0;
    }

    /** `getSessionCount`, its status settled to `consent`. */
    method SessionCount(consent: bool) returns (sct: JsNumber)
      modifies this`local
      ensures CountResult(local, sct) == CountStep(old(local), session, consent)
    {
      if !consent {
        return Num(1);
      }
      if !Present(local, SessionCountKey) {
        local := local[SessionCountKey := "1"];
        return Num(1);
      }
      if !Present(session, SessionIdKey) {
        sct := Increment(ParseInt(local[SessionCountKey]));
        local := local[SessionCountKey := NumberToString(sct)];
        return sct;
      }
      return Num(1);
    }

    /** `sessionData()`, with the clock and `Math.random()` as parameters. */
    method SessionData(countConsent: bool, now: int, random: real) returns (fields: SessionFields)
      modifies this
      ensures SessionResult(Stores(local, session), fields) ==
        SessionStep(Stores(old(local), old(session)), countConsent, now, random)
    {
      var sct := SessionCount(countConsent);
      var seg := Engagement(session);
      if !Present(session, SessionIdKey) {
        session := session[SessionIdKey := MintedSid(now, random)];
      }
      fields := SessionFields(seg, sct, session[SessionIdKey]);
    }
  }
}
