/** The shared cache of risk reports, and every interleaving of the checks that use it. */
module RiskCache {
  import opened Text
  import opened RiskScore
  import opened Tokens

  /** Five minutes, in nanoseconds. */
  const CACHE_TTL := 300_000_000_000

  /** The report a failed check comes back as: unknown, and of the lowest level. */
  const FAILED := Report(0, Low, false, 0, 0, [], "", true, "risk check failed")

  datatype Cached = Cached(report: Report, at: int)

  function Key(chain: string, addr: string): string {
    chain + ":" + Lower(addr)
  }

  /** The native coin and the well-known stablecoins are not worth a check. */
  predicate ShouldCheck(c: Config, tok: TokenInfo) {
    && tok.address != NATIVE && tok.address != ""
    && !EqualFold(tok.symbol, "USDT") && !EqualFold(tok.symbol, "USDC")
    && !EqualFold(tok.symbol, "DAI") && !EqualFold(tok.symbol, "BUSD")
    && !EqualFold(tok.address, c.stablecoin)
  }

  /** The tokens bought without a check, by address and by symbol in lower case. */
  lemma BoughtUnchecked(c: Config, tok: TokenInfo)
    ensures !ShouldCheck(c, tok) <==>
      || tok.address == "native" || tok.address == "" || Lower(tok.address) == Lower(c.stablecoin)
      || Lower(tok.symbol) == "usdt" || Lower(tok.symbol) == "usdc" || Lower(tok.symbol) == "dai"
      || Lower(tok.symbol) == "busd"
  {
    LoweredStablecoins();
    hide Lower;
  }

  lemma LoweredStablecoins()
    ensures Lower("USDT") == "usdt" && Lower("USDC") == "usdc" && Lower("DAI") == "dai" && Lower("BUSD") == "busd"
  {}

  /** What a look into the cache finds. */
  function Fresh(cache: map<string, Cached>, key: string, now: int): Option<Report> {
    if key in cache && now - cache[key].at < CACHE_TTL then Some(cache[key].report) else None
  }

  /** What one check returns and leaves in the cache when nobody interferes. */
  function Checked(cache: map<string, Cached>, key: string, now: int, answer: Result<Report, string>,
      later: int): (Report, map<string, Cached>) {
    var known := Fresh(cache, key, now);
    if known.Some? then (known.value, cache)
    else if answer.Err? then (FAILED, cache)
    else (answer.value, cache[key := Cached(answer.value, later)])
  }

  class Service {
    var cache: map<string, Cached>

    constructor ()
      ensures cache == map[]
    {
      cache := map[];
    }

    /**
     * One check nobody interferes with: `answer` is the checker's, and `now` and `later` are the two clock
     * readings.
     */
    method Check(chain: string, addr: string, now: int, answer: Result<Report, string>, later: int)
      returns (rep: Report)
      modifies this`cache
      ensures (rep, cache) == Checked(old(cache), Key(chain, addr), now, answer, later)
    {
      var key := Key(chain, addr);
      if key in cache && now - cache[key].at < CACHE_TTL {
        return cache[key].report;
      }
      if answer.Err? {
        return FAILED;
      }
      rep := answer.value;
      cache := cache[key := Cached(rep, later)];
    }
  }

  // ---------------------------------------------------------------- keys

  /**
   * Two chains, one name no longer than the other, can share a key exactly when the longer one begins with the
   * shorter one and a colon, and goes on without capitals.
   */
  lemma SharedKeys(short: string, long: string)
    requires |short| <= |long| && short != long
    ensures (exists a, b :: Key(short, a) == Key(long, b)) <==>
      short + ":" <= long && Lower(long[|short| + 1..]) == long[|short| + 1..]
  {
    if a, b :| Key(short, a) == Key(long, b) {
      KeyStartsWith(short, a, long, b);
    }
    if short + ":" <= long && Lower(long[|short| + 1..]) == long[|short| + 1..] {
      var rest := long[|short| + 1..];
      var a := rest + ":";
      assert Lower(a) == rest + ":";
      assert Key(short, a) == Key(long, "");
    }
  }

  lemma KeyStartsWith(short: string, a: string, long: string, b: string)
    requires |short| <= |long| && short != long && Key(short, a) == Key(long, b)
    ensures short + ":" <= long && ':' in long
    ensures Lower(long[|short| + 1..]) == long[|short| + 1..]
  {
    var k := Key(short, a);
    assert k[..|short|] == short && k[..|long|] == long;
    assert |short| == |long| ==> short == long;
    assert k[|short|] == ':' == long[|short|];
    var rest := long[|short| + 1..];
    forall i | 0 <= i < |rest|
      ensures LowerChar(rest[i]) == rest[i]
    {
      assert rest[i] == k[|short| + 1 + i] == Lower(a)[i] == LowerChar(a[i]);
    }
  }

  /** No configured chain key has a colon, so no two chains share a key. */
  lemma KeysKeepChainsApart(c: string, a: string, d: string, b: string)
    requires ':' !in c && ':' !in d && Key(c, a) == Key(d, b)
    ensures c == d && EqualFold(a, b)
  {
    if c == d {
      assert Lower(a) == Key(c, a)[|c| + 1..];
    } else if |c| <= |d| {
      KeyStartsWith(c, a, d, b);
    } else {
      KeyStartsWith(d, b, c, a);
    }
  }

  // ---------------------------------------------------------------- concurrent checks

  /** A check looks under the lock, fetches without it, and stores under the lock again. */
  datatype Phase = Looking | Fetching | Storing(fetched: Report) | Returned(report: Report, at: int)

  datatype Call = Call(chain: string, addr: string, phase: Phase)

  datatype Entry =
    | Fetched(call: nat, chain: string, addr: string, report: Report)
    | Stored(call: nat, key: string, report: Report, at: int)

  /** The log holds what the checker answered and what was stored when. */
  datatype World = World(now: int, cache: map<string, Cached>, calls: seq<Call>, log: seq<Entry>)

  datatype Event =
    | Begin(chain: string, addr: string)
    | Wait(time: nat)
    | Look(call: nat)
    | Answer(call: nat, answer: Result<Report, string>)
    | Store(call: nat)

  function Init(now: int): World {
    World(now, map[], [], [])
  }

  function Moved(w: World, i: nat, p: Phase): World
    requires i < |w.calls|
  {
    w.(calls := w.calls[i := w.calls[i].(phase := p)])
  }

  predicate Possible(w: World, e: Event) {
    match e
    case Begin(_, _) => true
    case Wait(_) => true
    case Look(i) => i < |w.calls| && w.calls[i].phase.Looking?
    case Answer(i, _) => i < |w.calls| && w.calls[i].phase.Fetching?
    case Store(i) => i < |w.calls| && w.calls[i].phase.Storing?
  }

  /** One step. An event that is not possible changes nothing. */
  function Step(w: World, e: Event): World {
    if !Possible(w, e) then w else
    match e
    case Begin(chain, addr) => w.(calls := w.calls + [Call(chain, addr, Looking)])
    case Wait(d) => w.(now := w.now + d)
    case Look(i) =>
      var known := Fresh(w.cache, Key(w.calls[i].chain, w.calls[i].addr), w.now);
      Moved(w, i, if known.Some? then Returned(known.value, w.now) else Fetching)
    case Answer(i, Err(_)) => Moved(w, i, Returned(FAILED, w.now))
    case Answer(i, Ok(r)) => Moved(w, i, Storing(r)).(log := w.log + [Fetched(i, w.calls[i].chain, w.calls[i].addr, r)])
    case Store(i) =>
      var (key, r) := (Key(w.calls[i].chain, w.calls[i].addr), w.calls[i].phase.fetched);
      Moved(w, i, Returned(r, w.now)).(
        cache := w.cache[key := Cached(r, w.now)], log := w.log + [Stored(i, key, r, w.now)])
  }

  function Run(w: World, events: seq<Event>): World {
    if events == [] then w else Step(Run(w, events[..|events| - 1]), events[|events| - 1])
  }

  /** A run is its events, one after the other. */
  lemma RunIsStepwise(w: World, events: seq<Event>, e: Event)
    ensures Run(w, []) == w && Run(w, events + [e]) == Step(Run(w, events), e)
  {
    assert (events + [e])[..|events|] == events;
    hide Step;
  }

  /** The last thing stored under a key, read off the log. */
  function LastStored(log: seq<Entry>, key: string): Option<Cached> {
    if log == [] then None
    else
      var e := log[|log| - 1];
      if e.Stored? && e.key == key then Some(Cached(e.report, e.at)) else LastStored(log[..|log| - 1], key)
  }

  ghost predicate CacheIsLastStored(w: World) {
    forall key :: (if key in w.cache then Some(w.cache[key]) else None) == LastStored(w.log, key)
  }

  /** What the log says happened to the calls it names. */
  predicate EntryHolds(w: World, e: Entry) {
    && e.call < |w.calls|
    && var c := w.calls[e.call];
    match e
    case Fetched(_, chain, addr, _) => c.chain == chain && c.addr == addr
    case Stored(_, key, r, at) =>
      key == Key(c.chain, c.addr) && at <= w.now && Fetched(e.call, c.chain, c.addr, r) in w.log
  }

  /** The checker answered this very call so. */
  predicate JustFetched(w: World, i: nat, r: Report)
    requires i < |w.calls|
  {
    Fetched(i, w.calls[i].chain, w.calls[i].addr, r) in w.log
  }

  /**
   * The checker answered call `j` so, under the same key, and that was stored less than the time to live before
   * `t`.
   */
  predicate StoredRecently(w: World, i: nat, j: nat, s: int, r: Report, t: int)
    requires i < |w.calls| && j < |w.calls|
  {
    var (c, d) := (w.calls[i], w.calls[j]);
    && Key(c.chain, c.addr) == Key(d.chain, d.addr)
    && Fetched(j, d.chain, d.addr, r) in w.log
    && Stored(j, Key(d.chain, d.addr), r, s) in w.log
    && s <= t < s + CACHE_TTL
  }

  ghost predicate Justified(w: World, i: nat, r: Report, t: int)
    requires i < |w.calls|
  {
    || r == FAILED
    || JustFetched(w, i, r)
    || exists j: nat, s :: j < |w.calls| && StoredRecently(w, i, j, s, r, t)
  }

  ghost predicate CallHolds(w: World, i: nat)
    requires i < |w.calls|
  {
    match w.calls[i].phase
    case Storing(r) => JustFetched(w, i, r)
    case Returned(r, t) => t <= w.now && Justified(w, i, r, t)
    case _ => true
  }

  ghost predicate Inv(w: World) {
    && CacheIsLastStored(w)
    && (forall e :: e in w.log ==> EntryHolds(w, e))
    && forall i :: 0 <= i < |w.calls| ==> CallHolds(w, i)
  }

  lemma InitHolds(now: int)
    ensures Inv(Init(now))
  {}

  /** The steps of a check taken in a row are the check. */
  lemma StepsAreCheck(w: World, chain: string, addr: string, answer: Result<Report, string>, d: nat)
    ensures var i := |w.calls|;
      var v := Step(Step(Step(Step(Step(w, Begin(chain, addr)), Look(i)), Wait(d)), Answer(i, answer)), Store(i));
      && |v.calls| == i + 1 && v.calls[i].phase.Returned?
      && (v.calls[i].phase.report, v.cache) == Checked(w.cache, Key(chain, addr), w.now, answer, w.now + d)
  {
    hide Key;
    var i := |w.calls|;
    var v := Step(Step(w, Begin(chain, addr)), Look(i));
    assert v.calls[i].phase.Fetching? <==> Fresh(w.cache, Key(chain, addr), w.now).None?;
  }

  /** Later worlds: calls keep their arguments, the log only grows, the clock never goes back. */
  predicate Later(w: World, v: World) {
    && w.now <= v.now && w.log <= v.log && |w.calls| <= |v.calls|
    && forall i :: 0 <= i < |w.calls| ==> v.calls[i].chain == w.calls[i].chain && v.calls[i].addr == w.calls[i].addr
  }

  lemma StepIsLater(w: World, e: Event)
    ensures Later(w, Step(w, e))
  {}

  lemma InLonger(log: seq<Entry>, more: seq<Entry>, e: Entry)
    requires log <= more && e in log
    ensures e in more
  {
    var k :| 0 <= k < |log| && log[k] == e;
    assert more[k] == e;
  }

  lemma EntryStays(w: World, v: World, e: Entry)
    requires Later(w, v) && EntryHolds(w, e)
    ensures EntryHolds(v, e)
  {
    if e.Stored? {
      var c := w.calls[e.call];
      InLonger(w.log, v.log, Fetched(e.call, c.chain, c.addr, e.report));
    }
  }

  lemma JustifiedStays(w: World, v: World, i: nat, r: Report, t: int)
    requires Later(w, v) && i < |w.calls| && Justified(w, i, r, t)
    ensures Justified(v, i, r, t)
  {
    if JustFetched(w, i, r) {
      InLonger(w.log, v.log, Fetched(i, w.calls[i].chain, w.calls[i].addr, r));
    } else if r != FAILED {
      var j: nat, s :| j < |w.calls| && StoredRecently(w, i, j, s, r, t);
      var d := w.calls[j];
      hide Key;
      InLonger(w.log, v.log, Fetched(j, d.chain, d.addr, r));
      InLonger(w.log, v.log, Stored(j, Key(d.chain, d.addr), r, s));
      assert StoredRecently(v, i, j, s, r, t);
    }
  }

  lemma CallStays(w: World, v: World, i: nat)
    requires Later(w, v) && i < |w.calls| && v.calls[i] == w.calls[i] && CallHolds(w, i)
    ensures CallHolds(v, i)
  {
    hide Justified;
    match w.calls[i].phase {
      case Storing(r) => InLonger(w.log, v.log, Fetched(i, w.calls[i].chain, w.calls[i].addr, r));
      case Returned(r, t) => JustifiedStays(w, v, i, r, t);
      case _ =>
    }
  }

  /** What is found in the cache was stored there less than the time to live ago. */
  lemma {:induction false} LastStoredIsLogged(log: seq<Entry>, key: string) returns (i: nat)
    requires LastStored(log, key).Some?
    ensures i < |log| && log[i].Stored? && log[i].key == key
    ensures LastStored(log, key).value == Cached(log[i].report, log[i].at)
  {
    i := |log| - 1;
    if !(log[i].Stored? && log[i].key == key) {
      i := LastStoredIsLogged(log[..i], key);
    }
  }

  lemma LookHolds(w: World, i: nat)
    requires Inv(w) && Possible(w, Look(i))
    ensures CallHolds(Step(w, Look(i)), i)
  {
    var c := w.calls[i];
    var (key, v) := (Key(c.chain, c.addr), Step(w, Look(i)));
    var known := Fresh(w.cache, key, w.now);
    if known.Some? {
      assert LastStored(w.log, key) == Some(w.cache[key]);
      var k := LastStoredIsLogged(w.log, key);
      var e := w.log[k];
      assert e in w.log && EntryHolds(w, e);
      assert StoredRecently(w, i, e.call, e.at, known.value, w.now);
      hide Key, Fresh, StoredRecently;
      assert Justified(w, i, known.value, w.now);
      JustifiedStays(w, v, i, known.value, w.now);
    }
  }

  lemma StepCallHolds(w: World, e: Event, i: nat)
    requires Inv(w) && i < |Step(w, e).calls|
    ensures CallHolds(Step(w, e), i)
  {
    var v := Step(w, e);
    StepIsLater(w, e);
    if i < |w.calls| && v.calls[i] == w.calls[i] {
      CallStays(w, v, i);
    } else if e.Look? {
      LookHolds(w, i);
    } else if e.Store? {
      InLonger(w.log, v.log, Fetched(i, w.calls[i].chain, w.calls[i].addr, w.calls[i].phase.fetched));
    }
  }

  lemma StepEntryHolds(w: World, e: Event, x: Entry)
    requires Inv(w) && x in Step(w, e).log
    ensures EntryHolds(Step(w, e), x)
  {
    var v := Step(w, e);
    StepIsLater(w, e);
    if x in w.log {
      EntryStays(w, v, x);
    } else if e.Store? {
      assert CallHolds(w, e.call);
      InLonger(w.log, v.log, Fetched(e.call, w.calls[e.call].chain, w.calls[e.call].addr, x.report));
    }
  }

  lemma StepCacheHolds(w: World, e: Event)
    requires CacheIsLastStored(w)
    ensures CacheIsLastStored(Step(w, e))
  {
    var v := Step(w, e);
    if v.log != w.log {
      assert v.log[..|v.log| - 1] == w.log;
    }
    hide Key;
    forall key
      ensures (if key in v.cache then Some(v.cache[key]) else None) == LastStored(v.log, key)
    {
      assert (if key in w.cache then Some(w.cache[key]) else None) == LastStored(w.log, key);
    }
  }

  lemma StepHolds(w: World, e: Event)
    requires Inv(w)
    ensures Inv(Step(w, e))
  {
    StepCacheHolds(w, e);
    var v := Step(w, e);
    forall x | x in v.log
      ensures EntryHolds(v, x)
    {
      StepEntryHolds(w, e, x);
    }
    forall i | 0 <= i < |v.calls|
      ensures CallHolds(v, i)
    {
      StepCallHolds(w, e, i);
    }
    hide *;
    assert Inv(v);
  }

  lemma {:induction false} RunHolds(now: int, events: seq<Event>)
    ensures Inv(Run(Init(now), events))
  {
    if events == [] {
      InitHolds(now);
    } else {
      RunHolds(now, events[..|events| - 1]);
      StepHolds(Run(Init(now), events[..|events| - 1]), events[|events| - 1]);
    }
  }

  /**
   * The checker's answer to call `i` itself, or its answer to some call for the same chain and the same address up
   * to case that was stored less than five minutes before `t`, or the news that the check failed.
   */
  ghost predicate AnswerFor(log: seq<Entry>, i: nat, chain: string, addr: string, r: Report, t: int) {
    || r == FAILED
    || Fetched(i, chain, addr, r) in log
    || exists j: nat, s, a :: s <= t < s + 300_000_000_000 && EqualFold(a, addr)
         && Fetched(j, chain, a, r) in log && Stored(j, Key(chain, a), r, s) in log
  }

  lemma ReturnedIsAnswer(w: World, i: nat)
    requires Inv(w) && i < |w.calls| && w.calls[i].phase.Returned? && forall c :: c in w.calls ==> ':' !in c.chain
    ensures var c := w.calls[i];
      AnswerFor(w.log, i, c.chain, c.addr, c.phase.report, c.phase.at)
  {
    var (c, r, t) := (w.calls[i], w.calls[i].phase.report, w.calls[i].phase.at);
    assert CallHolds(w, i);
    if r != FAILED && !JustFetched(w, i, r) {
      var j: nat, s :| j < |w.calls| && StoredRecently(w, i, j, s, r, t);
      var d := w.calls[j];
      assert d in w.calls;
      KeysKeepChainsApart(c.chain, c.addr, d.chain, d.addr);
      hide Key, EqualFold, JustFetched, CallHolds;
      assert Fetched(j, c.chain, d.addr, r) in w.log;
    }
  }

  /** Over every run: every report that comes back is an answer for the chain and the address it was asked for. */
  lemma ReportsAreAnswers(now: int, events: seq<Event>, i: nat)
    requires var w := Run(Init(now), events);
      i < |w.calls| && w.calls[i].phase.Returned? && forall c :: c in w.calls ==> ':' !in c.chain
    ensures var w := Run(Init(now), events);
      var c := w.calls[i];
      AnswerFor(w.log, i, c.chain, c.addr, c.phase.report, c.phase.at)
  {
    RunHolds(now, events);
    ReturnedIsAnswer(Run(Init(now), events), i);
  }

  /** Over every run: a look finds something exactly when the last store under its key is fresh, and finds that. */
  lemma LooksSeeLastStored(now: int, events: seq<Event>, i: nat)
    requires Possible(Run(Init(now), events), Look(i))
    ensures var w := Run(Init(now), events);
      var (last, v) := (LastStored(w.log, Key(w.calls[i].chain, w.calls[i].addr)), Step(w, Look(i)));
      v.calls[i].phase ==
        if last.Some? && w.now - last.value.at < 300_000_000_000 then Returned(last.value.report, w.now) else Fetching
  {
    RunHolds(now, events);
    var w := Run(Init(now), events);
    assert CacheIsLastStored(w);
  }

  /** Nothing but an answer is ever stored: a failed check leaves no trace. */
  lemma FailuresAreNotStored(now: int, events: seq<Event>, key: string)
    requires key in Run(Init(now), events).cache
    ensures var w := Run(Init(now), events);
      exists j: nat :: j < |w.calls| && Key(w.calls[j].chain, w.calls[j].addr) == key
        && Fetched(j, w.calls[j].chain, w.calls[j].addr, w.cache[key].report) in w.log
  {
    RunHolds(now, events);
    var w := Run(Init(now), events);
    assert LastStored(w.log, key) == Some(w.cache[key]);
    var k := LastStoredIsLogged(w.log, key);
    assert EntryHolds(w, w.log[k]);
  }
}
