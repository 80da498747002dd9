/** TTL cache with failure grace over tool checks (src/finharness/agent_tool_availability.py). */
module AvailabilityCache {
  import opened Common

  datatype Entry = Entry(available: bool, reason: Option<string>, checkedAt: real)

  /** What check_fn() would answer now. */
  datatype Probe = Probe(available: bool, reason: Option<string>)

  datatype Call = Call(tool: string, now: real, ttl: real, grace: real, probe: Probe)

  datatype Source = Unregistered | Cached | Fresh | Degraded

  datatype Answer = Answer(available: bool, source: Source, reason: Option<string>)

  type Cache = map<string, Entry>

  /** Seconds as Python prints them with no decimals: nearest, halves to even. */
  function Rounded(x: real): nat
    requires x >= 0.0
  {
    var low := x.Floor;
    var rest := x - low as real;
    if rest < 0.5 || (rest == 0.5 && low % 2 == 0) then low else low + 1
  }

  /** It is the nearest whole number; of two equally near, the even one. */
  lemma RoundedNearest(x: real)
    requires x >= 0.0
    ensures -0.5 <= x - Rounded(x) as real <= 0.5
    ensures x - x.Floor as real == 0.5 ==> Rounded(x) % 2 == 0
  {
  }

  function Seconds(x: real): string {
    if x < 0.0 then "-" + Decimal(Rounded(-x)) else Decimal(Rounded(x))
  }

  function UnregisteredReason(tool: string): string {
    "tool not registered: " + tool
  }

  function DegradedReason(elapsed: real, reason: Option<string>): string {
    "degraded_available: last success " + Seconds(elapsed) + "s ago; current check: "
    + (if reason.Some? then reason.value else "None")
  }

  /** How one call of check_tool_availability_cached is decided; `registered` is the tool registry. */
  function Ruling(cache: Cache, registered: set<string>, call: Call): (r: Source)
    ensures r.Cached? || r.Degraded? ==> call.tool in cache
  {
    if call.tool !in registered then Unregistered
    else if call.tool in cache && call.now - cache[call.tool].checkedAt < call.ttl then Cached
    else if !call.probe.available && call.tool in cache && cache[call.tool].available
            && call.now - cache[call.tool].checkedAt < call.grace then Degraded
    else Fresh
  }

  function AnswerTo(cache: Cache, registered: set<string>, call: Call): Answer {
    match Ruling(cache, registered, call)
    case Unregistered => Answer(false, Unregistered, Some(UnregisteredReason(call.tool)))
    case Cached => Answer(cache[call.tool].available, Cached, cache[call.tool].reason)
    case Degraded =>
      Answer(true, Degraded, Some(DegradedReason(call.now - cache[call.tool].checkedAt, call.probe.reason)))
    case Fresh => Answer(call.probe.available, Fresh, call.probe.reason)
  }

  /** Only a fresh answer is stored. */
  function CacheWith(cache: Cache, registered: set<string>, call: Call): Cache {
    if Ruling(cache, registered, call).Fresh?
    then cache[call.tool := Entry(call.probe.available, call.probe.reason, call.now)]
    else cache
  }

  class ToolAvailability {
    var cache: Cache
    const registered: set<string>

    constructor (registered: set<string>)
      ensures cache == map[] && this.registered == registered
    {
      this.cache, this.registered := map[], registered;
    }

    method CheckToolAvailabilityCached(call: Call) returns (answer: Answer)
      modifies this
      ensures answer == AnswerTo(old(cache), registered, call)
      ensures cache == CacheWith(old(cache), registered, call)
    {
      if call.tool !in registered {
        return Answer(false, Unregistered, Some(UnregisteredReason(call.tool)));
      }
      if call.tool in cache {
        var cached := cache[call.tool];
        if call.now - cached.checkedAt < call.ttl {
          return Answer(cached.available, Cached, cached.reason);
        }
        if !call.probe.available && cached.available && call.now - cached.checkedAt < call.grace {
          return Answer(true, Degraded, Some(DegradedReason(call.now - cached.checkedAt, call.probe.reason)));
        }
      }
      cache := cache[call.tool := Entry(call.probe.available, call.probe.reason, call.now)];
      return Answer(call.probe.available, Fresh, call.probe.reason);
    }

    method ClearAvailabilityCache()
      modifies this
      ensures cache == map[]
    {
      cache := map[];
    }
  }

  // -------------------------------------------------------- call histories

  /** A call, or clearing the whole cache. */
  datatype Event = Called(call: Call) | Cleared

  function CacheAfter(registered: set<string>, events: seq<Event>): Cache {
    if events == [] then map[]
    else
      var cache := CacheAfter(registered, events[..|events| - 1]);
      match events[|events| - 1]
      case Cleared => map[]
      case Called(call) => CacheWith(cache, registered, call)
  }

  /** The answer to the call at position i. */
  function AnswerAt(registered: set<string>, events: seq<Event>, i: nat): Answer
    requires i < |events| && events[i].Called?
  {
    AnswerTo(CacheAfter(registered, events[..i]), registered, events[i].call)
  }

  /** The call at position i really ran check_fn(). */
  predicate Probed(registered: set<string>, events: seq<Event>, i: nat)
    requires i < |events|
  {
    events[i].Called? && Ruling(CacheAfter(registered, events[..i]), registered, events[i].call) in {Fresh, Degraded}
  }

  /** A real check of `tool` at position i with the given outcome. */
  predicate RealCheck(registered: set<string>, events: seq<Event>, i: nat, tool: string, available: bool)
    requires i < |events|
  {
    Probed(registered, events, i) && events[i].call.tool == tool && events[i].call.probe.available == available
  }

  /** `i` is the latest real success for the tool. */
  predicate LatestSuccess(registered: set<string>, events: seq<Event>, i: int, tool: string) {
    && 0 <= i < |events|
    && RealCheck(registered, events, i, tool, true)
    && forall j :: i < j < |events| ==> !RealCheck(registered, events, j, tool, true)
  }

  /** An entry records what a call's check found, when it found it. */
  predicate Records(e: Entry, call: Call) {
    e == Entry(call.probe.available, call.probe.reason, call.now)
  }

  /** A cache entry stands for a real check: the latest success, or a failure, at its own time. */
  ghost predicate EntryJustified(registered: set<string>, events: seq<Event>, tool: string, e: Entry) {
    if e.available then
      exists i :: LatestSuccess(registered, events, i, tool) && Records(e, events[i].call)
    else
      exists i :: 0 <= i < |events| && RealCheck(registered, events, i, tool, false) && Records(e, events[i].call)
  }

  lemma PrefixSame(registered: set<string>, events: seq<Event>, n: nat, i: nat)
    requires i < n <= |events|
    ensures events[..n][..i] == events[..i]
    ensures Probed(registered, events[..n], i) == Probed(registered, events, i)
  {
    assert events[..n][..i] == events[..i];
  }

  /** A call that makes no real success, and leaves the entry alone, leaves it justified. */
  lemma KeptEntryJustified(registered: set<string>, events: seq<Event>, tool: string, e: Entry)
    requires events != [] && EntryJustified(registered, events[..|events| - 1], tool, e)
    requires !RealCheck(registered, events, |events| - 1, tool, true)
    ensures EntryJustified(registered, events, tool, e)
  {
    var n := |events| - 1;
    var init := events[..n];
    forall i | 0 <= i < n ensures Probed(registered, init, i) == Probed(registered, events, i) {
      PrefixSame(registered, events, n, i);
    }
    if e.available {
      var i :| LatestSuccess(registered, init, i, tool) && Records(e, init[i].call);
      forall j | i < j < n ensures !RealCheck(registered, events, j, tool, true) {
        assert !RealCheck(registered, init, j, tool, true);
      }
      assert LatestSuccess(registered, events, i, tool);
    } else {
      var i :| 0 <= i < |init| && RealCheck(registered, init, i, tool, false) && Records(e, init[i].call);
      assert RealCheck(registered, events, i, tool, false);
    }
  }

  /** A new entry records the real check this call made. */
  lemma NewEntryJustified(registered: set<string>, events: seq<Event>, tool: string)
    requires events != [] && tool in CacheAfter(registered, events)
    requires var before := CacheAfter(registered, events[..|events| - 1]);
      tool !in before || CacheAfter(registered, events)[tool] != before[tool]
        || RealCheck(registered, events, |events| - 1, tool, true)
    ensures tool in registered && EntryJustified(registered, events, tool, CacheAfter(registered, events)[tool])
  {
    var n, e := |events| - 1, CacheAfter(registered, events)[tool];
    assert RealCheck(registered, events, n, tool, e.available) && Records(e, events[n].call);
    assert e.available ==> LatestSuccess(registered, events, n, tool);
  }

  /** A cached "available" is always stamped with the most recent real success. */
  lemma {:induction false} CacheIsJustified(registered: set<string>, events: seq<Event>, tool: string)
    ensures tool in CacheAfter(registered, events) ==>
      tool in registered && EntryJustified(registered, events, tool, CacheAfter(registered, events)[tool])
  {
    if events != [] && tool in CacheAfter(registered, events) {
      var n := |events| - 1;
      var before, after := CacheAfter(registered, events[..n]), CacheAfter(registered, events);
      CacheIsJustified(registered, events[..n], tool);
      if tool in before && after[tool] == before[tool] && !RealCheck(registered, events, n, tool, true) {
        KeptEntryJustified(registered, events, tool, before[tool]);
      } else {
        NewEntryJustified(registered, events, tool);
      }
    }
  }

  function MaxReal(a: real, b: real): real {
    if a <= b then b else a
  }

  /** What an "available" answer gives as its reason, resting on an earlier success. */
  predicate ReasonFromSuccess(answer: Answer, call: Call, success: Call) {
    || (answer.source.Cached? && answer.reason == success.probe.reason)
    || (answer.source.Degraded? && answer.reason == Some(DegradedReason(call.now - success.now, call.probe.reason)))
  }

  /** A real success in this very call, or the most recent one less than max(TTL, grace) ago. */
  ghost predicate Earned(registered: set<string>, events: seq<Event>, i: nat)
    requires i < |events| && events[i].Called?
  {
    var call := events[i].call;
    || (RealCheck(registered, events, i, call.tool, true) && AnswerAt(registered, events, i).reason == call.probe.reason)
    || exists j :: LatestSuccess(registered, events[..i], j, call.tool)
         && call.now - events[j].call.now < MaxReal(call.ttl, call.grace)
         && ReasonFromSuccess(AnswerAt(registered, events, i), call, events[j].call)
  }

  /** A real failure in this very call, or one less than TTL ago. */
  ghost predicate Failed(registered: set<string>, events: seq<Event>, i: nat)
    requires i < |events| && events[i].Called?
  {
    var call := events[i].call;
    || (RealCheck(registered, events, i, call.tool, false) && AnswerAt(registered, events, i).reason == call.probe.reason)
    || exists j :: 0 <= j < i && RealCheck(registered, events, j, call.tool, false)
         && call.now - events[j].call.now < call.ttl
         && AnswerAt(registered, events, i).reason == events[j].call.probe.reason
  }

  /** Over any history: an "available" answer means a real success in this very call or less than
      max(TTL, grace) ago, and it is the most recent success, so repeated failures never extend it;
      an "unavailable" answer for a registered tool means a real failure now or less than TTL ago.
      Each answer's reason is that of the check it rests on, or tells how long ago that was. */
  lemma AnswersAreEarned(registered: set<string>, events: seq<Event>, i: nat)
    requires i < |events| && events[i].Called?
    ensures AnswerAt(registered, events, i).available ==> Earned(registered, events, i)
    ensures !AnswerAt(registered, events, i).available && events[i].call.tool in registered ==> Failed(registered, events, i)
  {
    if AnswerAt(registered, events, i).available {
      AvailableIsEarned(registered, events, i);
    } else if events[i].call.tool in registered {
      UnavailableIsEarned(registered, events, i);
    }
  }

  lemma AvailableIsEarned(registered: set<string>, events: seq<Event>, i: nat)
    requires i < |events| && events[i].Called? && AnswerAt(registered, events, i).available
    ensures Earned(registered, events, i)
  {
    var call, past := events[i].call, events[..i];
    CacheIsJustified(registered, past, call.tool);
    if !AnswerAt(registered, events, i).source.Fresh? {
      var j := RecordedSuccess(registered, events, i, call.tool, CacheAfter(registered, past)[call.tool]);
    }
  }

  lemma UnavailableIsEarned(registered: set<string>, events: seq<Event>, i: nat)
    requires i < |events| && events[i].Called?
    requires !AnswerAt(registered, events, i).available && events[i].call.tool in registered
    ensures Failed(registered, events, i)
  {
    var call, past := events[i].call, events[..i];
    CacheIsJustified(registered, past, call.tool);
    if AnswerAt(registered, events, i).source.Cached? {
      var j := RecordedFailure(registered, events, i, call.tool, CacheAfter(registered, past)[call.tool]);
    }
  }

  lemma RecordedSuccess(registered: set<string>, events: seq<Event>, i: nat, tool: string, e: Entry) returns (j: nat)
    requires i <= |events| && e.available && EntryJustified(registered, events[..i], tool, e)
    ensures j < i && LatestSuccess(registered, events[..i], j, tool) && Records(e, events[j].call)
  {
    var past := events[..i];
    j :| LatestSuccess(registered, past, j, tool) && Records(e, past[j].call);
    assert events[j] == past[j];
  }

  lemma RecordedFailure(registered: set<string>, events: seq<Event>, i: nat, tool: string, e: Entry) returns (j: nat)
    requires i <= |events| && !e.available && EntryJustified(registered, events[..i], tool, e)
    ensures j < i && RealCheck(registered, events, j, tool, false) && Records(e, events[j].call)
  {
    var past := events[..i];
    j :| 0 <= j < |past| && RealCheck(registered, past, j, tool, false) && Records(e, past[j].call);
    PrefixSame(registered, events, i, j);
  }

  /** Once max(TTL, grace) has passed since the last real success the tool
      can only be called available after a new one. */
  lemma GraceRunsOut(registered: set<string>, events: seq<Event>, s: nat, i: nat)
    requires s < i < |events| && events[i].Called?
    requires var call := events[i].call;
      && LatestSuccess(registered, events[..i], s, call.tool)
      && call.now - events[s].call.now >= MaxReal(call.ttl, call.grace)
    ensures AnswerAt(registered, events, i).available <==> RealCheck(registered, events, i, events[i].call.tool, true)
  {
    AnswersAreEarned(registered, events, i);
  }

  // --------------------------------------------------- what callers are owed

  /** The check at `j` was run and its outcome stored; since then nothing was cleared, and no later check
      of the tool was stored. */
  predicate LastStored(registered: set<string>, events: seq<Event>, j: int, tool: string) {
    && 0 <= j < |events| && Stores(registered, events, j, tool)
    && forall k :: j < k < |events| ==> !events[k].Cleared? && !Stores(registered, events, k, tool)
  }

  predicate Stores(registered: set<string>, events: seq<Event>, k: nat, tool: string)
    requires k < |events|
  {
    events[k].Called? && events[k].call.tool == tool && AnswerAt(registered, events, k).source.Fresh?
  }

  lemma StoresPrefix(registered: set<string>, events: seq<Event>, n: nat, k: nat, tool: string)
    requires k < n <= |events|
    ensures Stores(registered, events[..n], k, tool) == Stores(registered, events, k, tool)
  {
    assert events[..n][..k] == events[..k];
  }

  lemma LastStoredSnoc(registered: set<string>, events: seq<Event>, j: int, tool: string)
    requires events != []
    ensures var n := |events| - 1;
      LastStored(registered, events, j, tool) <==>
        if j == n then Stores(registered, events, n, tool)
        else LastStored(registered, events[..n], j, tool) && !events[n].Cleared? && !Stores(registered, events, n, tool)
  {
    var n := |events| - 1;
    forall k | 0 <= k < n
      ensures events[..n][k] == events[k]
      ensures Stores(registered, events[..n], k, tool) == Stores(registered, events, k, tool)
    {
      StoresPrefix(registered, events, n, k, tool);
    }
  }

  lemma CacheStep(registered: set<string>, events: seq<Event>, tool: string)
    requires events != []
    ensures var n := |events| - 1; var before := CacheAfter(registered, events[..n]); var after := CacheAfter(registered, events);
      && (Stores(registered, events, n, tool) ==> tool in after && Records(after[tool], events[n].call))
      && (events[n].Cleared? ==> tool !in after)
      && (!events[n].Cleared? && !Stores(registered, events, n, tool) ==>
            (tool in after <==> tool in before) && (tool in after ==> after[tool] == before[tool]))
  {
  }

  /** The cache holds, for each tool, exactly the last check stored since it was last cleared. */
  lemma {:induction false} CacheIsLastStored(registered: set<string>, events: seq<Event>, tool: string)
    ensures forall j :: LastStored(registered, events, j, tool) ==>
      tool in CacheAfter(registered, events) && Records(CacheAfter(registered, events)[tool], events[j].call)
    ensures tool in CacheAfter(registered, events) ==> exists j :: LastStored(registered, events, j, tool)
  {
    if events != [] {
      var n := |events| - 1;
      CacheIsLastStored(registered, events[..n], tool);
      CacheStep(registered, events, tool);
      forall j ensures LastStored(registered, events, j, tool) <==>
        if j == n then Stores(registered, events, n, tool)
        else LastStored(registered, events[..n], j, tool) && !events[n].Cleared? && !Stores(registered, events, n, tool)
      {
        LastStoredSnoc(registered, events, j, tool);
      }
      if Stores(registered, events, n, tool) {
        assert LastStored(registered, events, n, tool);
      } else if tool in CacheAfter(registered, events) {
        var j :| LastStored(registered, events[..n], j, tool);
        assert LastStored(registered, events, j, tool);
      }
    }
  }

  /** Within TTL of the last stored check no check is run: its answer and reason are repeated, and the
      cache stays as it is. */
  lemma AnswerIsRepeated(registered: set<string>, events: seq<Event>, j: nat, i: nat)
    requires j < i < |events| && events[j].Called? && events[i].Called? && events[i].call.tool in registered
    ensures var earlier := events[j].call; var call := events[i].call;
      LastStored(registered, events[..i], j, call.tool) && call.now - earlier.now < call.ttl ==>
        && !Probed(registered, events, i)
        && AnswerAt(registered, events, i) == Answer(earlier.probe.available, Cached, earlier.probe.reason)
        && CacheAfter(registered, events[..i + 1]) == CacheAfter(registered, events[..i])
  {
    CacheIsLastStored(registered, events[..i], events[i].call.tool);
    assert events[..i][j] == events[j];
    assert events[..i + 1][..i] == events[..i];
  }

  /** Past TTL, or with nothing stored, a check is run; a success is answered and stored as it is. */
  lemma SuccessIsStored(registered: set<string>, events: seq<Event>, i: nat)
    requires i < |events| && events[i].Called? && events[i].call.tool in registered
    ensures var call := events[i].call;
      (forall j :: LastStored(registered, events[..i], j, call.tool) ==> call.now - events[..i][j].call.now >= call.ttl) ==>
        && Probed(registered, events, i)
        && (call.probe.available ==>
              && AnswerAt(registered, events, i) == Answer(true, Fresh, call.probe.reason)
              && CacheAfter(registered, events[..i + 1])
                   == CacheAfter(registered, events[..i])[call.tool := Entry(true, call.probe.reason, call.now)])
  {
    CacheIsLastStored(registered, events[..i], events[i].call.tool);
    assert events[..i + 1][..i] == events[..i];
  }

  /** Since `s` nothing was cleared and the tool was never answered unavailable. */
  predicate Unbroken(registered: set<string>, events: seq<Event>, s: int, tool: string) {
    forall k :: s < k < |events| && 0 <= k ==>
      !events[k].Cleared? && (events[k].Called? && events[k].call.tool == tool ==> AnswerAt(registered, events, k).available)
  }

  /** The latest real success is then still what is stored. */
  lemma SuccessStaysStored(registered: set<string>, events: seq<Event>, s: int, tool: string)
    requires LatestSuccess(registered, events, s, tool) && Unbroken(registered, events, s, tool)
    ensures LastStored(registered, events, s, tool)
  {
    forall k | s < k < |events| ensures !Stores(registered, events, k, tool) {
      assert !RealCheck(registered, events, k, tool, true);
    }
  }

  /** A tool that was really available less than max(TTL, grace) ago is owed the answer "available", as
      long as nothing was cleared and it was not answered unavailable in between; and a failed check
      inside the grace changes nothing in the cache and is told with the age of that success. */
  lemma GraceIsOwed(registered: set<string>, events: seq<Event>, s: nat, i: nat)
    requires s < i < |events| && events[s].Called? && events[i].Called? && events[i].call.tool in registered
    ensures var call := events[i].call; var past := events[..i];
      LatestSuccess(registered, past, s, call.tool) && Unbroken(registered, past, s, call.tool) ==>
        && (call.now - events[s].call.now < MaxReal(call.ttl, call.grace) ==> AnswerAt(registered, events, i).available)
        && (call.now - events[s].call.now < call.grace && !call.probe.available ==>
              CacheAfter(registered, events[..i + 1]) == CacheAfter(registered, past))
        && (call.ttl <= call.now - events[s].call.now < call.grace && !call.probe.available ==>
              AnswerAt(registered, events, i).reason == Some(
                "degraded_available: last success " + Seconds(call.now - events[s].call.now) + "s ago; current check: "
                + (if call.probe.reason.Some? then call.probe.reason.value else "None")))
  {
    var call, past := events[i].call, events[..i];
    assert past[s] == events[s] && events[..i + 1][..i] == past;
    if LatestSuccess(registered, past, s, call.tool) && Unbroken(registered, past, s, call.tool) {
      SuccessStaysStored(registered, past, s, call.tool);
      CacheIsLastStored(registered, past, call.tool);
    }
  }

  /** A tool that is not registered is refused by name, and nothing is stored. */
  lemma UnregisteredIsRefused(registered: set<string>, events: seq<Event>, i: nat)
    requires i < |events| && events[i].Called? && events[i].call.tool !in registered
    ensures AnswerAt(registered, events, i)
      == Answer(false, Unregistered, Some("tool not registered: " + events[i].call.tool))
    ensures CacheAfter(registered, events[..i + 1]) == CacheAfter(registered, events[..i])
  {
    assert events[..i + 1][..i] == events[..i];
  }
}
