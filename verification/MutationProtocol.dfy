/** Many browser contexts writing through one shared registry (frontend/api.js, frontend/actions.js).

    Each context is a program counter between two awaits. The exclusive Web Lock makes every
    read-modify-write of the registry one step. Any context may stop at any point. */
module MutationProtocol {
  import opened Common
  import opened MutationRegistry

  // ------------------------------------------------------ server answers

  /** What GET /identity/browser-mutation-binding answers at the moment. `exactShape` says that the
      body has exactly the expected keys, no capital authority and no execution permission. */
  datatype BindingReport =
    | Unreachable
    | Refused(code: Option<string>)
    | Report(binding: Binding, exactShape: bool, serverTime: Option<int>, echoed: Option<string>)

  /** A report of the exact shape, with a valid binding the server still held and named in its header. */
  predicate Trustworthy(report: BindingReport)
    requires report.Report?
  {
    && report.exactShape && ValidBinding(report.binding)
    && report.serverTime.Some? && report.serverTime.value < report.binding.expiresAt.value
    && report.echoed == Some(report.binding.bindingId)
  }

  function ResolveBinding(report: BindingReport, now: int): (r: Result<Binding, Reason>)
    ensures r.Ok? <==> report.Report? && Trustworthy(report) && Unexpired(report.binding, now)
    ensures r.Ok? ==> r.value == report.binding
    ensures r == Err(CurrentBindingExpired) <==>
      || report == Refused(Some("browser_mutation_binding_expired"))
      || (report.Report? && Trustworthy(report) && !Unexpired(report.binding, now))
    ensures r.Err? ==> r.error in {CurrentBindingExpired, CurrentBindingUnavailable}
  {
    match report
    case Unreachable => Err(CurrentBindingUnavailable)
    case Refused(code) =>
      Err(if code == Some("browser_mutation_binding_expired") then CurrentBindingExpired else CurrentBindingUnavailable)
    case Report(binding, exactShape, serverTime, echoed) =>
      if !exactShape || !ValidBinding(binding) || serverTime.None?
         || serverTime.value >= binding.expiresAt.value || echoed != Some(binding.bindingId) then
        Err(CurrentBindingUnavailable)
      else if now >= binding.expiresAt.value then Err(CurrentBindingExpired)
      else Ok(binding)
  }

  datatype Response = Response(
    status: nat,
    code: Option<string>,
    receiptHeader: Option<string>,
    bindingHeader: Option<string>,
    executionAllowedFalse: bool)

  const RETAINED_CODES := {
    "mutation_outcome_ambiguous", "idempotent_response_too_large",
    "invalid_idempotency_contract", "idempotency_key_reused_for_different_request"
  }

  predicate IsOk(r: Response) {
    200 <= r.status <= 299
  }

  predicate ShouldRetain(r: Response) {
    if r.code.Some? && r.code.value in RETAINED_CODES then true
    else if r.receiptHeader.Some? && r.receiptHeader.value != "" then false
    else r.status in {408, 409, 425, 429} || r.status >= 500
  }

  /** An answer after which the code may clear an attempt: accepted, or terminal. */
  predicate Settles(r: Response, a: Attempt) {
    r.bindingHeader == Some(a.binding.bindingId) && (IsOk(r) || !ShouldRetain(r))
  }

  // --------------------------------------------------------------- state

  type Context = nat

  datatype Cause = Acknowledgement | TerminalAnswer

  datatype Phase =
    | Idle
    | Resolving(request: Request)
    | Bound(request: Request, current: Binding)
    | Ready(send: Sending)
    | Awaiting(attempt: Attempt)
    | Accepted(attempt: Attempt)
    | Clearing(attempt: Attempt, cause: Cause)
    | ClearBound(attempt: Attempt, cause: Cause, current: Binding)

  /** A keyed request on its way, with the identity it was begun under. */
  datatype Sending = Sending(sender: Context, attempt: Attempt, current: Binding, beganAt: int, joined: bool)

  datatype Reply = Reply(key: string, response: Response)

  datatype State = State(
    now: int,
    report: BindingReport,
    stored: Stored,
    phases: map<Context, Phase>,
    // what has happened so far; no step of the protocol reads these
    reported: set<(Context, Binding)>,
    minted: map<string, Attempt>,
    removed: set<string>,
    acknowledged: set<string>,
    sent: set<Sending>,
    received: set<Reply>,
    // the server
    executed: map<string, Request>,
    replies: set<Reply>)

  function PhaseOf(s: State, c: Context): Phase {
    if c in s.phases then s.phases[c] else Idle
  }

  function Goto(s: State, c: Context, p: Phase): State {
    s.(phases := s.phases[c := p])
  }

  function Init(now: int, report: BindingReport): State {
    State(now, report, Absent, map[], {}, map[], {}, {}, {}, {}, map[], {})
  }

  // --------------------------------------------------------------- steps

  /** A context's own progress between two awaits. */
  datatype Move = Submit(request: Request) | Resolve | Send | LoseResponse | Acknowledge | ResolveForClear | Crash

  datatype Action =
    | Tick(now: int)
    | IdentityChange(report: BindingReport)
    | Proceed(c: Context, move: Move)
    | LockBegin(c: Context, suffix: string, access: Access)
    | LockClear(c: Context, access: Access)
    | Serve(sending: Sending, execute: bool, response: Response)
    | Receive(c: Context, reply: Reply)

  /** `cockpit:` followed by a UUID, or by base-36 time and random text. */
  function NewKey(suffix: string): string {
    "cockpit:" + suffix
  }

  predicate KeySuffix(suffix: string) {
    |suffix| <= 120 && forall i :: 0 <= i < |suffix| ==> IsKeyChar(suffix[i])
  }

  lemma NewKeyValid(suffix: string)
    requires KeySuffix(suffix)
    ensures ValidKey(NewKey(suffix))
  {
    assert forall i :: 0 <= i < 8 ==> IsKeyChar("cockpit:"[i]);
  }

  function StepLockBegin(s: State, c: Context, suffix: string, access: Access): State {
    var p := PhaseOf(s, c);
    var key := NewKey(suffix);
    if !p.Bound? || !KeySuffix(suffix) || key in s.minted then s
    else
      var after := Begin(s.stored, p.request, p.current, key, s.now, access);
      if after.result.Err? then Goto(s, c, Idle)
      else
        var a := after.result.value;
        var joined := a.key in s.minted;
        Goto(s.(stored := after.stored, minted := s.minted[a.key := a]), c,
             Ready(Sending(c, a, p.current, s.now, joined)))
  }

  function StepServe(s: State, m: Sending, execute: bool, response: Response): State {
    var runs := execute && m.attempt.key !in s.executed;
    var executed := if runs then s.executed[m.attempt.key := m.attempt.request] else s.executed;
    if m !in s.sent || (IsOk(response) && m.attempt.key !in executed) then s
    else s.(executed := executed, replies := s.replies + {Reply(m.attempt.key, response)})
  }

  function StepReceive(s: State, c: Context, reply: Reply): State {
    var p := PhaseOf(s, c);
    if !p.Awaiting? || reply !in s.replies || reply.key != p.attempt.key then s
    else
      var r := reply.response;
      var next :=
        if r.bindingHeader != Some(p.attempt.binding.bindingId) then Idle
        else if !IsOk(r) then (if ShouldRetain(r) then Idle else Clearing(p.attempt, TerminalAnswer))
        else if r.executionAllowedFalse then Accepted(p.attempt)
        else Idle;
      Goto(s.(received := s.received + {reply}), c, next)
  }

  /** Where a context goes next; an unchanged phase means the move is not enabled. */
  function NextPhase(s: State, p: Phase, move: Move): Phase {
    match move
    case Submit(request) => if p.Idle? && SupportedVerb(request.verb) then Resolving(request) else p
    case Resolve =>
      var current := ResolveBinding(s.report, s.now);
      if !p.Resolving? then p
      else if current.Ok? then Bound(p.request, current.value)
      else Idle
    case Send => if p.Ready? then Awaiting(p.send.attempt) else p
    case LoseResponse => if p.Awaiting? then Idle else p
    case Acknowledge => if p.Accepted? then Clearing(p.attempt, Acknowledgement) else p
    case ResolveForClear =>
      var current := ResolveBinding(s.report, s.now);
      if !p.Clearing? then p
      else if current.Ok? && RequireSameBinding(p.attempt.binding, current.value, s.now).Ok? then
        ClearBound(p.attempt, p.cause, current.value)
      else Idle
    case Crash => Idle
  }

  function StepProceed(s: State, c: Context, move: Move): State {
    var p := PhaseOf(s, c);
    var q := NextPhase(s, p, move);
    var reported :=
      if (move.Resolve? && p.Resolving? && q.Bound?) || (move.ResolveForClear? && p.Clearing? && q.ClearBound?)
      then {(c, q.current)} else {};
    var sent := if move.Send? && p.Ready? then {p.send} else {};
    s.(phases := s.phases[c := q], reported := s.reported + reported, sent := s.sent + sent)
  }

  function StepLockClear(s: State, c: Context, access: Access): State {
    var p := PhaseOf(s, c);
    if !p.ClearBound? then s
    else
      var after := Clear(s.stored, p.attempt, access);
      if after.result.Err? then Goto(s, c, Idle)
      else
        var key := p.attempt.key;
        Goto(s.(stored := after.stored,
                removed := s.removed + {key},
                acknowledged := if p.cause.Acknowledgement? then s.acknowledged + {key} else s.acknowledged),
             c, Idle)
  }

  /** A step that is not enabled leaves the state alone. */
  function Apply(s: State, action: Action): State {
    match action
    case Tick(now) => s.(now := now)
    case IdentityChange(report) => s.(report := report)
    case Proceed(c, move) => StepProceed(s, c, move)
    case LockBegin(c, suffix, access) => StepLockBegin(s, c, suffix, access)
    case LockClear(c, access) => StepLockClear(s, c, access)
    case Serve(m, execute, response) => StepServe(s, m, execute, response)
    case Receive(c, reply) => StepReceive(s, c, reply)
  }

  function Run(s: State, actions: seq<Action>): State {
    if actions == [] then s else Apply(Run(s, actions[..|actions| - 1]), actions[|actions| - 1])
  }

  // ----------------------------------------------------------- invariant

  /** `a` is the one attempt ever stored under its key. */
  predicate Known(s: State, a: Attempt) {
    a.key in s.minted && s.minted[a.key] == a
  }

  /** An accepted or terminal answer bearing the attempt's binding has been received. */
  ghost predicate Settled(s: State, a: Attempt) {
    exists r :: r in s.received && r.key == a.key && Settles(r.response, a)
  }

  /** An accepted answer: OK, bearing the attempt's binding, with a body that allows no execution. */
  predicate Confirms(r: Response, a: Attempt) {
    200 <= r.status <= 299 && r.bindingHeader == Some(a.binding.bindingId) && r.executionAllowedFalse
  }

  ghost predicate Confirmed(s: State, a: Attempt) {
    exists r :: r in s.received && r.key == a.key && Confirms(r.response, a)
  }

  predicate RegistryInv(s: State) {
    && Canonical(s.stored)
    && (forall a :: a in Attempts(s.stored) ==> Known(s, a) && a.key !in s.removed)
    && (forall k :: k in s.minted ==> s.minted[k].key == k && (k in s.removed || s.minted[k] in Attempts(s.stored)))
    && s.removed <= s.minted.Keys
  }

  /** A fresh attempt stores the current binding; a joined one must match it and be unexpired. */
  predicate BegunProperly(s: State, m: Sending) {
    && (m.sender, m.current) in s.reported
    && SameIdentity(m.attempt.binding, m.current)
    && (m.joined ==> Unexpired(m.attempt.binding, m.beganAt))
  }

  ghost predicate PhaseInv(s: State, c: Context, p: Phase) {
    match p
    case Idle => true
    case Resolving(request) => SupportedVerb(request.verb)
    case Bound(request, current) => SupportedVerb(request.verb) && ValidBinding(current) && (c, current) in s.reported
    case Ready(m) => m.sender == c && Known(s, m.attempt) && BegunProperly(s, m)
    case Awaiting(a) => Known(s, a)
    case Accepted(a) => Known(s, a) && Settled(s, a) && Confirmed(s, a) && a.key in s.executed
    case Clearing(a, cause) =>
      Known(s, a) && Settled(s, a) && (cause.Acknowledgement? ==> Confirmed(s, a) && a.key in s.executed)
    case ClearBound(a, cause, current) =>
      && Known(s, a) && Settled(s, a) && (cause.Acknowledgement? ==> Confirmed(s, a) && a.key in s.executed)
      && (c, current) in s.reported && SameIdentity(a.binding, current)
  }

  ghost predicate ServerInv(s: State) {
    && (forall m :: m in s.sent ==> Known(s, m.attempt) && BegunProperly(s, m))
    && (forall k :: k in s.executed ==> k in s.minted && s.minted[k].request == s.executed[k])
    && (forall r :: r in s.replies && IsOk(r.response) ==> r.key in s.executed)
  }

  ghost predicate HistoryInv(s: State) {
    && (forall k :: k in s.removed ==> k in s.minted && Settled(s, s.minted[k]))
    && (forall k :: k in s.acknowledged ==> k in s.minted && Confirmed(s, s.minted[k]))
    && s.acknowledged <= s.removed
    && s.acknowledged <= s.executed.Keys
  }

  ghost predicate Inv(s: State) {
    && RegistryInv(s)
    && (forall c :: c in s.phases ==> PhaseInv(s, c, s.phases[c]))
    && ServerInv(s)
    && HistoryInv(s)
  }

  /** Nothing recorded is ever forgotten or changed. */
  ghost predicate Grows(s: State, t: State) {
    && s.minted.Keys <= t.minted.Keys
    && (forall k :: k in s.minted ==> t.minted[k] == s.minted[k])
    && s.reported <= t.reported
    && s.removed <= t.removed
    && s.received <= t.received
    && s.executed.Keys <= t.executed.Keys
    && (forall k :: k in s.executed ==> t.executed[k] == s.executed[k])
  }

  /** A phase justified by the past stays justified as the past grows. */
  lemma PhaseInvMonotone(s: State, t: State, c: Context, p: Phase)
    requires Grows(s, t) && PhaseInv(s, c, p)
    ensures PhaseInv(t, c, p)
  {
    if p.Accepted? || p.Clearing? || p.ClearBound? {
      assert Settled(t, p.attempt);
      assert Confirmed(s, p.attempt) ==> Confirmed(t, p.attempt);
    }
  }

  lemma OthersKeepPhase(s: State, t: State, c: Context, p: Phase)
    requires forall d :: d in s.phases ==> PhaseInv(s, d, s.phases[d])
    requires Grows(s, t)
    requires t.phases == s.phases[c := p] && PhaseInv(t, c, p)
    ensures forall d :: d in t.phases ==> PhaseInv(t, d, t.phases[d])
  {
    forall d | d in t.phases ensures PhaseInv(t, d, t.phases[d]) {
      if d != c {
        PhaseInvMonotone(s, t, d, s.phases[d]);
      }
    }
  }

  /** An invariant of the past that no step can undo. */
  lemma SettledGrows(s: State, t: State)
    requires HistoryInv(s) && Grows(s, t)
    ensures forall k :: k in s.removed ==> k in t.minted && Settled(t, t.minted[k])
    ensures forall k :: k in s.acknowledged ==> k in t.minted && Confirmed(t, t.minted[k])
  {
    forall k | k in s.removed ensures k in t.minted && Settled(t, t.minted[k]) {
      assert Settled(s, s.minted[k]);
    }
    forall k | k in s.acknowledged ensures k in t.minted && Confirmed(t, t.minted[k]) {
      assert Confirmed(s, s.minted[k]);
    }
  }

  predicate CanBegin(s: State, c: Context, suffix: string) {
    PhaseOf(s, c).Bound? && KeySuffix(suffix) && NewKey(suffix) !in s.minted
  }

  /** Either nothing is minted, or exactly the fresh key is, for a request with no stored attempt. */
  lemma LockBeginEffect(s: State, c: Context, suffix: string, access: Access)
    requires RegistryInv(s) && PhaseInv(s, c, PhaseOf(s, c)) && CanBegin(s, c, suffix)
    ensures var t := StepLockBegin(s, c, suffix, access); var p := PhaseOf(s, c);
      || (t.stored == s.stored && t.minted == s.minted)
      || (&& Canonical(t.stored)
          && t.minted == s.minted[NewKey(suffix) := Attempt(p.request, NewKey(suffix), Some(s.now), p.current)]
          && Attempts(t.stored) == Attempts(s.stored) + [t.minted[NewKey(suffix)]]
          && forall a :: a in Attempts(s.stored) ==> a.request != p.request)
    ensures var t := StepLockBegin(s, c, suffix, access);
      Grows(s, t) && PhaseInv(t, c, t.phases[c])
  {
    var p := PhaseOf(s, c);
    NewKeyValid(suffix);
    if a :| a in Attempts(s.stored) && a.request == p.request {
      BeginJoins(s.stored, a, p.current, NewKey(suffix), s.now, access);
    } else {
      BeginMints(s.stored, p.request, p.current, NewKey(suffix), s.now, access);
    }
  }

  lemma LockBeginKeepsRegistry(s: State, c: Context, suffix: string, access: Access)
    requires RegistryInv(s) && PhaseInv(s, c, PhaseOf(s, c)) && CanBegin(s, c, suffix)
    ensures RegistryInv(StepLockBegin(s, c, suffix, access))
  {
    LockBeginEffect(s, c, suffix, access);
  }

  /** Steps that do not touch the network keep what is said about it. */
  lemma ServerFramed(s: State, t: State)
    requires ServerInv(s) && Grows(s, t)
    requires t.sent == s.sent && t.executed == s.executed && t.replies == s.replies
    ensures ServerInv(t)
  {
  }

  lemma LockBeginKeepsInv(s: State, c: Context, suffix: string, access: Access)
    requires Inv(s)
    ensures Inv(StepLockBegin(s, c, suffix, access))
    ensures Grows(s, StepLockBegin(s, c, suffix, access))
  {
    if CanBegin(s, c, suffix) {
      var t := StepLockBegin(s, c, suffix, access);
      assert PhaseInv(s, c, PhaseOf(s, c));
      LockBeginEffect(s, c, suffix, access);
      LockBeginKeepsRegistry(s, c, suffix, access);
      SettledGrows(s, t);
      LocalStepKeepsInv(s, t, c);
    }
  }

  /** A step of one context that touches neither the network nor another context. */
  lemma LocalStepKeepsInv(s: State, t: State, c: Context)
    requires Inv(s) && Grows(s, t) && RegistryInv(t) && HistoryInv(t)
    requires t.sent == s.sent && t.executed == s.executed && t.replies == s.replies
    requires c in t.phases && t.phases == s.phases[c := t.phases[c]] && PhaseInv(t, c, t.phases[c])
    ensures Inv(t)
  {
    ServerFramed(s, t);
    OthersKeepPhase(s, t, c, t.phases[c]);
  }

  lemma LockClearKeepsRegistry(s: State, c: Context, access: Access)
    requires RegistryInv(s) && PhaseOf(s, c).ClearBound? && PhaseInv(s, c, PhaseOf(s, c))
    ensures RegistryInv(StepLockClear(s, c, access)) && Grows(s, StepLockClear(s, c, access))
  {
    ClearedRegistry(s, PhaseOf(s, c).attempt, access);
  }

  lemma LockClearKeepsHistory(s: State, c: Context, access: Access)
    requires HistoryInv(s) && PhaseOf(s, c).ClearBound? && PhaseInv(s, c, PhaseOf(s, c))
    requires Grows(s, StepLockClear(s, c, access))
    ensures HistoryInv(StepLockClear(s, c, access))
  {
    var a, t := PhaseOf(s, c).attempt, StepLockClear(s, c, access);
    SettledGrows(s, t);
    PhaseInvMonotone(s, t, c, PhaseOf(s, c));
  }

  lemma LockClearKeepsInv(s: State, c: Context, access: Access)
    requires Inv(s)
    ensures Inv(StepLockClear(s, c, access))
    ensures Grows(s, StepLockClear(s, c, access))
  {
    if PhaseOf(s, c).ClearBound? {
      var t := StepLockClear(s, c, access);
      assert PhaseInv(s, c, PhaseOf(s, c));
      LockClearKeepsRegistry(s, c, access);
      LockClearKeepsHistory(s, c, access);
      LocalStepKeepsInv(s, t, c);
    }
  }

  /** In a reachable state a key names one attempt, so clearing it leaves every other one stored. */
  lemma ClearedRegistry(s: State, a: Attempt, access: Access)
    requires RegistryInv(s) && Known(s, a)
    ensures var after := Clear(s.stored, a, access);
      && (after.result.Ok? <==> access.Full?)
      && Canonical(after.stored)
      && (!access.Full? ==> after.stored == s.stored)
      && (access.Full? ==> forall x :: x in Attempts(after.stored) <==> x in Attempts(s.stored) && x != a)
  {
    var before := Attempts(s.stored);
    if i :| 0 <= i < |before| && before[i].key == a.key {
      assert before[i] in before && before[i] == a;
      ClearRemovesExactlyOne(s.stored, a, access, i);
      WellFormedWithoutOne(before, i);
    } else {
      ClearOfAbsentIsNoop(s.stored, a, access);
    }
  }

  /** Steps that do not touch the registry keep what is said about it. */
  lemma RegistryFramed(s: State, t: State)
    requires RegistryInv(s) && HistoryInv(s) && Grows(s, t)
    requires t.stored == s.stored && t.minted == s.minted && t.removed == s.removed && t.acknowledged == s.acknowledged
    ensures RegistryInv(t) && HistoryInv(t)
  {
    SettledGrows(s, t);
  }

  lemma ProceedJustified(s: State, c: Context, move: Move)
    requires PhaseInv(s, c, PhaseOf(s, c))
    ensures var t := StepProceed(s, c, move); Grows(s, t) && PhaseInv(t, c, t.phases[c])
  {
    PhaseInvMonotone(s, StepProceed(s, c, move), c, PhaseOf(s, c));
  }

  lemma ProceedKeepsServerInv(s: State, c: Context, move: Move)
    requires ServerInv(s) && PhaseInv(s, c, PhaseOf(s, c))
    ensures ServerInv(StepProceed(s, c, move))
  {
  }

  lemma ProceedKeepsInv(s: State, c: Context, move: Move)
    requires Inv(s)
    ensures Inv(StepProceed(s, c, move)) && Grows(s, StepProceed(s, c, move))
  {
    var t := StepProceed(s, c, move);
    assert PhaseInv(s, c, PhaseOf(s, c));
    ProceedJustified(s, c, move);
    ProceedKeepsServerInv(s, c, move);
    RegistryFramed(s, t);
    OthersKeepPhase(s, t, c, t.phases[c]);
  }

  lemma EnvironmentStepKeepsInv(s: State, action: Action)
    requires Inv(s) && (action.Tick? || action.IdentityChange?)
    ensures Inv(Apply(s, action)) && Grows(s, Apply(s, action))
  {
    var t := Apply(s, action);
    RegistryFramed(s, t);
    forall d | d in t.phases ensures PhaseInv(t, d, t.phases[d]) {
      PhaseInvMonotone(s, t, d, s.phases[d]);
    }
  }

  lemma ServeKeepsServerInv(s: State, m: Sending, execute: bool, response: Response)
    requires Inv(s)
    ensures ServerInv(StepServe(s, m, execute, response)) && Grows(s, StepServe(s, m, execute, response))
  {
  }

  lemma ServeKeepsInv(s: State, m: Sending, execute: bool, response: Response)
    requires Inv(s)
    ensures Inv(StepServe(s, m, execute, response)) && Grows(s, StepServe(s, m, execute, response))
  {
    var t := StepServe(s, m, execute, response);
    ServeKeepsServerInv(s, m, execute, response);
    RegistryFramed(s, t);
    forall d | d in t.phases ensures PhaseInv(t, d, t.phases[d]) {
      PhaseInvMonotone(s, t, d, s.phases[d]);
    }
  }

  lemma ReceiveJustified(s: State, c: Context, reply: Reply)
    requires ServerInv(s) && PhaseInv(s, c, PhaseOf(s, c))
    ensures var t := StepReceive(s, c, reply);
      Grows(s, t) && ServerInv(t) && (t == s || PhaseInv(t, c, PhaseOf(t, c)))
  {
    assert reply in StepReceive(s, c, reply).received || StepReceive(s, c, reply) == s;
  }

  lemma ReceiveKeepsInv(s: State, c: Context, reply: Reply)
    requires Inv(s)
    ensures Inv(StepReceive(s, c, reply)) && Grows(s, StepReceive(s, c, reply))
  {
    var t := StepReceive(s, c, reply);
    assert PhaseInv(s, c, PhaseOf(s, c));
    ReceiveJustified(s, c, reply);
    RegistryFramed(s, t);
    if t != s {
      OthersKeepPhase(s, t, c, t.phases[c]);
    }
  }

  lemma StepKeepsInv(s: State, action: Action)
    requires Inv(s)
    ensures Inv(Apply(s, action)) && Grows(s, Apply(s, action))
  {
    match action
    case LockBegin(c, suffix, access) => LockBeginKeepsInv(s, c, suffix, access);
    case LockClear(c, access) => LockClearKeepsInv(s, c, access);
    case Serve(m, execute, response) => ServeKeepsInv(s, m, execute, response);
    case Receive(c, reply) => ReceiveKeepsInv(s, c, reply);
    case Tick(_) => EnvironmentStepKeepsInv(s, action);
    case IdentityChange(_) => EnvironmentStepKeepsInv(s, action);
    case Proceed(c, move) => ProceedKeepsInv(s, c, move);
  }

  lemma {:induction false} RunKeepsInv(now: int, report: BindingReport, actions: seq<Action>)
    ensures Inv(Run(Init(now, report), actions))
  {
    if actions != [] {
      RunKeepsInv(now, report, actions[..|actions| - 1]);
      StepKeepsInv(Run(Init(now, report), actions[..|actions| - 1]), actions[|actions| - 1]);
    }
  }

  // ------------------------------------------------------------ theorems

  /** Every run leaves a registry its own reader accepts, empty stored as absent. */
  lemma RegistryAlwaysReadable(now: int, report: BindingReport, actions: seq<Action>)
    ensures var s := Run(Init(now, report), actions);
      ReadRegistry(s.stored, Full) == Ok(Attempts(s.stored)) && s.stored != Registry([])
  {
    RunKeepsInv(now, report, actions);
  }

  /** A request gets a new key only once every earlier attempt for it has been removed. */
  lemma NewKeyOnlyAfterRemoval(now: int, report: BindingReport, actions: seq<Action>, action: Action)
    ensures var s := Run(Init(now, report), actions); var t := Apply(s, action);
      forall k, j :: k in t.minted && k !in s.minted && j in s.minted && s.minted[j].request == t.minted[k].request
        ==> j in s.removed
  {
    RunKeepsInv(now, report, actions);
    MintsAfterRemoval(Run(Init(now, report), actions), action);
  }

  lemma MintsAfterRemoval(s: State, action: Action)
    requires Inv(s)
    ensures var t := Apply(s, action);
      forall k, j :: k in t.minted && k !in s.minted && j in s.minted && s.minted[j].request == t.minted[k].request
        ==> j in s.removed
  {
    if action.LockBegin? && CanBegin(s, action.c, action.suffix) {
      assert PhaseInv(s, action.c, PhaseOf(s, action.c));
      LockBeginEffect(s, action.c, action.suffix, action.access);
    }
  }

  /** `c` may clear `a`: it holds that very attempt, an accepted or terminal answer bearing the attempt's
      binding has been received, and the identity reported to `c` for the clearing is the attempt's. */
  ghost predicate MayClear(s: State, c: Context, a: Attempt) {
    var p := PhaseOf(s, c);
    && p.ClearBound? && p.attempt == a
    && Settled(s, a)
    && (c, p.current) in s.reported && SameIdentity(a.binding, p.current)
  }

  /** An attempt leaves the registry only in a clear step of a context that may clear it; every other
      stored attempt, including one added meanwhile by another context, stays, in the same order. */
  lemma RemovalOnlyWhenSettled(now: int, report: BindingReport, actions: seq<Action>, action: Action)
    ensures var s := Run(Init(now, report), actions); var t := Apply(s, action);
      var before := Attempts(s.stored); var after := Attempts(t.stored);
      || before <= after
      || exists i :: 0 <= i < |before|
           && after == before[..i] + before[i + 1..]
           && action.LockClear? && MayClear(s, action.c, before[i])
  {
    RunKeepsInv(now, report, actions);
    var s := Run(Init(now, report), actions);
    if action.LockClear? && PhaseOf(s, action.c).ClearBound? {
      RemovedOne(s, action.c, action.access);
    } else if action.LockBegin? {
      if CanBegin(s, action.c, action.suffix) {
        LockBeginEffect(s, action.c, action.suffix, action.access);
      }
    }
  }

  lemma RemovedOne(s: State, c: Context, access: Access)
    requires Inv(s) && PhaseOf(s, c).ClearBound?
    ensures var before := Attempts(s.stored); var after := Attempts(StepLockClear(s, c, access).stored);
      || after == before
      || exists i :: 0 <= i < |before| && after == before[..i] + before[i + 1..] && MayClear(s, c, before[i])
  {
    var before := Attempts(s.stored);
    var a := PhaseOf(s, c).attempt;
    ClearIsStored(s, c, access);
    if i :| 0 <= i < |before| && before[i].key == a.key {
      assert before[i] in before && before[i] == a;
      ClearRemovesExactlyOne(s.stored, a, access, i);
    } else {
      ClearOfAbsentIsNoop(s.stored, a, access);
    }
  }

  lemma ClearIsStored(s: State, c: Context, access: Access)
    requires Inv(s) && PhaseOf(s, c).ClearBound?
    ensures StepLockClear(s, c, access).stored in {s.stored, Clear(s.stored, PhaseOf(s, c).attempt, access).stored}
    ensures MayClear(s, c, PhaseOf(s, c).attempt) && Known(s, PhaseOf(s, c).attempt)
  {
    assert PhaseInv(s, c, PhaseOf(s, c));
  }

  /** An answer that leaves the outcome open never settles an attempt: a code listed as ambiguous, or a
      retryable or server-side status without a receipt header; an empty header is none. */
  lemma OpenAnswersNeverSettle(r: Response, a: Attempt)
    requires !IsOk(r)
    requires || (r.code.Some? && r.code.value in RETAINED_CODES)
             || (r.receiptHeader in {None, Some("")} && (r.status in {408, 409, 425, 429} || r.status >= 500))
    ensures !Settles(r, a)
  {
  }

  /** In every run, an attempt for which no settling answer was ever received is still stored, so a
      retry under the same unexpired identity sends the same key again. */
  lemma UnsettledAttemptStaysStored(now: int, report: BindingReport, actions: seq<Action>, key: string)
    ensures var s := Run(Init(now, report), actions);
      key in s.minted && (forall r :: r in s.received && r.key == key ==> !Settles(r.response, s.minted[key])) ==>
        s.minted[key] in Attempts(s.stored)
  {
    RunKeepsInv(now, report, actions);
  }

  // ------------------------------------------------ what an answer brings about

  /** In every run, each acknowledged write was confirmed: an OK answer bearing its binding, whose body
      allows no execution, has been received for its key. */
  lemma AcknowledgedWasConfirmed(now: int, report: BindingReport, actions: seq<Action>, key: string)
    ensures var s := Run(Init(now, report), actions);
      key in s.acknowledged ==> key in s.minted && Confirmed(s, s.minted[key])
  {
    RunKeepsInv(now, report, actions);
  }

  /** A final refusal: neither one of the four ambiguous codes, nor a status worth a retry without proof
      that the keyed middleware answered. */
  predicate Refuses(r: Response, a: Attempt) {
    && !(200 <= r.status <= 299) && r.bindingHeader == Some(a.binding.bindingId)
    && r.code != Some("mutation_outcome_ambiguous") && r.code != Some("idempotent_response_too_large")
    && r.code != Some("invalid_idempotency_contract")
    && r.code != Some("idempotency_key_reused_for_different_request")
    && (r.receiptHeader !in {None, Some("")} || (r.status !in {408, 409, 425, 429} && r.status < 500))
  }

  /** The identity reported now is the attempt's, and not expired. */
  predicate IdentityHolds(s: State, a: Attempt) {
    var current := ResolveBinding(s.report, s.now);
    current.Ok? && Unexpired(a.binding, s.now) && SameIdentity(a.binding, current.value)
  }

  /** One context takes an answer, acknowledges it if it may, and clears. */
  function AfterAnswer(s: State, c: Context, reply: Reply): State {
    var received := Apply(s, Receive(c, reply));
    var acknowledging := Apply(received, Proceed(c, Acknowledge));
    Apply(Apply(acknowledging, Proceed(c, ResolveForClear)), LockClear(c, Full))
  }

  lemma ClearsWhenBound(s: State, c: Context)
    requires Inv(s) && PhaseOf(s, c).ClearBound?
    ensures var t := Apply(s, LockClear(c, Full)); var a := PhaseOf(s, c).attempt;
      && PhaseOf(t, c).Idle? && t.removed == s.removed + {a.key}
      && t.acknowledged == (if PhaseOf(s, c).cause.Acknowledgement? then s.acknowledged + {a.key} else s.acknowledged)
      && (forall x :: x in Attempts(t.stored) <==> x in Attempts(s.stored) && x != a)
  {
    assert PhaseInv(s, c, PhaseOf(s, c));
    ClearedRegistry(s, PhaseOf(s, c).attempt, Full);
  }

  /** A clear that storage refuses changes nothing and leaves the context idle. */
  lemma ClearFails(s: State, c: Context, access: Access)
    requires Inv(s) && PhaseOf(s, c).ClearBound? && !access.Full?
    ensures var t := Apply(s, LockClear(c, access)); t == s.(phases := s.phases[c := Idle])
  {
    assert PhaseInv(s, c, PhaseOf(s, c));
    ClearedRegistry(s, PhaseOf(s, c).attempt, access);
  }

  /** From a context that awaits the answer: the key is acknowledged exactly when the answer confirms it,
      the attempt is taken out of the registry exactly when the answer confirms or finally refuses it, each
      under the attempt's own unexpired identity; every other attempt stays, and the context ends idle. */
  lemma AnswerDecides(s: State, c: Context, reply: Reply)
    requires Inv(s) && PhaseOf(s, c).Awaiting? && reply in s.replies && reply.key == PhaseOf(s, c).attempt.key
    ensures var a := PhaseOf(s, c).attempt; var t := AfterAnswer(s, c, reply);
      var confirms := Confirms(reply.response, a) && IdentityHolds(s, a);
      var settles := (Confirms(reply.response, a) || Refuses(reply.response, a)) && IdentityHolds(s, a);
      && t.acknowledged == (if confirms then s.acknowledged + {a.key} else s.acknowledged)
      && t.removed == (if settles then s.removed + {a.key} else s.removed)
      && (settles ==> forall x :: x in Attempts(t.stored) <==> x in Attempts(s.stored) && x != a)
      && (!settles ==> t.stored == s.stored)
      && PhaseOf(t, c).Idle?
  {
    var received := Apply(s, Receive(c, reply));
    var clearing := Apply(received, Proceed(c, Acknowledge));
    AnswerTaken(s, c, reply);
    AnswerAcknowledged(received, c);
    ClearedAfter(clearing, c);
  }

  /** What the clear comes to, from a context that is about to ask for its identity. */
  lemma ClearedAfter(s: State, c: Context)
    requires Inv(s) && (PhaseOf(s, c).Clearing? || PhaseOf(s, c).Idle?)
    ensures var p := PhaseOf(s, c); var t := Apply(Apply(s, Proceed(c, ResolveForClear)), LockClear(c, Full));
      && PhaseOf(t, c).Idle?
      && (p.Clearing? && IdentityHolds(s, p.attempt) ==>
            && t.removed == s.removed + {p.attempt.key}
            && t.acknowledged == (if p.cause.Acknowledgement? then s.acknowledged + {p.attempt.key} else s.acknowledged)
            && forall x :: x in Attempts(t.stored) <==> x in Attempts(s.stored) && x != p.attempt)
      && (p.Idle? || !IdentityHolds(s, p.attempt) ==> SameRegistry(s, t))
  {
    var bound := Apply(s, Proceed(c, ResolveForClear));
    IdentityResolved(s, c);
    if PhaseOf(bound, c).ClearBound? {
      ClearsWhenBound(bound, c);
    }
  }

  /** Nothing the registry or the clear depends on has changed. */
  predicate SameRegistry(s: State, t: State) {
    && t.stored == s.stored && t.removed == s.removed && t.acknowledged == s.acknowledged
    && t.report == s.report && t.now == s.now
  }

  lemma AnswerTaken(s: State, c: Context, reply: Reply)
    requires Inv(s) && PhaseOf(s, c).Awaiting? && reply in s.replies && reply.key == PhaseOf(s, c).attempt.key
    ensures var a := PhaseOf(s, c).attempt; var t := Apply(s, Receive(c, reply));
      && Inv(t) && SameRegistry(s, t)
      && PhaseOf(t, c) ==
           if Confirms(reply.response, a) then Accepted(a)
           else if Refuses(reply.response, a) then Clearing(a, TerminalAnswer)
           else Idle
  {
    StepKeepsInv(s, Receive(c, reply));
    RefusesExactly(reply.response, PhaseOf(s, c).attempt);
    AnswerPhase(s, c, reply);
  }

  /** The code's own test comes down to that. */
  lemma RefusesExactly(r: Response, a: Attempt)
    ensures Refuses(r, a) <==> !IsOk(r) && r.bindingHeader == Some(a.binding.bindingId) && !ShouldRetain(r)
  {
  }

  lemma AnswerPhase(s: State, c: Context, reply: Reply)
    requires PhaseOf(s, c).Awaiting? && reply in s.replies && reply.key == PhaseOf(s, c).attempt.key
    ensures var a := PhaseOf(s, c).attempt; var r := reply.response; var t := StepReceive(s, c, reply);
      && SameRegistry(s, t)
      && PhaseOf(t, c) ==
           if Confirms(r, a) then Accepted(a)
           else if !IsOk(r) && r.bindingHeader == Some(a.binding.bindingId) && !ShouldRetain(r) then Clearing(a, TerminalAnswer)
           else Idle
  {
  }

  lemma AnswerAcknowledged(s: State, c: Context)
    requires Inv(s)
    ensures var p := PhaseOf(s, c); var t := Apply(s, Proceed(c, Acknowledge));
      && Inv(t) && SameRegistry(s, t)
      && PhaseOf(t, c) == if p.Accepted? then Clearing(p.attempt, Acknowledgement) else p
  {
    StepKeepsInv(s, Proceed(c, Acknowledge));
  }

  lemma IdentityResolved(s: State, c: Context)
    requires Inv(s)
    ensures var p := PhaseOf(s, c); var t := Apply(s, Proceed(c, ResolveForClear));
      && Inv(t) && SameRegistry(s, t)
      && (p.Clearing? && IdentityHolds(s, p.attempt) ==>
            PhaseOf(t, c).ClearBound? && PhaseOf(t, c).attempt == p.attempt && PhaseOf(t, c).cause == p.cause)
      && (p.Clearing? && !IdentityHolds(s, p.attempt) ==> PhaseOf(t, c).Idle?)
      && (!p.Clearing? ==> PhaseOf(t, c) == p)
  {
    StepKeepsInv(s, Proceed(c, ResolveForClear));
  }

  // ------------------------------------------------------ a whole write

  /** A context submits a request, learns its identity, begins and sends. */
  function AfterSubmit(s: State, c: Context, request: Request, suffix: string): State {
    var bound := Apply(Apply(s, Proceed(c, Submit(request))), Proceed(c, Resolve));
    Apply(Apply(bound, LockBegin(c, suffix, Full)), Proceed(c, Send))
  }

  lemma Submitted(s: State, c: Context, request: Request)
    requires Inv(s) && PhaseOf(s, c).Idle?
    ensures var t := Apply(Apply(s, Proceed(c, Submit(request))), Proceed(c, Resolve));
      var current := ResolveBinding(s.report, s.now);
      && Inv(t) && SameRegistry(s, t) && t.minted == s.minted && t.sent == s.sent
      && PhaseOf(t, c) == if SupportedVerb(request.verb) && current.Ok? then Bound(request, current.value) else Idle
  {
    var t := Apply(s, Proceed(c, Submit(request)));
    StepKeepsInv(s, Proceed(c, Submit(request)));
    StepKeepsInv(t, Proceed(c, Resolve));
  }

  /** A new request sends one fresh key, stored under the identity just reported; a request already stored
      under that identity is sent again with the very key stored, and nothing is added. */
  lemma SubmitSendsOneKey(s: State, c: Context, request: Request, suffix: string)
    requires Inv(s) && PhaseOf(s, c).Idle? && SupportedVerb(request.verb) && ResolveBinding(s.report, s.now).Ok?
    requires KeySuffix(suffix) && NewKey(suffix) !in s.minted
    ensures var current := ResolveBinding(s.report, s.now).value; var t := AfterSubmit(s, c, request, suffix);
      var minting := Attempt(request, NewKey(suffix), Some(s.now), current);
      && Inv(t) && t.report == s.report && t.now == s.now && t.acknowledged == s.acknowledged
      && ((forall a :: a in Attempts(s.stored) ==> a.request != request) && |Attempts(s.stored)| < 128 ==>
            && PhaseOf(t, c) == Awaiting(minting)
            && Sending(c, minting, current, s.now, false) in t.sent
            && Attempts(t.stored) == Attempts(s.stored) + [minting])
      && (forall a :: a in Attempts(s.stored) && a.request == request && IdentityHolds(s, a) ==>
            && PhaseOf(t, c) == Awaiting(a)
            && Sending(c, a, current, s.now, true) in t.sent
            && t.stored == s.stored)
  {
    var u := Apply(Apply(s, Proceed(c, Submit(request))), Proceed(c, Resolve));
    Submitted(s, c, request);
    var v := Apply(u, LockBegin(c, suffix, Full));
    StepKeepsInv(u, LockBegin(c, suffix, Full));
    BegunFromBound(u, c, suffix);
    StepKeepsInv(v, Proceed(c, Send));
  }

  lemma BegunFromBound(s: State, c: Context, suffix: string)
    requires Inv(s) && PhaseOf(s, c).Bound? && KeySuffix(suffix) && NewKey(suffix) !in s.minted
    ensures var p := PhaseOf(s, c); var t := Apply(s, LockBegin(c, suffix, Full));
      var minting := Attempt(p.request, NewKey(suffix), Some(s.now), p.current);
      && t.report == s.report && t.now == s.now && t.acknowledged == s.acknowledged
      && ((forall a :: a in Attempts(s.stored) ==> a.request != p.request) && |Attempts(s.stored)| < 128 ==>
            && PhaseOf(t, c) == Ready(Sending(c, minting, p.current, s.now, false))
            && Attempts(t.stored) == Attempts(s.stored) + [minting])
      && (forall a :: a in Attempts(s.stored) && a.request == p.request ==>
            (Unexpired(a.binding, s.now) && SameIdentity(a.binding, p.current) ==>
               PhaseOf(t, c) == Ready(Sending(c, a, p.current, s.now, true)) && t.stored == s.stored))
  {
    var p := PhaseOf(s, c);
    assert PhaseInv(s, c, p);
    NewKeyValid(suffix);
    if a :| a in Attempts(s.stored) && a.request == p.request {
      BeginJoins(s.stored, a, p.current, NewKey(suffix), s.now, Full);
      MatchingExact(Attempts(s.stored), p.request);
    } else {
      BeginMints(s.stored, p.request, p.current, NewKey(suffix), s.now, Full);
    }
  }

  /** A response lost on the way, or a context that stops at any point, leaves the registry as it was and
      the context idle. */
  lemma LossLeavesRegistry(s: State, c: Context, move: Move)
    requires Inv(s) && (move.Crash? || (move.LoseResponse? && PhaseOf(s, c).Awaiting?))
    ensures var t := Apply(s, Proceed(c, move));
      && Inv(t) && SameRegistry(s, t) && t.minted == s.minted && t.sent == s.sent && PhaseOf(t, c).Idle?
  {
    StepKeepsInv(s, Proceed(c, move));
  }

  /** So the same request submitted again, under the attempt's own unexpired identity, is sent again with
      the very same key. */
  lemma RetryReusesKey(s: State, c: Context, move: Move, a: Attempt, suffix: string)
    requires Inv(s) && (move.Crash? || (move.LoseResponse? && PhaseOf(s, c).Awaiting?))
    requires a in Attempts(s.stored) && IdentityHolds(s, a) && KeySuffix(suffix) && NewKey(suffix) !in s.minted
    ensures var t := AfterSubmit(Apply(s, Proceed(c, move)), c, a.request, suffix);
      && PhaseOf(t, c) == Awaiting(a) && t.stored == s.stored
      && Sending(c, a, ResolveBinding(s.report, s.now).value, s.now, true) in t.sent
  {
    LossLeavesRegistry(s, c, move);
    assert Known(s, a);
    StoredAreSupported(s, a);
    SubmitSendsOneKey(Apply(s, Proceed(c, move)), c, a.request, suffix);
  }

  lemma StoredAreSupported(s: State, a: Attempt)
    requires Inv(s) && a in Attempts(s.stored)
    ensures SupportedVerb(a.request.verb)
  {
    assert ValidAttempt(a);
  }

  /** A new write, from the submit to the cleared registry: sent once, run by the server, confirmed and
      acknowledged under its fresh key, with every other attempt left as it was. */
  lemma WriteCompletes(s: State, c: Context, request: Request, suffix: string, response: Response)
    requires Inv(s) && PhaseOf(s, c).Idle? && SupportedVerb(request.verb) && ResolveBinding(s.report, s.now).Ok?
    requires KeySuffix(suffix) && NewKey(suffix) !in s.minted
    requires (forall a :: a in Attempts(s.stored) ==> a.request != request) && |Attempts(s.stored)| < 128
    ensures var current := ResolveBinding(s.report, s.now).value; var key := NewKey(suffix);
      var minting := Attempt(request, key, Some(s.now), current);
      var served := Apply(AfterSubmit(s, c, request, suffix), Serve(Sending(c, minting, current, s.now, false), true, response));
      var t := AfterAnswer(served, c, Reply(key, response));
      Confirms(response, minting) ==>
        && key in t.executed && t.executed[key] == request
        && t.acknowledged == s.acknowledged + {key}
        && PhaseOf(t, c).Idle?
        && forall x :: x in Attempts(t.stored) <==> x in Attempts(s.stored)
  {
    var current, key := ResolveBinding(s.report, s.now).value, NewKey(suffix);
    var minting := Attempt(request, key, Some(s.now), current);
    var sending := Sending(c, minting, current, s.now, false);
    var sent := AfterSubmit(s, c, request, suffix);
    SubmitSendsOneKey(s, c, request, suffix);
    if Confirms(response, minting) {
      NewlyServed(s, sent, sending, response);
      AnswerDecides(Apply(sent, Serve(sending, true, response)), c, Reply(key, response));
      AnswerKeepsExecuted(Apply(sent, Serve(sending, true, response)), c, Reply(key, response));
      assert minting !in Attempts(s.stored);
    }
  }

  lemma AnswerKeepsExecuted(s: State, c: Context, reply: Reply)
    ensures AfterAnswer(s, c, reply).executed == s.executed
  {
  }

  lemma NewlyServed(s: State, sent: State, m: Sending, response: Response)
    requires Inv(sent) && m in sent.sent && IsOk(response)
    ensures var t := Apply(sent, Serve(m, true, response));
      && Inv(t) && SameRegistry(sent, t) && t.phases == sent.phases
      && Reply(m.attempt.key, response) in t.replies
      && m.attempt.key in t.executed && t.executed[m.attempt.key] == m.attempt.request
  {
    StepKeepsInv(sent, Serve(m, true, response));
    ServedEffect(sent, m, response);
  }

  lemma ServedEffect(s: State, m: Sending, response: Response)
    requires ServerInv(s) && m in s.sent && IsOk(response)
    ensures var t := StepServe(s, m, true, response);
      && SameRegistry(s, t) && t.phases == s.phases && Reply(m.attempt.key, response) in t.replies
      && m.attempt.key in t.executed && t.executed[m.attempt.key] == m.attempt.request
  {
    assert Known(s, m.attempt);
  }

  // ------------------------------------------------- expired attempts

  /** A stored attempt past its expiry that no context is already about to clear. */
  ghost predicate Stuck(s: State, a: Attempt) {
    && a in Attempts(s.stored)
    && !Unexpired(a.binding, s.now)
    && forall c :: c in s.phases && s.phases[c].ClearBound? ==> s.phases[c].attempt != a
  }

  /** Time never runs backwards. */
  predicate Forward(s: State, actions: seq<Action>) {
    actions == []
    || (var init, last := actions[..|actions| - 1], actions[|actions| - 1];
        Forward(s, init) && (last.Tick? ==> Run(s, init).now <= last.now))
  }

  lemma StuckStays(s: State, a: Attempt, action: Action)
    requires Inv(s) && Stuck(s, a) && (action.Tick? ==> s.now <= action.now)
    ensures Stuck(Apply(s, action), a)
  {
    match action
    case LockBegin(c, suffix, access) => StuckThroughBegin(s, a, c, suffix, access);
    case LockClear(c, access) => StuckThroughClear(s, a, c, access);
    case Proceed(c, move) => StuckThroughMove(s, a, c, move);
    case Receive(c, reply) => StuckThroughReceive(s, a, c, reply);
    case _ =>
  }

  lemma StuckThroughBegin(s: State, a: Attempt, c: Context, suffix: string, access: Access)
    requires Inv(s) && Stuck(s, a)
    ensures Stuck(StepLockBegin(s, c, suffix, access), a)
  {
    if CanBegin(s, c, suffix) {
      assert PhaseInv(s, c, PhaseOf(s, c));
      LockBeginEffect(s, c, suffix, access);
    }
  }

  lemma StuckThroughClear(s: State, a: Attempt, c: Context, access: Access)
    requires Inv(s) && Stuck(s, a)
    ensures Stuck(StepLockClear(s, c, access), a)
  {
    if PhaseOf(s, c).ClearBound? {
      assert PhaseInv(s, c, PhaseOf(s, c));
      ClearedRegistry(s, PhaseOf(s, c).attempt, access);
    }
  }

  /** Resolving an identity for a clear fails on an attempt past its expiry. */
  lemma StuckThroughMove(s: State, a: Attempt, c: Context, move: Move)
    requires Stuck(s, a)
    ensures Stuck(StepProceed(s, c, move), a)
  {
    var q := NextPhase(s, PhaseOf(s, c), move);
    assert q.ClearBound? ==> q.attempt != a;
  }

  lemma StuckThroughReceive(s: State, a: Attempt, c: Context, reply: Reply)
    requires Stuck(s, a)
    ensures Stuck(StepReceive(s, c, reply), a)
  {
  }

  /** Beginning its request under any identity fails, and stores nothing. */
  lemma StuckRefuses(s: State, a: Attempt, c: Context, suffix: string, access: Access)
    requires Inv(s) && Stuck(s, a) && CanBegin(s, c, suffix) && PhaseOf(s, c).request == a.request
    ensures StepLockBegin(s, c, suffix, access) == Goto(s, c, Idle)
  {
    BeginJoins(s.stored, a, PhaseOf(s, c).current, NewKey(suffix), s.now, access);
  }

  lemma {:induction false} StuckStaysForGood(s: State, a: Attempt, later: seq<Action>)
    requires Inv(s) && Stuck(s, a) && Forward(s, later)
    ensures Inv(Run(s, later)) && Stuck(Run(s, later), a)
  {
    if later != [] {
      var init, last := later[..|later| - 1], later[|later| - 1];
      StuckStaysForGood(s, a, init);
      StepKeepsInv(Run(s, init), last);
      StuckStays(Run(s, init), a, last);
    }
  }

  /** From any reachable state, an attempt past its expiry that no context is about to clear stays stored
      for good, and from then on every begin of its request, in any context and under any identity, ends
      without sending or storing anything. */
  lemma ExpiredBlocksForGood(
    now: int, report: BindingReport, actions: seq<Action>, a: Attempt, later: seq<Action>,
    c: Context, suffix: string, access: Access)
    ensures var s := Run(Init(now, report), actions); var t := Run(s, later);
      Stuck(s, a) && Forward(s, later) ==>
        && a in Attempts(t.stored)
        && (CanBegin(t, c, suffix) && PhaseOf(t, c).request == a.request ==>
              StepLockBegin(t, c, suffix, access) == Goto(t, c, Idle))
  {
    var s := Run(Init(now, report), actions);
    RunKeepsInv(now, report, actions);
    if Stuck(s, a) && Forward(s, later) {
      StuckStaysForGood(s, a, later);
      var t := Run(s, later);
      if CanBegin(t, c, suffix) && PhaseOf(t, c).request == a.request {
        StuckRefuses(t, a, c, suffix, access);
      }
    }
  }

  ghost predicate AllStuck(s: State) {
    |Attempts(s.stored)| == MAX_PENDING_ATTEMPTS && forall a :: a in Attempts(s.stored) ==> Stuck(s, a)
  }

  lemma FullRefuses(s: State, c: Context, suffix: string, access: Access)
    requires Inv(s) && AllStuck(s) && CanBegin(s, c, suffix)
    ensures StepLockBegin(s, c, suffix, access) == Goto(s, c, Idle)
  {
    var p := PhaseOf(s, c);
    if a :| a in Attempts(s.stored) && a.request == p.request {
      StuckRefuses(s, a, c, suffix, access);
    } else {
      assert PhaseInv(s, c, p);
      NewKeyValid(suffix);
      BeginMints(s.stored, p.request, p.current, NewKey(suffix), s.now, access);
    }
  }

  lemma FullStays(s: State, action: Action)
    requires Inv(s) && AllStuck(s) && (action.Tick? ==> s.now <= action.now)
    ensures Apply(s, action).stored == s.stored && AllStuck(Apply(s, action))
  {
    assert Apply(s, action).stored == s.stored by {
      if action.LockBegin? && CanBegin(s, action.c, action.suffix) {
        FullRefuses(s, action.c, action.suffix, action.access);
      } else if action.LockClear? && PhaseOf(s, action.c).ClearBound? {
        NothingToClear(s, action.c, action.access);
      }
    }
    forall a | a in Attempts(s.stored) ensures Stuck(Apply(s, action), a) {
      StuckStays(s, a, action);
    }
  }

  /** A context about to clear holds an attempt that is gone already. */
  lemma NothingToClear(s: State, c: Context, access: Access)
    requires Inv(s) && AllStuck(s) && PhaseOf(s, c).ClearBound?
    ensures StepLockClear(s, c, access).stored == s.stored
  {
    var a := PhaseOf(s, c).attempt;
    ClearIsStored(s, c, access);
    forall b | b in Attempts(s.stored) ensures b.key != a.key {
      assert Stuck(s, b) && Known(s, b);
    }
    ClearOfAbsentIsNoop(s.stored, a, access);
  }

  lemma {:induction false} FullStaysForGood(s: State, later: seq<Action>)
    requires Inv(s) && AllStuck(s) && Forward(s, later)
    ensures Inv(Run(s, later)) && AllStuck(Run(s, later)) && Run(s, later).stored == s.stored
  {
    if later != [] {
      var init, last := later[..|later| - 1], later[|later| - 1];
      FullStaysForGood(s, init);
      StepKeepsInv(Run(s, init), last);
      FullStays(Run(s, init), last);
    }
  }

  /** A registry full of such attempts never changes again, and no context can begin any write at all. */
  lemma FullOfExpiredBlocksAll(
    now: int, report: BindingReport, actions: seq<Action>, later: seq<Action>, c: Context, suffix: string, access: Access)
    ensures var s := Run(Init(now, report), actions); var t := Run(s, later);
      AllStuck(s) && Forward(s, later) ==>
        && t.stored == s.stored
        && (CanBegin(t, c, suffix) ==> StepLockBegin(t, c, suffix, access) == Goto(t, c, Idle))
  {
    var s := Run(Init(now, report), actions);
    RunKeepsInv(now, report, actions);
    if AllStuck(s) && Forward(s, later) {
      FullStaysForGood(s, later);
      if CanBegin(Run(s, later), c, suffix) {
        FullRefuses(Run(s, later), c, suffix, access);
      }
    }
  }

  /** Whatever is sent was begun under the identity the server had reported to that context, and a
      re-sent attempt was still unexpired when it was joined. */
  lemma SentOnlyUnderMatchingIdentity(now: int, report: BindingReport, actions: seq<Action>, m: Sending)
    requires m in Run(Init(now, report), actions).sent
    ensures (m.sender, m.current) in Run(Init(now, report), actions).reported
    ensures SameIdentity(m.attempt.binding, m.current)
    ensures m.joined ==> Unexpired(m.attempt.binding, m.beganAt)
  {
    RunKeepsInv(now, report, actions);
  }

  ghost function MintedFor(s: State, q: Request): set<string> {
    set k | k in s.minted && s.minted[k].request == q
  }

  ghost function RemovedFor(s: State, q: Request): set<string> {
    set k | k in s.removed && k in s.minted && s.minted[k].request == q
  }

  ghost function AcknowledgedFor(s: State, q: Request): set<string> {
    set k | k in s.acknowledged && k in s.minted && s.minted[k].request == q
  }

  /** The keys whose effect on `q` the server has run; each key counts one effect. */
  ghost function EffectsOf(s: State, q: Request): set<string> {
    set k | k in s.executed && s.executed[k] == q
  }

  /** Conservation: the keys minted for a request are its removed attempts plus the stored one, if any. */
  lemma MintedIsRemovedPlusStored(s: State, q: Request)
    requires Inv(s)
    ensures (exists a :: a in Attempts(s.stored) && a.request == q) ==> |MintedFor(s, q)| == |RemovedFor(s, q)| + 1
    ensures (forall a :: a in Attempts(s.stored) ==> a.request != q) ==> |MintedFor(s, q)| == |RemovedFor(s, q)|
  {
    if a :| a in Attempts(s.stored) && a.request == q {
      assert MintedFor(s, q) == RemovedFor(s, q) + {a.key};
    } else {
      assert MintedFor(s, q) == RemovedFor(s, q);
    }
  }

  lemma SubsetSize<T>(a: set<T>, b: set<T>)
    requires a <= b
    ensures |a| <= |b|
  {
    assert b == a + (b - a);
  }

  /** Over every interleaving of contexts, lost responses, crashes and identity changes: effects per
      logical request never exceed removed attempts plus one, and every acknowledged write took effect. */
  lemma EffectsBounded(now: int, report: BindingReport, actions: seq<Action>, q: Request)
    ensures var s := Run(Init(now, report), actions);
      |AcknowledgedFor(s, q)| <= |EffectsOf(s, q)| <= |RemovedFor(s, q)| + 1
  {
    RunKeepsInv(now, report, actions);
    var s := Run(Init(now, report), actions);
    MintedIsRemovedPlusStored(s, q);
    SubsetSize(EffectsOf(s, q), MintedFor(s, q));
    SubsetSize(AcknowledgedFor(s, q), EffectsOf(s, q));
  }
}
