/** The stored registry of pending governed writes (frontend/api.js). */
module MutationRegistry {
  import opened Common

  const MAX_PENDING_ATTEMPTS: nat := 128
  const BINDING_SCHEMA := "finharness.browser_mutation_identity_binding.v1"

  /** One logical write: what the user asked for, without its idempotency key. */
  datatype Request = Request(verb: string, endpoint: string, body: string)

  /** Timestamps are milliseconds; `None` stands for text that does not parse as UTC. */
  datatype Binding = Binding(
    schema: string,
    bindingId: string,
    principalId: string,
    identityProviderId: string,
    principalKind: string,
    agentRuntimeId: Option<string>,
    authenticationMethod: string,
    authenticationEpochId: string,
    expiresAt: Option<int>)

  datatype Attempt = Attempt(request: Request, key: string, createdAt: Option<int>, binding: Binding)

  /** The localStorage value: absent, not a current registry, or a parsed one. */
  datatype Stored = Absent | Garbled | Legacy | Registry(attempts: seq<Attempt>)

  datatype Reason =
    | RegistryCorrupt | RegistryAmbiguous | LegacyUnbound
    | CurrentBindingUnavailable | CurrentBindingExpired
    | AttemptBindingExpired | AttemptBindingInvalid
    | PrincipalMismatch | AgentRuntimeMismatch | SessionEpochMismatch

  datatype Fault = StorageFault | BindingFault(reason: Reason)

  /** What localStorage does at the moment: everything, throw on writes, or throw on reads too. */
  datatype Access = Full | ReadOnly | Blocked

  // ---------------------------------------------------------------- validity

  /** Characters `String.prototype.trim` removes. */
  predicate IsTrimmed(c: char) {
    || '\U{0009}' <= c <= '\U{000D}'
    || c == ' ' || c == '\U{00A0}' || c == '\U{1680}'
    || '\U{2000}' <= c <= '\U{200A}'
    || c == '\U{2028}' || c == '\U{2029}' || c == '\U{202F}'
    || c == '\U{205F}' || c == '\U{3000}' || c == '\U{FEFF}'
  }

  predicate NonBlank(s: string) {
    exists i :: 0 <= i < |s| && !IsTrimmed(s[i])
  }

  predicate IsHexDigit(c: char) {
    '0' <= c <= '9' || 'a' <= c <= 'f'
  }

  predicate IsKeyChar(c: char) {
    || 'A' <= c <= 'Z' || 'a' <= c <= 'z' || '0' <= c <= '9'
    || c == '.' || c == '_' || c == ':' || c == '-'
  }

  predicate ValidKey(key: string) {
    8 <= |key| <= 128 && forall i :: 0 <= i < |key| ==> IsKeyChar(key[i])
  }

  predicate ValidBinding(b: Binding) {
    && b.schema == BINDING_SCHEMA
    && |b.bindingId| == 64
    && (forall i :: 0 <= i < 64 ==> IsHexDigit(b.bindingId[i]))
    && NonBlank(b.principalId)
    && NonBlank(b.identityProviderId)
    && b.principalKind in {"human", "service", "legacy_unknown"}
    && (b.agentRuntimeId.None? || NonBlank(b.agentRuntimeId.value))
    && NonBlank(b.authenticationMethod)
    && NonBlank(b.authenticationEpochId)
    && b.expiresAt.Some?
  }

  predicate SupportedVerb(verb: string) {
    verb in {"POST", "PATCH"}
  }

  predicate ValidAttempt(a: Attempt) {
    && SupportedVerb(a.request.verb)
    && ValidKey(a.key)
    && a.createdAt.Some?
    && ValidBinding(a.binding)
  }

  predicate UniqueAttempts(s: seq<Attempt>) {
    forall i, j :: 0 <= i < j < |s| ==> s[i].key != s[j].key && s[i].request != s[j].request
  }

  /** What the registry's own reader accepts. */
  predicate WellFormed(s: seq<Attempt>) {
    && |s| <= MAX_PENDING_ATTEMPTS
    && (forall i {:trigger ValidAttempt(s[i])} :: 0 <= i < |s| ==> ValidAttempt(s[i]))
    && UniqueAttempts(s)
  }

  function ReadRegistry(stored: Stored, access: Access): Result<seq<Attempt>, Fault> {
    if access.Blocked? then Err(StorageFault)
    else match stored
    case Absent => Ok([])
    case Garbled => Err(BindingFault(RegistryCorrupt))
    case Legacy => Err(BindingFault(LegacyUnbound))
    case Registry(attempts) =>
      if WellFormed(attempts) then Ok(attempts) else Err(BindingFault(RegistryCorrupt))
  }

  function WriteRegistry(attempts: seq<Attempt>): Stored {
    if attempts == [] then Absent else Registry(attempts)
  }

  /** A registry value as the writer leaves it: readable, and absent rather than empty. */
  predicate Canonical(stored: Stored) {
    stored.Absent? || (stored.Registry? && stored.attempts != [] && WellFormed(stored.attempts))
  }

  function Attempts(stored: Stored): seq<Attempt> {
    if stored.Registry? then stored.attempts else []
  }

  // ---------------------------------------------------------------- identity

  predicate SameIdentity(b: Binding, current: Binding) {
    && b.bindingId == current.bindingId
    && b.schema == current.schema
    && b.principalId == current.principalId
    && b.identityProviderId == current.identityProviderId
    && b.principalKind == current.principalKind
    && b.agentRuntimeId == current.agentRuntimeId
    && b.authenticationMethod == current.authenticationMethod
    && b.authenticationEpochId == current.authenticationEpochId
  }

  predicate SamePrincipal(b: Binding, current: Binding) {
    b.principalId == current.principalId && b.identityProviderId == current.identityProviderId
  }

  predicate Unexpired(b: Binding, now: int) {
    b.expiresAt.Some? && now < b.expiresAt.value
  }

  function RequireSameBinding(b: Binding, current: Binding, now: int): (r: Result<(), Reason>)
    ensures r.Ok? <==> Unexpired(b, now) && SameIdentity(b, current)
    ensures r.Ok? <==> Unexpired(b, now) && b.(expiresAt := current.expiresAt) == current
    ensures r == Err(AttemptBindingExpired) <==> !Unexpired(b, now)
    ensures r == Err(PrincipalMismatch) <==> Unexpired(b, now) && !SamePrincipal(b, current)
    ensures r == Err(AgentRuntimeMismatch) <==>
      Unexpired(b, now) && SamePrincipal(b, current) && b.agentRuntimeId != current.agentRuntimeId
    ensures r == Err(SessionEpochMismatch) <==>
      && Unexpired(b, now) && SamePrincipal(b, current) && b.agentRuntimeId == current.agentRuntimeId
      && b.authenticationEpochId != current.authenticationEpochId
    ensures r.Err? ==>
      r.error in {AttemptBindingExpired, PrincipalMismatch, AgentRuntimeMismatch, SessionEpochMismatch, AttemptBindingInvalid}
  {
    if !Unexpired(b, now) then Err(AttemptBindingExpired)
    else if SameIdentity(b, current) then Ok(())
    else if !SamePrincipal(b, current) then Err(PrincipalMismatch)
    else if b.agentRuntimeId != current.agentRuntimeId then Err(AgentRuntimeMismatch)
    else if b.authenticationEpochId != current.authenticationEpochId then Err(SessionEpochMismatch)
    else Err(AttemptBindingInvalid)
  }

  // ------------------------------------------------- read-modify-write steps

  datatype Outcome<+T> = Outcome(result: Result<T, Fault>, stored: Stored)

  function Matching(s: seq<Attempt>, request: Request): seq<Attempt> {
    if s == [] then []
    else (if s[0].request == request then [s[0]] else []) + Matching(s[1..], request)
  }

  predicate SameEntry(candidate: Attempt, a: Attempt) {
    candidate.key == a.key && candidate.binding.bindingId == a.binding.bindingId
  }

  function Entries(s: seq<Attempt>, a: Attempt): seq<Attempt> {
    if s == [] then []
    else (if SameEntry(s[0], a) then [s[0]] else []) + Entries(s[1..], a)
  }

  function Without(s: seq<Attempt>, a: Attempt): seq<Attempt> {
    if s == [] then []
    else (if SameEntry(s[0], a) then [] else [s[0]]) + Without(s[1..], a)
  }

  /** The critical section of beginMutationAttempt. */
  function Begin(stored: Stored, request: Request, current: Binding, key: string, now: int, access: Access)
    : Outcome<Attempt>
  {
    match ReadRegistry(stored, access)
    case Err(fault) => Outcome(Err(fault), stored)
    case Ok(attempts) =>
      var matches := Matching(attempts, request);
      if |matches| > 1 then Outcome(Err(BindingFault(RegistryAmbiguous)), stored)
      else if |matches| == 1 then
        match RequireSameBinding(matches[0].binding, current, now) {
          case Ok(_) => Outcome(Ok(matches[0]), stored)
          case Err(reason) => Outcome(Err(BindingFault(reason)), stored)
        }
      else if |attempts| >= MAX_PENDING_ATTEMPTS then Outcome(Err(StorageFault), stored)
      else
        var attempt := Attempt(request, key, Some(now), current);
        if access.Full? then Outcome(Ok(attempt), WriteRegistry(attempts + [attempt]))
        else Outcome(Err(StorageFault), stored)
  }

  /** The critical section of clearMutationAttempt. */
  function Clear(stored: Stored, attempt: Attempt, access: Access): Outcome<()> {
    match ReadRegistry(stored, access)
    case Err(fault) => Outcome(Err(fault), stored)
    case Ok(attempts) =>
      var candidates := Entries(attempts, attempt);
      if |candidates| > 1 || (|candidates| == 1 && candidates[0] != attempt) then
        Outcome(Err(BindingFault(RegistryCorrupt)), stored)
      else if access.Full? then Outcome(Ok(()), WriteRegistry(Without(attempts, attempt)))
      else Outcome(Err(StorageFault), stored)
  }

  /** The stored registry as the browser code mutates it. */
  class RegistryStore {
    var stored: Stored

    constructor ()
      ensures stored == Absent
    {
      stored := Absent;
    }

    /** Two growing sets decide uniqueness in one pass. */
    static method ValidRegistryUniqueness(attempts: seq<Attempt>) returns (ok: bool)
      ensures ok <==> UniqueAttempts(attempts)
    {
      var keys: set<string>, requests: set<Request> := {}, {};
      for n := 0 to |attempts|
        invariant keys == set i | 0 <= i < n :: attempts[i].key
        invariant requests == set i | 0 <= i < n :: attempts[i].request
        invariant UniqueAttempts(attempts[..n])
      {
        var a := attempts[n];
        if a.key in keys || a.request in requests {
          return false;
        }
        keys, requests := keys + {a.key}, requests + {a.request};
      }
      assert attempts[..|attempts|] == attempts;
      return true;
    }

    method ReadMutationRegistry(access: Access) returns (r: Result<seq<Attempt>, Fault>)
      ensures r == ReadRegistry(stored, access)
      ensures access.Blocked? ==> r == Err(StorageFault)
      ensures !access.Blocked? ==>
        && (stored.Absent? ==> r == Ok([]))
        && (stored.Legacy? ==> r == Err(BindingFault(LegacyUnbound)))
        && (stored.Garbled? ==> r == Err(BindingFault(RegistryCorrupt)))
        && (stored.Registry? ==>
              if |stored.attempts| <= 128 && (forall a :: a in stored.attempts ==> ValidAttempt(a)) && UniqueAttempts(stored.attempts)
              then r == Ok(stored.attempts) else r == Err(BindingFault(RegistryCorrupt)))
    {
      if access.Blocked? {
        return Err(StorageFault);
      }
      if stored.Registry? {
        var unique := ValidRegistryUniqueness(stored.attempts);
        var valid := |stored.attempts| <= MAX_PENDING_ATTEMPTS
                     && (forall i :: 0 <= i < |stored.attempts| ==> ValidAttempt(stored.attempts[i]));
        return if valid && unique then Ok(stored.attempts) else Err(BindingFault(RegistryCorrupt));
      }
      return match stored
        case Legacy => Err(BindingFault(LegacyUnbound))
        case Garbled => Err(BindingFault(RegistryCorrupt))
        case _ => Ok([]);
    }

    method WriteMutationRegistry(attempts: seq<Attempt>, access: Access) returns (ok: bool)
      modifies this
      ensures ok == access.Full?
      ensures stored == if access.Full? then WriteRegistry(attempts) else old(stored)
    {
      if !access.Full? {
        return false;
      }
      if |attempts| == 0 {
        stored := Absent;
      } else {
        stored := Registry(attempts);
      }
      return true;
    }

    method BeginMutationAttempt(request: Request, current: Binding, key: string, now: int, access: Access)
      returns (r: Result<Attempt, Fault>)
      modifies this
      ensures Outcome(r, stored) == Begin(old(stored), request, current, key, now, access)
    {
      var registry := ReadMutationRegistry(access);
      if registry.Err? {
        return Err(registry.error);
      }
      var matches := Matching(registry.value, request);
      if |matches| > 1 {
        return Err(BindingFault(RegistryAmbiguous));
      }
      if |matches| == 1 {
        var same := RequireSameBinding(matches[0].binding, current, now);
        return if same.Ok? then Ok(matches[0]) else Err(BindingFault(same.error));
      }
      if |registry.value| >= MAX_PENDING_ATTEMPTS {
        return Err(StorageFault);
      }
      var attempt := Attempt(request, key, Some(now), current);
      var written := WriteMutationRegistry(registry.value + [attempt], access);
      return if written then Ok(attempt) else Err(StorageFault);
    }

    method ClearStoredAttempt(attempt: Attempt, access: Access) returns (r: Result<(), Fault>)
      modifies this
      ensures Outcome(r, stored) == Clear(old(stored), attempt, access)
    {
      var registry := ReadMutationRegistry(access);
      if registry.Err? {
        return Err(registry.error);
      }
      var candidates := Entries(registry.value, attempt);
      if |candidates| > 1 || (|candidates| == 1 && candidates[0] != attempt) {
        return Err(BindingFault(RegistryCorrupt));
      }
      var written := WriteMutationRegistry(Without(registry.value, attempt), access);
      return if written then Ok(()) else Err(StorageFault);
    }
  }

  // ---------------------------------------------------- what the steps keep

  lemma {:induction false} MatchingExact(s: seq<Attempt>, request: Request)
    requires UniqueAttempts(s)
    ensures |Matching(s, request)| <= 1
    ensures |Matching(s, request)| == 0 <==> forall i :: 0 <= i < |s| ==> s[i].request != request
    ensures forall i :: 0 <= i < |s| && s[i].request == request ==> Matching(s, request) == [s[i]]
  {
    if s != [] {
      MatchingExact(s[1..], request);
      assert forall i :: 0 < i < |s| ==> s[i] == s[1..][i - 1];
    }
  }

  lemma {:induction false} RemovalAbsent(s: seq<Attempt>, a: Attempt)
    requires forall i :: 0 <= i < |s| ==> !SameEntry(s[i], a)
    ensures Without(s, a) == s && Entries(s, a) == []
  {
    if s != [] {
      RemovalAbsent(s[1..], a);
    }
  }

  lemma {:induction false} RemovalAt(s: seq<Attempt>, a: Attempt, i: nat)
    requires i < |s| && SameEntry(s[i], a)
    requires forall j :: 0 <= j < |s| && j != i ==> !SameEntry(s[j], a)
    ensures Without(s, a) == s[..i] + s[i + 1..] && Entries(s, a) == [s[i]]
  {
    var rest := s[1..];
    if i == 0 {
      RemovalAbsent(rest, a);
    } else {
      assert forall j :: 0 <= j < |rest| ==> rest[j] == s[j + 1];
      RemovalAt(rest, a, i - 1);
      assert s[..i] == [s[0]] + rest[..i - 1] && s[i + 1..] == rest[i..];
    }
  }

  /** Taking out one attempt leaves exactly the others, and a registry the reader accepts. */
  lemma WellFormedWithoutOne(s: seq<Attempt>, i: nat)
    requires WellFormed(s) && i < |s|
    ensures WellFormed(s[..i] + s[i + 1..])
    ensures forall a :: a in s[..i] + s[i + 1..] <==> a in s && a != s[i]
  {
    var rest := s[..i] + s[i + 1..];
    assert forall j :: 0 <= j < |rest| ==> rest[j] == s[if j < i then j else j + 1];
    forall a | a in s && a != s[i] ensures a in rest {
      var j :| 0 <= j < |s| && s[j] == a;
      assert rest[if j < i then j else j - 1] == a;
    }
  }

  /** A registry that cannot be read is left alone, and the reader's own fault comes back. */
  lemma UnreadableIsLeftAlone(
    stored: Stored, request: Request, attempt: Attempt, current: Binding, key: string, now: int, access: Access)
    requires access.Blocked? || !(stored.Absent? || (stored.Registry? && WellFormed(stored.attempts)))
    ensures var fault := if access.Blocked? then StorageFault
                         else if stored.Legacy? then BindingFault(LegacyUnbound) else BindingFault(RegistryCorrupt);
      && Begin(stored, request, current, key, now, access) == Outcome(Err(fault), stored)
      && Clear(stored, attempt, access) == Outcome(Err(fault), stored)
  {
  }

  /** A request already stored is joined, never stored twice: the same attempt with the same key comes
      back, exactly when its binding is unexpired and matches the current identity. */
  lemma BeginJoins(stored: Stored, a: Attempt, current: Binding, key: string, now: int, access: Access)
    requires Canonical(stored) && a in Attempts(stored)
    ensures var after := Begin(stored, a.request, current, key, now, access);
      && after.stored == stored
      && (after.result.Ok? <==> !access.Blocked? && Unexpired(a.binding, now) && SameIdentity(a.binding, current))
      && (after.result.Ok? ==> after.result.value == a)
      && (access.Blocked? ==> after.result == Err(StorageFault))
      && (!access.Blocked? && !Unexpired(a.binding, now) ==> after.result == Err(BindingFault(AttemptBindingExpired)))
  {
    MatchingExact(Attempts(stored), a.request);
  }

  /** A request not stored is appended under the fresh key, exactly when there is room and the write
      goes through; otherwise the registry is untouched. */
  lemma BeginMints(stored: Stored, request: Request, current: Binding, key: string, now: int, access: Access)
    requires Canonical(stored) && forall a :: a in Attempts(stored) ==> a.request != request && a.key != key
    requires SupportedVerb(request.verb) && ValidBinding(current) && ValidKey(key)
    ensures var after := Begin(stored, request, current, key, now, access);
      var attempt := Attempt(request, key, Some(now), current);
      && Canonical(after.stored)
      && (after.result.Ok? <==> |Attempts(stored)| < MAX_PENDING_ATTEMPTS && access.Full?)
      && (after.result.Ok? ==> after.result.value == attempt && Attempts(after.stored) == Attempts(stored) + [attempt])
      && (after.result.Err? ==> after.result == Err(StorageFault) && after.stored == stored)
  {
    MatchingExact(Attempts(stored), request);
  }

  /** Clearing removes exactly the given attempt and keeps the order of the rest. */
  lemma ClearRemovesExactlyOne(stored: Stored, attempt: Attempt, access: Access, i: nat)
    requires Canonical(stored) && i < |Attempts(stored)| && Attempts(stored)[i] == attempt
    ensures var after := Clear(stored, attempt, access); var before := Attempts(stored);
      && Canonical(after.stored)
      && (after.result.Ok? <==> access.Full?)
      && Attempts(after.stored) == if access.Full? then before[..i] + before[i + 1..] else before
  {
    RemovalAt(Attempts(stored), attempt, i);
    WellFormedWithoutOne(Attempts(stored), i);
  }

  /** Clearing an attempt already gone changes nothing; an entry with its key but another binding id is
      not that attempt. */
  lemma ClearOfAbsentIsNoop(stored: Stored, attempt: Attempt, access: Access)
    requires Canonical(stored)
    requires forall a :: a in Attempts(stored) ==> a.key != attempt.key || a.binding.bindingId != attempt.binding.bindingId
    ensures Clear(stored, attempt, access).stored == stored
    ensures Clear(stored, attempt, access).result.Ok? <==> access.Full?
  {
    RemovalAbsent(Attempts(stored), attempt);
  }

  /** A stored entry that shares key and binding id with the attempt but differs from it is never
      cleared: the clear fails and the registry is untouched. */
  lemma ClearRefusesImpostor(stored: Stored, attempt: Attempt, access: Access, i: nat)
    requires Canonical(stored) && i < |Attempts(stored)|
    requires SameEntry(Attempts(stored)[i], attempt) && Attempts(stored)[i] != attempt
    ensures Clear(stored, attempt, access) ==
      Outcome(Err(if access.Blocked? then StorageFault else BindingFault(RegistryCorrupt)), stored)
  {
    RemovalAt(Attempts(stored), attempt, i);
  }
}
