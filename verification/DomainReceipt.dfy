/** Pending-to-completed domain receipts with compare-and-swap (src/finharness/agent_shell.py,
    src/finharness/statecore/receipt_io.py). */
module DomainReceipt {
  import opened Common

  /** What a receipt is about. Nested JSON documents are kept as their canonical text. */
  datatype Subject =
    | WorldRecovery(record: string, targetWorld: string)
    | PaperEffect(effectIntent: string, admission: string, effectExecutionId: string)

  /** The fields written once, by the pending version. */
  datatype Fixed = Fixed(receiptId: string, createdAt: int, mutationContext: string, request: string, subject: Subject)

  /** A receipt without its content hash. */
  datatype Content =
    | Pending(fixed: Fixed)
    | Completed(fixed: Fixed, completedAt: int, previousHash: Hash, response: string)

  /** canonical_json_sha256, taken as injective: a hash stands for the content hashed. */
  datatype Hash = Sha256(content: Content)

  datatype Receipt = Receipt(content: Content, hash: Hash)

  predicate Intact(r: Receipt) {
    r.hash == Sha256(r.content)
  }

  function Seal(c: Content): Receipt {
    Receipt(c, Sha256(c))
  }

  type File = Option<Receipt>

  /** durable_create_json_exclusive */
  function Create(file: File, r: Receipt): (bool, File) {
    if file.None? then (true, Some(r)) else (false, file)
  }

  /** durable_compare_and_swap_json expecting state "pending"; `None` is an integrity error. */
  function Swap(file: File, expected: Hash, r: Receipt): (Option<bool>, File) {
    if !Intact(r) || file.None? || !Intact(file.value) then (None, file)
    else if file.value.hash != expected || !file.value.content.Pending? then (Some(false), file)
    else (Some(true), Some(r))
  }

  function Completion(pending: Receipt, response: string, at: int): Receipt {
    Seal(Completed(pending.content.fixed, at, pending.hash, response))
  }

  /** `r` is the receipt `pending` with the response given: completed now, chained to the pending version,
      or the completed one it already was. */
  predicate Completes(r: Receipt, pending: Receipt, response: string, at: int) {
    && r.content.Completed? && r.content.response == response && r.content.fixed == pending.content.fixed
    && (if pending.content.Pending? then r.content.completedAt == at && r.content.previousHash == pending.hash && Intact(r)
        else r == pending)
  }

  /** The two operations as one process runs them, with nobody in between. */
  class ReceiptFile {
    var file: File

    constructor ()
      ensures file == None
    {
      file := None;
    }

    method CreateExclusive(r: Receipt) returns (created: bool)
      modifies this
      ensures (created, file) == Create(old(file), r)
      ensures created <==> old(file).None?
      ensures file == if created then Some(r) else old(file)
    {
      if file.Some? {
        return false;
      }
      file := Some(r);
      return true;
    }

    method CompareAndSwap(expected: Hash, r: Receipt) returns (swapped: Option<bool>)
      modifies this
      ensures (swapped, file) == Swap(old(file), expected, r)
      ensures swapped == Some(true) <==>
        && Intact(r) && old(file).Some? && Intact(old(file).value)
        && old(file).value.hash == expected && old(file).value.content.Pending?
      ensures swapped.None? <==> !Intact(r) || old(file).None? || !Intact(old(file).value)
      ensures file == if swapped == Some(true) then Some(r) else old(file)
    {
      if !Intact(r) || file.None? || !Intact(file.value) {
        return None;
      }
      if file.value.hash != expected || !file.value.content.Pending? {
        return Some(false);
      }
      file := Some(r);
      return Some(true);
    }

    /** Succeeds exactly when the path is free or already holds this very pending receipt. */
    method Begin(fixed: Fixed) returns (r: Option<Receipt>)
      modifies this
      ensures var payload := Seal(Pending(fixed));
        && (r.Some? <==> old(file) == None || old(file) == Some(payload))
        && (r.Some? ==> r == Some(payload))
        && file == if old(file).None? then Some(payload) else old(file)
    {
      var payload := Seal(Pending(fixed));
      var created := CreateExclusive(payload);
      if created {
        return Some(payload);
      }
      return if file.value == payload then Some(file.value) else None;
    }

    /** Completing the pending receipt that is stored succeeds; completing anything else returns
        an equal record already stored, or fails and leaves the file alone. */
    method Complete(pending: Receipt, response: string, at: int) returns (r: Option<Receipt>)
      modifies this
      ensures pending.content.Completed? ==>
        && file == old(file)
        && r == if pending.content.response == response then Some(pending) else None
      ensures pending.content.Pending? ==>
        var completed := Completion(pending, response, at);
        if old(file).Some? && Intact(old(file).value) && old(file).value.hash == pending.hash
           && old(file).value.content.Pending?
        then r == Some(completed) && file == Some(completed)
        else file == old(file) && (r.Some? ==> r == Some(completed) && file == Some(completed))
      ensures r.Some? ==> Completes(r.value, pending, response, at)
    {
      if pending.content.Completed? {
        return if pending.content.response == response then Some(pending) else None;
      }
      var completed := Completion(pending, response, at);
      var swapped := CompareAndSwap(pending.hash, completed);
      if swapped == Some(true) {
        return Some(completed);
      }
      if swapped.None? {
        return None;
      }
      return if file.value == completed then Some(completed) else None;
    }
  }

  // ----------------------------------------- many processes, one receipt

  type Process = nat

  /** Between two atomic file operations of one process. */
  datatype Phase =
    | Idle
    | BeginLost(payload: Receipt)
    | Holding(receipt: Receipt)
    | CompleteLost(completed: Receipt, response: string)

  /** A caller that gave `response` was told its completion succeeded, and got `receipt`. */
  datatype Told = Told(p: Process, response: string, receipt: Receipt)

  /** `first`, `wins` and the returns record what has happened; no step reads them. */
  datatype State = State(
    file: File,
    phases: map<Process, Phase>,
    first: File,
    wins: nat,
    begun: set<Receipt>,
    completed: set<Told>)

  datatype Action =
    | BeginCreate(p: Process, fixed: Fixed)
    | BeginRead(p: Process)
    | RecoverRead(p: Process)
    | CompleteSwap(p: Process, response: string, at: int)
    | CompleteRead(p: Process)
    | Crash(p: Process)

  function PhaseOf(s: State, p: Process): Phase {
    if p in s.phases then s.phases[p] else Idle
  }

  function Goto(s: State, p: Process, phase: Phase): State {
    s.(phases := s.phases[p := phase])
  }

  function StepComplete(s: State, p: Process, pending: Receipt, response: string, at: int): State {
    if pending.content.Completed? then
      Goto(if pending.content.response == response then s.(completed := s.completed + {Told(p, response, pending)}) else s,
           p, Idle)
    else
      var completed := Completion(pending, response, at);
      var (swapped, file) := Swap(s.file, pending.hash, completed);
      if swapped.None? then Goto(s, p, Idle)
      else if !swapped.value then Goto(s, p, CompleteLost(completed, response))
      else Goto(s.(file := file, wins := s.wins + 1, completed := s.completed + {Told(p, response, completed)}), p, Idle)
  }

  function Apply(s: State, action: Action): State {
    var phase := PhaseOf(s, action.p);
    match action
    case BeginCreate(p, fixed) =>
      var payload := Seal(Pending(fixed));
      var (created, file) := Create(s.file, payload);
      if !phase.Idle? then s
      else if created then
        Goto(s.(file := file, first := file, begun := s.begun + {payload}), p, Holding(payload))
      else Goto(s, p, BeginLost(payload))
    case BeginRead(p) =>
      if !phase.BeginLost? then s
      else if s.file == Some(phase.payload) then
        Goto(s.(begun := s.begun + {phase.payload}), p, Holding(phase.payload))
      else Goto(s, p, Idle)
    case RecoverRead(p) =>
      if phase.Idle? && s.file.Some? then Goto(s, p, Holding(s.file.value)) else s
    case CompleteSwap(p, response, at) =>
      if phase.Holding? then StepComplete(s, p, phase.receipt, response, at) else s
    case CompleteRead(p) =>
      if !phase.CompleteLost? then s
      else if s.file == Some(phase.completed) then
        Goto(s.(completed := s.completed + {Told(p, phase.response, phase.completed)}), p, Idle)
      else Goto(s, p, Idle)
    case Crash(p) => Goto(s, p, Idle)
  }

  const INIT := State(None, map[], None, 0, {}, {})

  function Run(actions: seq<Action>): State {
    if actions == [] then INIT else Apply(Run(actions[..|actions| - 1]), actions[|actions| - 1])
  }

  /** The stored record is the first pending one, or its one completion. */
  predicate FileInv(s: State) {
    && (s.file.None? <==> s.first.None?)
    && (s.first.Some? ==> s.first.value.content.Pending? && Intact(s.first.value))
    && (s.file.Some? ==>
          && Intact(s.file.value)
          && (s.file == s.first || IsCompletionOf(s.file.value, s.first.value)))
    && s.wins == if s.file.Some? && s.file.value.content.Completed? then 1 else 0
  }

  predicate IsCompletionOf(r: Receipt, pending: Receipt) {
    && r.content.Completed?
    && r.content.fixed == pending.content.fixed
    && r.content.previousHash == pending.hash
  }

  predicate Inv(s: State) {
    && FileInv(s)
    && (forall p :: p in s.phases && s.phases[p].Holding? ==>
          Some(s.phases[p].receipt) == s.first || Some(s.phases[p].receipt) == s.file)
    && (forall p :: p in s.phases && s.phases[p].CompleteLost? ==>
          s.phases[p].completed.content.Completed? && s.phases[p].completed.content.response == s.phases[p].response)
    && (forall p :: p in s.phases && s.phases[p].BeginLost? ==> s.phases[p].payload.content.Pending?)
    && (forall r :: r in s.begun ==> Some(r) == s.first)
    && (forall c :: c in s.completed ==>
          Some(c.receipt) == s.file && c.receipt.content.Completed? && c.receipt.content.response == c.response)
  }

  lemma CompleteKeepsInv(s: State, p: Process, response: string, at: int)
    requires Inv(s) && PhaseOf(s, p).Holding?
    ensures Inv(StepComplete(s, p, PhaseOf(s, p).receipt, response, at))
  {
    var pending := PhaseOf(s, p).receipt;
    if pending.content.Pending? {
      assert Some(pending) == s.first;
    }
  }

  lemma StepKeepsInv(s: State, action: Action)
    requires Inv(s)
    ensures Inv(Apply(s, action))
  {
    if action.CompleteSwap? {
      if PhaseOf(s, action.p).Holding? {
        CompleteKeepsInv(s, action.p, action.response, action.at);
      }
    } else {
      assert Inv(Apply(s, action));
    }
  }

  lemma {:induction false} RunKeepsInv(actions: seq<Action>)
    ensures Inv(Run(actions))
  {
    if actions != [] {
      RunKeepsInv(actions[..|actions| - 1]);
      StepKeepsInv(Run(actions[..|actions| - 1]), actions[|actions| - 1]);
    }
  }

  /** In every run a receipt only goes absent, pending, completed. It is created by a begin, with the
      fields that begin was given; it is completed by a completion, with the response and time that
      completion was given. The request, intent and admission never change; every stored version matches
      its own hash; and the completed version's previous hash is the hash of the pending version it
      replaced. */
  lemma ReceiptOnlyAdvances(actions: seq<Action>, action: Action)
    ensures var before := Run(actions).file; var after := Apply(Run(actions), action).file;
      || after == before
      || (&& before.None? && after.Some? && after.value.content.Pending? && Intact(after.value)
          && action.BeginCreate? && after.value.content.fixed == action.fixed)
      || (&& before.Some? && before.value.content.Pending?
          && after.Some? && Intact(after.value) && IsCompletionOf(after.value, before.value)
          && action.CompleteSwap? && after.value.content.response == action.response
          && after.value.content.completedAt == action.at)
  {
    RunKeepsInv(actions);
    StepKeepsInv(Run(actions), action);
  }

  /** In every run, with any number of completers and recoverers: at most one completion wins; every caller
      told that its completion succeeded holds the one stored record, with the response it gave; and every
      caller whose begin succeeded holds the one pending record that record completes. */
  lemma OneCompletionWins(actions: seq<Action>)
    ensures var s := Run(actions);
      && s.wins <= 1
      && (forall c :: c in s.completed ==>
            s.wins == 1 && s.file == Some(c.receipt) && c.receipt.content.Completed? && c.receipt.content.response == c.response)
      && (forall a, b :: a in s.begun && b in s.begun ==> a == b)
      && (forall a, c :: a in s.begun && c in s.completed ==> IsCompletionOf(c.receipt, a))
  {
    RunKeepsInv(actions);
  }

  /** A process alone: it begins, completes, and is told so; the file holds its response. A second process
      that reads the file and gives the same response is told so too, and one with another is not. */
  lemma CompletionIsTold(p: Process, q: Process, fixed: Fixed, response: string, other: string, at: int, later: int)
    requires p != q
    ensures var done := Apply(Apply(INIT, BeginCreate(p, fixed)), CompleteSwap(p, response, at));
      var again := Apply(Apply(done, RecoverRead(q)), CompleteSwap(q, other, later));
      && done.file.Some? && done.file.value.content.Completed?
      && done.completed == {Told(p, response, done.file.value)}
      && again.file == done.file
      && again.completed == done.completed + (if other == response then {Told(q, other, done.file.value)} else {})
  {
  }

  /** Whatever others did meanwhile, a process that lost a race ends idle: it is told its begin or completion
      succeeded exactly when the file holds the very record it tried to store, and nothing changes. */
  lemma LosersAreAnswered(s: State, p: Process)
    ensures PhaseOf(s, p).BeginLost? ==>
      var payload := PhaseOf(s, p).payload; var t := Apply(s, BeginRead(p));
      && t.file == s.file && t.begun == s.begun + (if s.file == Some(payload) then {payload} else {})
      && PhaseOf(t, p) == if s.file == Some(payload) then Holding(payload) else Idle
    ensures PhaseOf(s, p).CompleteLost? ==>
      var completed := PhaseOf(s, p).completed; var response := PhaseOf(s, p).response; var t := Apply(s, CompleteRead(p));
      && t.file == s.file && PhaseOf(t, p) == Idle
      && t.completed == s.completed + (if s.file == Some(completed) then {Told(p, response, completed)} else {})
  {
  }

  /** A process that dies after losing a race learns nothing: its read no longer answers. */
  lemma CrashForgets(s: State, p: Process)
    ensures var t := Apply(s, Crash(p)); t == s.(phases := t.phases) && Apply(t, BeginRead(p)) == Apply(t, CompleteRead(p)) == t
  {
  }
}

/** Launch records claimed by exclusive create (src/finharness/agent_shell.py). */
module LaunchRecords {
  import opened Common

  /** The stable id of principal, runtime and request id, taken as injective. */
  datatype LaunchId = LaunchId(principalId: string, agentRuntimeId: string, requestId: string)

  datatype Request = Request(requestId: string, content: string)

  /** An id derived from a launch id. */
  datatype DerivedId = DerivedId(prefix: string, launch: LaunchId)

  /** `requestSha` stands for the hash of the whole request, taken as injective. */
  datatype LaunchRecord = LaunchRecord(
    launchId: LaunchId,
    requestSha: Request,
    constitutionId: DerivedId,
    missionId: DerivedId,
    beliefId: DerivedId,
    delegationId: DerivedId,
    createdAt: int)

  function NewRecord(id: LaunchId, request: Request, at: int): LaunchRecord {
    LaunchRecord(id, request, DerivedId("constitution", id), DerivedId("mission", id),
                 DerivedId("belief", id), DerivedId("delegation", id), at)
  }

  datatype Operator = Operator(principalId: string, agentRuntimeId: string)

  function IdFor(operator: Operator, request: Request): LaunchId {
    LaunchId(operator.principalId, operator.agentRuntimeId, request.requestId)
  }

  class LaunchDirectory {
    var files: map<LaunchId, LaunchRecord>

    constructor ()
      ensures files == map[]
    {
      files := map[];
    }

    method ReadLaunch(id: LaunchId, request: Request) returns (r: Option<LaunchRecord>)
      ensures r == if id in files && files[id].requestSha == request then Some(files[id]) else None
    {
      return if id in files && files[id].requestSha == request then Some(files[id]) else None;
    }

    /** `None` is the conflict "request id reused with different semantics". */
    method BeginLaunch(operator: Operator, request: Request, at: int) returns (r: Option<LaunchRecord>)
      modifies this
      ensures var id := IdFor(operator, request);
        && files == (if id in old(files) then old(files) else old(files)[id := NewRecord(id, request, at)])
        && (r.Some? <==> files[id].requestSha == request)
        && (r.Some? ==> r.value == files[id])
        && (id !in old(files) ==> r.Some? && Genuine(id, r.value) && r.value.requestSha == request && r.value.createdAt == at)
    {
      var id := IdFor(operator, request);
      if id in files {
        r := ReadLaunch(id, request);
        return;
      }
      var record := NewRecord(id, request, at);
      files := files[id := record];
      return Some(record);
    }
  }

  type Process = nat

  /** A caller between the exists test, the exclusive create and the read. */
  datatype Phase = Idle | Creating(record: LaunchRecord) | Reading(id: LaunchId, request: Request)

  /** `Conflict` when `record` is `None`. */
  datatype Return = Return(id: LaunchId, request: Request, record: Option<LaunchRecord>)

  datatype State = State(files: map<LaunchId, LaunchRecord>, phases: map<Process, Phase>, answers: set<Return>)

  datatype Action =
    | Launch(p: Process, operator: Operator, request: Request, at: int)
    | Create(p: Process)
    | Read(p: Process)
    | Crash(p: Process)

  function PhaseOf(s: State, p: Process): Phase {
    if p in s.phases then s.phases[p] else Idle
  }

  function Finish(s: State, p: Process, r: Return): State {
    s.(phases := s.phases[p := Idle], answers := s.answers + {r})
  }

  function StepLaunch(s: State, p: Process, operator: Operator, request: Request, at: int): State {
    var id := IdFor(operator, request);
    var next := if id in s.files then Reading(id, request) else Creating(NewRecord(id, request, at));
    if PhaseOf(s, p).Idle? then s.(phases := s.phases[p := next]) else s
  }

  function StepCreate(s: State, p: Process): State {
    var phase := PhaseOf(s, p);
    if !phase.Creating? then s
    else
      var record := phase.record;
      if record.launchId in s.files then s.(phases := s.phases[p := Reading(record.launchId, record.requestSha)])
      else Finish(s.(files := s.files[record.launchId := record]), p,
                  Return(record.launchId, record.requestSha, Some(record)))
  }

  function StepRead(s: State, p: Process): State {
    var phase := PhaseOf(s, p);
    if !phase.Reading? || phase.id !in s.files then s
    else
      var stored := s.files[phase.id];
      Finish(s, p, Return(phase.id, phase.request, if stored.requestSha == phase.request then Some(stored) else None))
  }

  function Apply(s: State, action: Action): State {
    match action
    case Launch(p, operator, request, at) => StepLaunch(s, p, operator, request, at)
    case Create(p) => StepCreate(s, p)
    case Read(p) => StepRead(s, p)
    case Crash(p) => s.(phases := s.phases[p := Idle])
  }

  function Run(actions: seq<Action>): State {
    if actions == [] then State(map[], map[], {})
    else Apply(Run(actions[..|actions| - 1]), actions[|actions| - 1])
  }

  /** The record of a launch: four ids derived from that launch alone, no two alike. */
  predicate Genuine(id: LaunchId, record: LaunchRecord) {
    && record.launchId == id && record.requestSha.requestId == id.requestId
    && record.constitutionId == DerivedId("constitution", id) && record.missionId == DerivedId("mission", id)
    && record.beliefId == DerivedId("belief", id) && record.delegationId == DerivedId("delegation", id)
  }

  function DerivedIds(record: LaunchRecord): seq<DerivedId> {
    [record.constitutionId, record.missionId, record.beliefId, record.delegationId]
  }

  /** Some caller launched exactly this, at the time the record bears. */
  predicate Launched(actions: seq<Action>, record: LaunchRecord) {
    exists i :: 0 <= i < |actions| && actions[i].Launch? && LaunchedBy(actions[i], record)
  }

  predicate LaunchedBy(action: Action, record: LaunchRecord)
    requires action.Launch?
  {
    && record.launchId
         == LaunchId(action.operator.principalId, action.operator.agentRuntimeId, action.request.requestId)
    && record.requestSha == action.request && record.createdAt == action.at
  }

  predicate Inv(s: State) {
    && (forall id :: id in s.files ==> Genuine(id, s.files[id]))
    && (forall p :: p in s.phases && s.phases[p].Creating? ==>
          Genuine(s.phases[p].record.launchId, s.phases[p].record))
    && (forall p :: p in s.phases && s.phases[p].Reading? ==> s.phases[p].id in s.files)
    && (forall r :: r in s.answers ==>
          && r.id in s.files
          && r.record == if s.files[r.id].requestSha == r.request then Some(s.files[r.id]) else None)
  }

  lemma LaunchKeepsInv(s: State, p: Process, operator: Operator, request: Request, at: int)
    requires Inv(s)
    ensures Inv(StepLaunch(s, p, operator, request, at))
  {
  }

  lemma CreateKeepsInv(s: State, p: Process)
    requires Inv(s)
    ensures Inv(StepCreate(s, p))
  {
  }

  lemma ReadKeepsInv(s: State, p: Process)
    requires Inv(s)
    ensures Inv(StepRead(s, p))
  {
  }

  lemma StepKeepsInv(s: State, action: Action)
    requires Inv(s)
    ensures Inv(Apply(s, action))
  {
    match action
    case Launch(p, operator, request, at) => LaunchKeepsInv(s, p, operator, request, at);
    case Create(p) => CreateKeepsInv(s, p);
    case Read(p) => ReadKeepsInv(s, p);
    case Crash(_) =>
  }

  lemma {:induction false} RunKeepsInv(actions: seq<Action>)
    ensures Inv(Run(actions))
  {
    if actions != [] {
      RunKeepsInv(actions[..|actions| - 1]);
      StepKeepsInv(Run(actions[..|actions| - 1]), actions[|actions| - 1]);
    }
  }

  lemma LaunchedGrows(actions: seq<Action>, action: Action, record: LaunchRecord)
    requires Launched(actions, record)
    ensures Launched(actions + [action], record)
  {
    var i :| 0 <= i < |actions| && actions[i].Launch? && LaunchedBy(actions[i], record);
    assert (actions + [action])[i] == actions[i];
  }

  predicate AllLaunched(actions: seq<Action>, s: State) {
    && (forall id :: id in s.files ==> Launched(actions, s.files[id]))
    && (forall p :: p in s.phases && s.phases[p].Creating? ==> Launched(actions, s.phases[p].record))
  }

  lemma {:induction false} RunLaunched(actions: seq<Action>)
    ensures AllLaunched(actions, Run(actions))
  {
    if actions != [] {
      var init, last := actions[..|actions| - 1], actions[|actions| - 1];
      RunLaunched(init);
      assert actions == init + [last];
      forall record | Launched(init, record) ensures Launched(actions, record) {
        LaunchedGrows(init, last, record);
      }
      if last.Launch? {
        var record := NewRecord(IdFor(last.operator, last.request), last.request, last.at);
        assert LaunchedBy(actions[|actions| - 1], record);
      }
    }
  }

  /** In every run, each stored record bears the principal, runtime, request and time of one launch made,
      and the derived ids of one record, or of two, are never the same. */
  lemma RecordsAreLaunches(actions: seq<Action>, a: LaunchId, b: LaunchId)
    requires a in Run(actions).files && b in Run(actions).files
    ensures Launched(actions, Run(actions).files[a])
    ensures Distinct(DerivedIds(Run(actions).files[a]))
    ensures a != b ==>
      forall x :: x in DerivedIds(Run(actions).files[a]) ==> x !in DerivedIds(Run(actions).files[b])
  {
    RunKeepsInv(actions);
    RunLaunched(actions);
  }

  /** Every launch is answered, whatever others did in between: a caller that found no record, and then tries
      to create and reads, ends with the record stored under its id if that was made for its request, and
      with the conflict otherwise. */
  lemma LaunchIsAnswered(s: State, p: Process)
    requires Inv(s) && PhaseOf(s, p).Creating?
    ensures var record := PhaseOf(s, p).record; var t := Apply(Apply(s, Create(p)), Read(p));
      && PhaseOf(t, p).Idle? && record.launchId in t.files
      && t.files[record.launchId] == (if record.launchId in s.files then s.files[record.launchId] else record)
      && Return(record.launchId, record.requestSha,
                if t.files[record.launchId].requestSha == record.requestSha then Some(t.files[record.launchId]) else None)
           in t.answers
  {
  }

  /** A caller that dies on the way neither creates nor reads any more. */
  lemma CrashForgets(s: State, p: Process)
    ensures var t := Apply(s, Crash(p)); t == s.(phases := t.phases) && Apply(t, Create(p)) == Apply(t, Read(p)) == t
  {
  }

  /** An idle caller that launches is on its way to create, or to read what is there. */
  lemma LaunchStarts(s: State, p: Process, operator: Operator, request: Request, at: int)
    requires PhaseOf(s, p).Idle?
    ensures var id := LaunchId(operator.principalId, operator.agentRuntimeId, request.requestId);
      var phase := PhaseOf(Apply(s, Launch(p, operator, request, at)), p);
      if id in s.files then phase == Reading(id, request)
      else phase.Creating? && phase.record.launchId == id && phase.record.requestSha == request && phase.record.createdAt == at
  {
  }

  /** For any number of racing callers and crashes, all successful launches with one principal,
      runtime and request id return one identical record, carrying the ids derived from that triple,
      and a caller whose request content differs from a successful one always gets the conflict. */
  lemma LaunchesAgree(actions: seq<Action>, a: Return, b: Return)
    requires a in Run(actions).answers && b in Run(actions).answers
    requires a.id == b.id && a.record.Some?
    ensures Genuine(a.id, a.record.value) && a.record.value.requestSha == a.request
    ensures b.record == if b.request == a.request then a.record else None
  {
    RunKeepsInv(actions);
  }

  /** A record, once created, is never replaced. */
  lemma LaunchRecordImmutable(actions: seq<Action>, action: Action, id: LaunchId)
    requires id in Run(actions).files
    ensures var after := Apply(Run(actions), action); id in after.files && after.files[id] == Run(actions).files[id]
  {
    RunKeepsInv(actions);
  }
}
