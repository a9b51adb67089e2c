/**
 The two-party IPC protocol: the Rust dispatcher with its bounded correlation tracker (os/src/ipc.rs) and the
 Python bridge with its unbounded one (services/ipc/rust_bridge.py). Envelopes are values with a message type,
 a correlation id and a typed or malformed payload.
 */
module Ipc {
  import opened Common
  import opened Text
  import EventBuses
  import opened EnergyManagers
  import opened Policies

  datatype Authority = Auth | Transition | Energy | Storage | Memory

  /** The twelve message classes. */
  datatype MessageType = EventMessage | StateUpdate | Request(authority: Authority) | Response(authority: Authority)

  datatype Extra = Plain | StorageExtra(retention: bool, encryption: bool)
                 | MemoryExtra(target: Option<string>, retention: bool, tierChanged: bool)

  datatype Decision = Decision(allowed: bool, reason: Option<string>, extra: Extra)

  /** Payloads; enumerated strings the Rust side cannot parse are `None`, any other object is `Malformed`. */
  datatype Body =
    | EventBody(event: Option<EventBuses.Event>)
    | AuthBody(user: string, tier: string, action: string, authenticated: bool)
    | TransitionBody(current: string, requested: string)
    | EnergyBody(battery: EventBuses.u8, execution: Option<ExecutionType>)
    | StorageBody(operation: Option<StorageOperation>, state: string, mode: Option<EnergyMode>,
                  execution: Option<ExecutionType>, encryptionPresent: bool, keyId: Option<string>)
    | MemoryBody(state: string, memoryOperation: Option<MemoryOperation>, mode: Option<EnergyMode>,
                 storagePermission: bool, flags: MemoryFlags)
    | DecisionBody(decision: Decision)
    | Malformed

  datatype Letter = Letter(kind: MessageType, id: string, body: Body)

  /** Who may do what is decided elsewhere; here any deterministic access policy. */
  type AccessPolicy = (string, string, bool, string) -> (bool, Option<string>)

  // ---- What the Rust authority answers --------------------------------------------------

  function NoReason(reason: string): Option<string> { if reason == "" then None else Some(reason) }

  function Deny(a: Authority, reason: string): Decision {
    Decision(false, Some(reason),
      match a case Storage => StorageExtra(false, false) case Memory => MemoryExtra(None, false, false) case _ => Plain)
  }

  datatype LifecycleState = Pending | Completed | Archived

  function ParseLifecycleState(s: string): Option<LifecycleState> {
    if EqIgnoreCase(Trim(s), "pending") then Some(Pending)
    else if EqIgnoreCase(Trim(s), "completed") then Some(Completed)
    else if EqIgnoreCase(Trim(s), "archived") then Some(Archived)
    else None
  }

  function ValidateTransition(current: string, requested: string): Decision {
    match (ParseLifecycleState(current), ParseLifecycleState(requested))
    case (Some(Archived), Some(_)) => Decision(false, Some("ARCHIVED_TERMINAL"), Plain)
    case (Some(from), Some(to)) =>
      if (from.Pending? && !to.Pending?) || (from.Completed? && to.Archived?) then Decision(true, None, Plain)
      else Decision(false, Some("INVALID_TRANSITION"), Plain)
    case _ => Decision(false, Some("UNKNOWN_STATE"), Plain)
  }

  function LifecycleRank(s: LifecycleState): nat { match s case Pending => 0 case Completed => 1 case Archived => 2 }

  /** A lifecycle transition is valid exactly if both names parse and the state moves strictly forward. */
  lemma TransitionsMoveForward(current: string, requested: string)
    ensures ValidateTransition(current, requested).allowed <==>
      && ParseLifecycleState(current).Some? && ParseLifecycleState(requested).Some?
      && LifecycleRank(ParseLifecycleState(current).value) < LifecycleRank(ParseLifecycleState(requested).value)
  {
  }

  function AnswerEnergy(b: Body): Decision {
    if !b.EnergyBody? then Deny(Energy, "INVALID_ENERGY_REQUEST")
    else if b.execution.None? then Deny(Energy, "UNKNOWN_EXECUTION_TYPE")
    else
      var d := AuthorizeExecution(DetermineMode(b.battery), b.execution.value);
      Decision(d.allowed, d.reason, Plain)
  }

  function AnswerStorage(b: Body): Decision {
    if !b.StorageBody? then Deny(Storage, "INVALID_STORAGE_REQUEST")
    else if b.operation.None? then Deny(Storage, "UNKNOWN_STORAGE_OPERATION")
    else if b.mode.None? then Deny(Storage, "UNKNOWN_ENERGY_MODE")
    else if b.execution.None? then Deny(Storage, "UNKNOWN_EXECUTION_TYPE")
    else
      var d := DetermineStoragePolicy(
                 b.operation.value, b.state, b.mode.value, b.execution.value, b.encryptionPresent, b.keyId);
      Decision(d.allowed, NoReason(d.reason), StorageExtra(d.retentionApplied, d.encryptionVerified))
  }

  function AnswerMemory(b: Body): Decision {
    if !b.MemoryBody? then Deny(Memory, "INVALID_MEMORY_REQUEST")
    else if b.memoryOperation.None? then Deny(Memory, "UNKNOWN_MEMORY_OPERATION")
    else if b.mode.None? then Deny(Memory, "UNKNOWN_ENERGY_MODE")
    else
      var d := DetermineMemoryTransition(b.state, b.mode.value, b.storagePermission, b.memoryOperation.value, b.flags);
      Decision(d.allowed, NoReason(d.reason), MemoryExtra(d.target, d.retentionApplied, d.tierChanged))
  }

  function Answer(access: AccessPolicy, a: Authority, b: Body): Decision {
    match a
    case Auth =>
      if !b.AuthBody? then Deny(Auth, "INVALID_AUTH_REQUEST")
      else
        var (allowed, reason) := access(b.user, b.tier, b.authenticated, b.action);
        Decision(allowed, reason, Plain)
    case Transition =>
      if !b.TransitionBody? then Deny(Transition, "INVALID_TRANSITION_REQUEST")
      else ValidateTransition(b.current, b.requested)
    case Energy => AnswerEnergy(b)
    case Storage => AnswerStorage(b)
    case Memory => AnswerMemory(b)
  }

  // ---- Correlation tracking -------------------------------------------------------------

  /** A tracker that remembers `n` ids accepts those it does not remember. */
  function Accept(n: nat, accepted: seq<string>, id: string): seq<string> {
    if id in LastN(accepted, n) then accepted else accepted + [id]
  }

  /** Ids accepted as new when `ids` are marked in order by a tracker that remembers `n` of them. */
  ghost function Accepted(n: nat, ids: seq<string>): seq<string> {
    if ids == [] then [] else Accept(n, Accepted(n, ids[..|ids| - 1]), ids[|ids| - 1])
  }

  function Remember(n: nat, queue: seq<string>, id: string): seq<string> {
    if id in queue then queue else LastN(queue + [id], n)
  }

  /** Remembering the last ids one by one is remembering the last of all accepted ids. */
  lemma RememberIsLast(n: nat, accepted: seq<string>, id: string)
    requires n > 0
    ensures Remember(n, LastN(accepted, n), id) == LastN(Accept(n, accepted, id), n)
  {
    LastNAppend(accepted, id, n);
  }

  lemma {:induction false} AcceptedWereMarked(n: nat, ids: seq<string>)
    ensures forall id | id in Accepted(n, ids) :: id in ids
    decreases |ids|
  {
    if ids != [] { AcceptedWereMarked(n, ids[..|ids| - 1]); }
  }

  /** Any n + 1 consecutive accepted ids differ, so a repeat is separated by at least n acceptances of other ids. */
  lemma {:induction false} RepeatsAreFarApart(n: nat, ids: seq<string>, i: nat, j: nat)
    requires i < j < |Accepted(n, ids)| && j - i <= n
    ensures Accepted(n, ids)[i] != Accepted(n, ids)[j]
    decreases |ids|
  {
    var before := ids[..|ids| - 1];
    var acc := Accepted(n, before);
    if j < |acc| {
      RepeatsAreFarApart(n, before, i, j);
    } else {
      assert acc[i] == LastN(acc, n)[if |acc| <= n then i else i - (|acc| - n)];
    }
  }

  lemma AcceptedStep(n: nat, ids: seq<string>, id: string)
    ensures Accepted(n, ids + [id]) == Accept(n, Accepted(n, ids), id)
  {
    assert (ids + [id])[..|ids|] == ids;
  }

  lemma MarkStep(n: nat, acc: seq<string>, id: string)
    requires n >= 1 && NoDuplicates(LastN(acc, n)) && id !in LastN(acc, n)
    ensures var q := LastN(acc, n);
      && LastN(acc + [id], n) == LastN(q + [id], n)
      && NoDuplicates(q + [id]) && Elements(q + [id]) == Elements(q) + {id}
      && id in LastN(q + [id], n)
  {
    var q := LastN(acc, n);
    var r := LastN(q + [id], n);
    LastNAppend(acc, id, n);
    NoDuplicatesAppend(q, id);
    ElementsConcat(q, [id]);
    assert r[|r| - 1] == id;
  }

  class CorrelationTracker {
    var members: set<string>
    var queue: seq<string>
    const maxEntries: nat
    ghost var marked: seq<string>  // every id ever offered

    ghost predicate Valid()
      reads this
    {
      && maxEntries >= 1 && queue == LastN(Accepted(maxEntries, marked), maxEntries)
      && members == Elements(queue) && NoDuplicates(queue)
    }

    constructor (entries: nat)
      ensures Valid() && maxEntries == Max(entries, 1) && marked == []
    {
      maxEntries := Max(entries, 1);
      members, queue, marked := {}, [], [];
    }

    method MarkSeen(id: string) returns (isNew: bool)
      requires Valid()
      modifies this
      ensures Valid() && marked == old(marked) + [id]
      ensures isNew <==> id !in LastN(Accepted(maxEntries, old(marked)), maxEntries)
      ensures isNew <==> id !in old(queue)
      ensures queue == Remember(maxEntries, old(queue), id) && id in queue
    {
      AcceptedStep(maxEntries, marked, id);
      if id in members {
        marked := marked + [id];
        return false;
      }
      MarkStep(maxEntries, Accepted(maxEntries, marked), id);
      marked := marked + [id];
      members := members + {id};
      queue := queue + [id];
      EvictOldest();
      return true;
    }

    method EvictOldest()
      requires maxEntries >= 1 && members == Elements(queue) && NoDuplicates(queue)
      modifies this`members, this`queue
      ensures queue == LastN(old(queue), maxEntries) && members == Elements(queue) && NoDuplicates(queue)
    {
      while |queue| > maxEntries
        invariant |queue| >= maxEntries || queue == old(queue)
        invariant |queue| <= |old(queue)| && queue == old(queue)[|old(queue)| - |queue|..]
        invariant members == Elements(queue) && NoDuplicates(queue)
        decreases |queue|
      {
        var oldest := queue[0];
        assert queue == [oldest] + queue[1..];
        queue := queue[1..];
        members := members - {oldest};
      }
    }
  }

  // ---- One delivery on each side --------------------------------------------------------

  datatype DispatchResult =
    | Ignored
    | DuplicateIgnored
    | EventForwarded(event: EventBuses.Event)
    | StateUpdateAccepted
    | Reply(letter: Letter)

  /** dispatch_incoming for an id that is new to the tracker. */
  function Dispatch(access: AccessPolicy, m: Letter): DispatchResult {
    match m.kind
    case StateUpdate => StateUpdateAccepted
    case EventMessage =>
      if m.body.EventBody? && m.body.event.Some? then EventForwarded(m.body.event.value) else Ignored
    case Request(a) => Reply(Letter(Response(a), m.id, DecisionBody(Answer(access, a, m.body))))
    case Response(_) => Ignored
  }

  lemma DispatchKeepsId(access: AccessPolicy, m: Letter)
    ensures Dispatch(access, m).Reply? ==> m.kind.Request? && Dispatch(access, m).letter.id == m.id
  {
  }

  // ---- What the replies say, on the request's own terms ---------------------------------

  ghost function ReplyTo(access: AccessPolicy, a: Authority, id: string, b: Body): Decision {
    var r := Dispatch(access, Letter(Request(a), id, b));
    if r.Reply? && r.letter.body.DecisionBody? then r.letter.body.decision else Decision(false, None, Plain)
  }

  /** The text names this state: blanks around it and case do not matter. */
  ghost predicate Names(text: string, state: string) { EqIgnoreCase(Trim(text), state) }

  ghost predicate NamesAny(text: string) {
    Names(text, "pending") || Names(text, "completed") || Names(text, "archived")
  }

  /** A transition request: exactly the moves forward, and the reason of every refusal. */
  lemma TransitionReply(access: AccessPolicy, id: string, current: string, requested: string)
    ensures var d := ReplyTo(access, Transition, id, TransitionBody(current, requested));
      && (d.allowed <==>
            || (Names(current, "pending") && (Names(requested, "completed") || Names(requested, "archived")))
            || (Names(current, "completed") && Names(requested, "archived")))
      && (d.allowed ==> d.reason == None)
      && (!NamesAny(current) || !NamesAny(requested) ==> d.reason == Some("UNKNOWN_STATE"))
      && (Names(current, "archived") && NamesAny(requested) ==> d.reason == Some("ARCHIVED_TERMINAL"))
      && (!d.allowed && NamesAny(current) && NamesAny(requested) && !Names(current, "archived") ==>
            d.reason == Some("INVALID_TRANSITION"))
  {
    assert |"pending"| == 7 && |"completed"| == 9 && |"archived"| == 8;
  }

  /** An energy request: by the battery's percentage and the class of execution. */
  lemma EnergyReply(access: AccessPolicy, id: string, battery: EventBuses.u8, execution: Option<ExecutionType>)
    ensures var d := ReplyTo(access, Energy, id, EnergyBody(battery, execution));
      && (d.allowed <==>
            && execution.Some?
            && (execution.value == BackgroundTask ==> battery >= 50)
            && (execution.value == LLM || execution.value == ExecutionType.Proactive ==> battery >= 20))
      && (execution.None? ==> d.reason == Some("UNKNOWN_EXECUTION_TYPE"))
  {
  }

  /** An authorization request: what the access policy says of this user, tier, session and action. */
  lemma AuthReply(access: AccessPolicy, id: string, user: string, tier: string, action: string, authenticated: bool)
    ensures var d := ReplyTo(access, Auth, id, AuthBody(user, tier, action, authenticated));
      (d.allowed, d.reason) == access(user, tier, authenticated, action)
  {
  }

  /** A storage request: unknown words first, then the policy on the request's own fields. */
  lemma StorageReply(access: AccessPolicy, id: string, b: Body)
    requires b.StorageBody?
    ensures var d := ReplyTo(access, Storage, id, b);
      && d.extra.StorageExtra?
      && (b.operation.None? ==> d.reason == Some("UNKNOWN_STORAGE_OPERATION"))
      && (b.operation.Some? && b.mode.None? ==> d.reason == Some("UNKNOWN_ENERGY_MODE"))
      && (b.operation.Some? && b.mode.Some? && b.execution.None? ==> d.reason == Some("UNKNOWN_EXECUTION_TYPE"))
      && var known := b.operation.Some? && b.mode.Some? && b.execution.Some?;
         if !known then d == Decision(false, d.reason, StorageExtra(false, false))
         else
           var p := DetermineStoragePolicy(b.operation.value, b.state, b.mode.value, b.execution.value,
                                           b.encryptionPresent, b.keyId);
           && d.allowed == p.allowed && d.extra.retention == p.retentionApplied
           && d.extra.encryption == p.encryptionVerified && (d.reason == if p.allowed then None else Some(p.reason))
  {
  }

  /** A memory request: unknown words first, then the policy on the request's own fields. */
  lemma MemoryReply(access: AccessPolicy, id: string, b: Body)
    requires b.MemoryBody?
    ensures var d := ReplyTo(access, Memory, id, b);
      && d.extra.MemoryExtra?
      && (b.memoryOperation.None? ==> d.reason == Some("UNKNOWN_MEMORY_OPERATION"))
      && (b.memoryOperation.Some? && b.mode.None? ==> d.reason == Some("UNKNOWN_ENERGY_MODE"))
      && if b.memoryOperation.None? || b.mode.None? then d == Decision(false, d.reason, MemoryExtra(None, false, false))
         else
           var p := DetermineMemoryTransition(b.state, b.mode.value, b.storagePermission, b.memoryOperation.value,
                                              b.flags);
           && d.allowed == p.allowed && d.extra.target == p.target && d.extra.retention == p.retentionApplied
           && d.extra.tierChanged == p.tierChanged && (d.reason == if p.allowed then None else Some(p.reason))
  {
  }

  /** A request whose payload is not of its type is denied under the name of its type. */
  lemma MalformedReply(access: AccessPolicy, a: Authority, id: string, b: Body)
    requires match a
      case Auth => !b.AuthBody?
      case Transition => !b.TransitionBody?
      case Energy => !b.EnergyBody?
      case Storage => !b.StorageBody?
      case Memory => !b.MemoryBody?
    ensures var d := ReplyTo(access, a, id, b);
      && !d.allowed
      && d.reason == Some(match a
                          case Auth => "INVALID_AUTH_REQUEST"
                          case Transition => "INVALID_TRANSITION_REQUEST"
                          case Energy => "INVALID_ENERGY_REQUEST"
                          case Storage => "INVALID_STORAGE_REQUEST"
                          case Memory => "INVALID_MEMORY_REQUEST")
      && d.extra == (match a
                     case Storage => StorageExtra(false, false)
                     case Memory => MemoryExtra(None, false, false)
                     case _ => Plain)
  {
  }

  // ---- The Python side ------------------------------------------------------------------

  /** process_line for an id that is new to the bridge: only an EVENT is answered. */
  function Acknowledge(m: Letter): Option<Letter> {
    if m.kind.EventMessage? then Some(Letter(StateUpdate, m.id, Malformed)) else None
  }

  predicate RustAccepts(id: string) { Trim(id) != "" && Utf8Length(id) <= 128 }

  predicate PythonAccepts(id: string) { !IsBlank(id) }

  // ---- The two-party system -------------------------------------------------------------

  /**
   Both pipes, both memories, and what each side has put on a pipe of its own accord or as an answer. `accepted` is
   every id the Rust tracker ever accepted, of which it remembers the last ones.
   */
  datatype Net = Net(
    toPython: seq<Letter>, toRust: seq<Letter>, accepted: seq<string>, seen: set<string>, pythonSent: seq<Letter>,
    replies: seq<Letter>, acks: seq<Letter>, rustSent: seq<Letter>, deliveries: nat)

  const QUIET := Net([], [], [], {}, [], [], [], [], 0)

  datatype Move = RustSends(m: Letter) | PythonSends(m: Letter) | ToRust | ToPython

  predicate CanMove(s: Net, a: Move) {
    match a case ToRust => s.toRust != [] case ToPython => s.toPython != [] case _ => true
  }

  function Deliver(n: nat, access: AccessPolicy, s: Net, a: Move): Net
    requires CanMove(s, a)
  {
    match a
    case RustSends(m) =>
      s.(toPython := s.toPython + [m], accepted := Accept(n, s.accepted, m.id), rustSent := s.rustSent + [m])
    case PythonSends(m) => s.(toRust := s.toRust + [m], pythonSent := s.pythonSent + [m])
    case ToRust =>
      var m, s' := s.toRust[0], s.(toRust := s.toRust[1..], deliveries := s.deliveries + 1);
      if !RustAccepts(m.id) then s'
      else
        var s'' := s'.(accepted := Accept(n, s.accepted, m.id));
        var r := Dispatch(access, m);
        if m.id in LastN(s.accepted, n) || !r.Reply? then s''
        else s''.(toPython := s.toPython + [r.letter], replies := s.replies + [r.letter])
    case ToPython =>
      var m, s' := s.toPython[0], s.(toPython := s.toPython[1..], deliveries := s.deliveries + 1);
      if !PythonAccepts(m.id) || m.id in s.seen then s'
      else
        var s'', ack := s'.(seen := s.seen + {m.id}), Acknowledge(m);
        if ack.None? then s'' else s''.(toRust := s.toRust + [ack.value], acks := s.acks + [ack.value])
  }

  ghost function AfterMoves(n: nat, access: AccessPolicy, moves: seq<Move>): Option<Net> {
    if moves == [] then Some(QUIET)
    else
      var before, a := AfterMoves(n, access, moves[..|moves| - 1]), moves[|moves| - 1];
      if before.Some? && CanMove(before.value, a) then Some(Deliver(n, access, before.value, a)) else None
  }

  lemma AfterOneMore(n: nat, access: AccessPolicy, moves: seq<Move>, s: Net, a: Move)
    requires AfterMoves(n, access, moves) == Some(s) && CanMove(s, a)
    ensures AfterMoves(n, access, moves + [a]) == Some(Deliver(n, access, s, a))
  {
    assert (moves + [a])[..|moves|] == moves;
  }

  /** Deliveries a letter can still cause, itself included. */
  ghost function WeightToPython(m: Letter): nat { if m.kind.EventMessage? then 2 else 1 }

  ghost function WeightToRust(m: Letter): nat { if m.kind.Request? then 2 else 1 }

  ghost function PythonPipe(ms: seq<Letter>): nat {
    if ms == [] then 0 else WeightToPython(ms[0]) + PythonPipe(ms[1..])
  }

  ghost function RustPipe(ms: seq<Letter>): nat {
    if ms == [] then 0 else WeightToRust(ms[0]) + RustPipe(ms[1..])
  }

  ghost function Weight(s: Net): nat { PythonPipe(s.toPython) + RustPipe(s.toRust) }

  lemma {:induction false} PythonPipeAppend(ms: seq<Letter>, m: Letter)
    ensures PythonPipe(ms + [m]) == PythonPipe(ms) + WeightToPython(m)
    decreases |ms|
  {
    if ms == [] {
      assert [m][1..] == [];
    } else {
      assert (ms + [m])[1..] == ms[1..] + [m];
      PythonPipeAppend(ms[1..], m);
    }
  }

  lemma {:induction false} RustPipeAppend(ms: seq<Letter>, m: Letter)
    ensures RustPipe(ms + [m]) == RustPipe(ms) + WeightToRust(m)
    decreases |ms|
  {
    if ms == [] {
      assert [m][1..] == [];
    } else {
      assert (ms + [m])[1..] == ms[1..] + [m];
      RustPipeAppend(ms[1..], m);
    }
  }

  /** Every delivery lowers the weight, whatever the tracker has forgotten; a fresh send adds at most two. */
  lemma DeliveryLowersWeight(n: nat, access: AccessPolicy, s: Net, a: Move)
    requires CanMove(s, a)
    ensures var s' := Deliver(n, access, s, a);
      if a.ToRust? || a.ToPython? then Weight(s') < Weight(s) && s'.deliveries == s.deliveries + 1
      else Weight(s') <= Weight(s) + 2 && s'.deliveries == s.deliveries
  {
    match a
    case RustSends(m) => PythonPipeAppend(s.toPython, m);
    case PythonSends(m) => RustPipeAppend(s.toRust, m);
    case ToRust =>
      if Dispatch(access, s.toRust[0]).Reply? { PythonPipeAppend(s.toPython, Dispatch(access, s.toRust[0]).letter); }
    case ToPython =>
      if Acknowledge(s.toPython[0]).Some? { RustPipeAppend(s.toRust, Acknowledge(s.toPython[0]).value); }
  }

  /** `r` is the authority's own answer to the request `q`. */
  ghost predicate Answers(access: AccessPolicy, r: Letter, q: Letter) {
    && q.kind.Request? && r.kind == Response(q.kind.authority) && r.id == q.id
    && r.body == DecisionBody(Answer(access, q.kind.authority, q.body))
  }

  /** Every answer has its cause, sent by the other side of its own accord. */
  ghost predicate Caused(access: AccessPolicy, s: Net) {
    && (forall r | r in s.replies :: exists q | q in s.pythonSent :: Answers(access, r, q))
    && (forall k | k in s.acks ::
          k.kind.StateUpdate? && exists e | e in s.rustSent :: e.kind.EventMessage? && e.id == k.id)
    && (forall m | m in s.toPython :: m in s.rustSent || m in s.replies)
    && (forall m | m in s.toRust :: m in s.pythonSent || m in s.acks)
  }

  lemma DeliveryKeepsCauses(n: nat, access: AccessPolicy, s: Net, a: Move)
    requires Caused(access, s) && CanMove(s, a)
    ensures Caused(access, Deliver(n, access, s, a))
  {
    var s' := Deliver(n, access, s, a);
    assert forall m | m in s.pythonSent :: m in s'.pythonSent;
    assert forall m | m in s.rustSent :: m in s'.rustSent;
    if a.ToRust? {
      var m := s.toRust[0];
      assert m in s.toRust;
      assert Dispatch(access, m).Reply? ==> Answers(access, Dispatch(access, m).letter, m);
    } else if a.ToPython? {
      var m := s.toPython[0];
      assert m in s.toPython;
    }
  }

  ghost function Requests(ms: seq<Letter>): nat {
    if ms == [] then 0 else (if ms[0].kind.Request? then 1 else 0) + Requests(ms[1..])
  }

  /** No request is answered twice by one delivery, and the unbounded memory acknowledges an id once for ever. */
  ghost predicate Sparing(s: Net) {
    && |s.replies| + Requests(s.toRust) <= Requests(s.pythonSent)
    && (forall i, j | 0 <= i < j < |s.acks| :: s.acks[i].id != s.acks[j].id)
    && (forall k | k in s.acks :: k.id in s.seen && !k.kind.Request?)
  }

  lemma {:induction false} RequestsAppend(ms: seq<Letter>, m: Letter)
    ensures Requests(ms + [m]) == Requests(ms) + if m.kind.Request? then 1 else 0
    decreases |ms|
  {
    if ms == [] {
      assert [m][1..] == [];
    } else {
      assert (ms + [m])[1..] == ms[1..] + [m];
      RequestsAppend(ms[1..], m);
    }
  }

  lemma DeliveryKeepsSparing(n: nat, access: AccessPolicy, s: Net, a: Move)
    requires Sparing(s) && CanMove(s, a)
    ensures Sparing(Deliver(n, access, s, a))
  {
    match a
    case RustSends(m) =>
    case PythonSends(m) =>
      RequestsAppend(s.toRust, m);
      RequestsAppend(s.pythonSent, m);
    case ToRust =>
      if Dispatch(access, s.toRust[0]).Reply? { assert s.toRust[0].kind.Request?; }
    case ToPython =>
      if Acknowledge(s.toPython[0]).Some? { RequestsAppend(s.toRust, Acknowledge(s.toPython[0]).value); }
  }

  /**
   Quiescence: over every interleaving of sends and deliveries, with any tracker size, deliveries plus remaining
   weight never exceed twice the letters the two sides sent of their own accord; every answer has its cause; there
   are never more replies than requests, and never two acknowledgements of one id.
   */
  lemma {:induction false} IpcQuiescence(n: nat, access: AccessPolicy, moves: seq<Move>, s: Net)
    requires AfterMoves(n, access, moves) == Some(s)
    ensures s.deliveries + Weight(s) <= 2 * (|s.rustSent| + |s.pythonSent|)
    ensures Caused(access, s) && Sparing(s)
    decreases |moves|
  {
    if moves != [] {
      var k, a := |moves| - 1, moves[|moves| - 1];
      var p := AfterMoves(n, access, moves[..k]).value;
      IpcQuiescence(n, access, moves[..k], p);
      DeliveryLowersWeight(n, access, p, a);
      DeliveryKeepsCauses(n, access, p, a);
      DeliveryKeepsSparing(n, access, p, a);
    }
  }

  // ---- What becomes of acknowledgements -------------------------------------------------

  /** Rust marks the id of everything it sends. */
  lemma {:induction false} SentIdsAccepted(n: nat, access: AccessPolicy, moves: seq<Move>, s: Net)
    requires AfterMoves(n, access, moves) == Some(s)
    ensures forall m | m in s.rustSent :: m.id in s.accepted
    decreases |moves|
  {
    if moves != [] {
      var k := |moves| - 1;
      var p := AfterMoves(n, access, moves[..k]).value;
      SentIdsAccepted(n, access, moves[..k], p);
      assert forall id | id in p.accepted :: id in s.accepted;
    }
  }

  /** How the delivery of the next letter to Rust is answered. */
  ghost function NextResult(n: nat, access: AccessPolicy, s: Net): DispatchResult
    requires s.toRust != []
  {
    if !RustAccepts(s.toRust[0].id) then Ignored
    else if s.toRust[0].id in LastN(s.accepted, n) then DuplicateIgnored
    else Dispatch(access, s.toRust[0])
  }

  lemma LastNMembers(ids: seq<string>, n: nat, id: string)
    ensures id in LastN(ids, n) <==> exists i :: 0 <= i < |ids| && ids[i] == id && |ids| - i <= n
  {
    if |ids| > n {
      var last := ids[|ids| - n..];
      if id in last {
        var j :| 0 <= j < |last| && last[j] == id;
        assert ids[j + |ids| - n] == id;
      }
      forall i | |ids| - n <= i < |ids| ensures ids[i] in last {
        assert last[i - (|ids| - n)] == ids[i];
      }
    }
  }

  /**
   An acknowledgement comes back under an id Rust itself has marked. So it is taken as a state update exactly if that
   id was forgotten meanwhile, after at least `n` later acceptances; before the tracker has overflowed, never.
   */
  lemma AcknowledgementTakenExactly(n: nat, access: AccessPolicy, moves: seq<Move>, s: Net)
    requires AfterMoves(n, access, moves) == Some(s) && s.toRust != [] && s.toRust[0] in s.acks
    ensures var id := s.toRust[0].id;
      && (exists i :: 0 <= i < |s.accepted| && s.accepted[i] == id)
      && (NextResult(n, access, s).StateUpdateAccepted? <==>
            RustAccepts(id) && forall i | 0 <= i < |s.accepted| && s.accepted[i] == id :: |s.accepted| - i > n)
      && (|s.accepted| <= n ==> !NextResult(n, access, s).StateUpdateAccepted?)
  {
    IpcQuiescence(n, access, moves, s);
    SentIdsAccepted(n, access, moves, s);
    LastNMembers(s.accepted, n, s.toRust[0].id);
  }

  /** Python answers the event at the head of its pipe, and Rust has nothing else to read. */
  lemma AcknowledgeNext(n: nat, access: AccessPolicy, s: Net, e: Letter)
    requires s.toPython != [] && s.toPython[0] == e && e.kind.EventMessage? && PythonAccepts(e.id) && e.id !in s.seen
    requires s.toRust == []
    ensures var s' := Deliver(n, access, s, ToPython);
      && s'.accepted == s.accepted && s'.toRust != [] && s'.toRust[0] in s'.acks
      && s'.toRust[0].kind.StateUpdate? && s'.toRust[0].id == e.id
  {
    var ack := Acknowledge(e).value;
    assert (s.acks + [ack])[|s.acks|] == ack;
  }

  /** For every tracker size: an acknowledgement that comes straight back is dropped as a duplicate. */
  lemma PromptAcknowledgementDropped(n: nat, access: AccessPolicy, e: Letter) returns (moves: seq<Move>, s: Net)
    requires n >= 1 && e.kind.EventMessage? && RustAccepts(e.id) && PythonAccepts(e.id)
    ensures AfterMoves(n, access, moves) == Some(s) && s.toRust != [] && s.toRust[0] in s.acks
    ensures s.toRust[0].id == e.id && NextResult(n, access, s) == DuplicateIgnored
  {
    moves, s := [RustSends(e)], Deliver(n, access, QUIET, RustSends(e));
    AfterOneMore(n, access, [], QUIET, RustSends(e));
    AcknowledgeNext(n, access, s, e);
    AfterOneMore(n, access, moves, s, ToPython);
    moves, s := moves + [ToPython], Deliver(n, access, s, ToPython);
  }

  /** With a tracker of one entry, another letter sent before the acknowledgement arrives gets it through. */
  lemma LateAcknowledgementTaken(access: AccessPolicy, e: Letter, other: Letter) returns (moves: seq<Move>, s: Net)
    requires e.kind.EventMessage? && RustAccepts(e.id) && PythonAccepts(e.id) && other.id != e.id
    ensures AfterMoves(1, access, moves) == Some(s) && s.toRust != [] && s.toRust[0] in s.acks
    ensures s.toRust[0].id == e.id && NextResult(1, access, s) == StateUpdateAccepted
  {
    moves, s := [RustSends(e)], Deliver(1, access, QUIET, RustSends(e));
    AfterOneMore(1, access, [], QUIET, RustSends(e));
    AfterOneMore(1, access, moves, s, RustSends(other));
    moves, s := moves + [RustSends(other)], Deliver(1, access, s, RustSends(other));
    assert s.accepted == [e.id, other.id];
    AcknowledgeNext(1, access, s, e);
    AfterOneMore(1, access, moves, s, ToPython);
    moves, s := moves + [ToPython], Deliver(1, access, s, ToPython);
  }

  // ---- The two parties as objects are steps of the system -------------------------------

  /** The tracker's queue holds what the system says the tracker remembers. */
  ghost predicate Remembers(n: nat, queue: seq<string>, s: Net) { queue == LastN(s.accepted, n) }

  /** What the Rust side puts on the pipe to Python after a delivery. */
  function Outgoing(r: Option<DispatchResult>): seq<Letter> {
    if r.Some? && r.value.Reply? then [r.value.letter] else []
  }

  /** Delivering the next letter to Rust leaves `queue'` remembered and sends what `r` asks for. */
  ghost predicate ToRustGives(n: nat, access: AccessPolicy, s: Net, queue': seq<string>, r: Option<DispatchResult>)
    requires s.toRust != []
  {
    var s' := Deliver(n, access, s, ToRust);
    && Remembers(n, queue', s') && s'.toRust == s.toRust[1..] && s'.seen == s.seen
    && s'.toPython == s.toPython + Outgoing(r) && s'.replies == s.replies + Outgoing(r)
  }

  /** Moving the tracker from `queue` to `queue'` with this result is the delivery of `m` to Rust, in any state. */
  ghost predicate IsToRust(
    n: nat, access: AccessPolicy, queue: seq<string>, m: Letter, queue': seq<string>, r: Option<DispatchResult>)
  {
    forall s: Net | s.toRust != [] && s.toRust[0] == m && Remembers(n, queue, s) :: ToRustGives(n, access, s, queue', r)
  }

  /** Moving the tracker from `queue` to `queue'` is Rust's sending `m` of its own accord, in any state. */
  ghost predicate IsRustSends(n: nat, access: AccessPolicy, queue: seq<string>, m: Letter, queue': seq<string>) {
    forall s: Net | Remembers(n, queue, s) ::
      var s' := Deliver(n, access, s, RustSends(m)); Remembers(n, queue', s') && s'.toPython == s.toPython + [m]
  }

  /** Growing the set of seen ids with this answer is the delivery of `m` to Python, in any state. */
  ghost predicate IsToPython(seen: set<string>, m: Letter, seen': set<string>, reply: Option<Letter>) {
    forall n: nat, access: AccessPolicy, s: Net | s.toPython != [] && s.toPython[0] == m && s.seen == seen ::
      var s', sent := Deliver(n, access, s, ToPython), if reply.Some? then [reply.value] else [];
      && s'.seen == seen' && s'.toPython == s.toPython[1..] && s'.accepted == s.accepted
      && s'.toRust == s.toRust + sent && s'.acks == s.acks + sent
  }

  /** The result of read_and_dispatch_once, and what it leaves in the tracker. */
  function ReadResult(access: AccessPolicy, queue: seq<string>, m: Letter): Option<DispatchResult> {
    if !RustAccepts(m.id) then None else Some(if m.id in queue then DuplicateIgnored else Dispatch(access, m))
  }

  function ReadQueue(n: nat, queue: seq<string>, m: Letter): seq<string> {
    if RustAccepts(m.id) then Remember(n, queue, m.id) else queue
  }

  lemma ReadRefused(n: nat, access: AccessPolicy, s: Net, queue: seq<string>)
    requires s.toRust != [] && Remembers(n, queue, s) && !RustAccepts(s.toRust[0].id)
    ensures ToRustGives(n, access, s, queue, None)
  {
  }

  lemma ReadHeard(n: nat, access: AccessPolicy, s: Net, queue: seq<string>, r: DispatchResult)
    requires n > 0 && s.toRust != [] && Remembers(n, queue, s) && RustAccepts(s.toRust[0].id)
    requires r == if s.toRust[0].id in queue then DuplicateIgnored else Dispatch(access, s.toRust[0])
    ensures ToRustGives(n, access, s, Remember(n, queue, s.toRust[0].id), Some(r))
  {
    RememberIsLast(n, s.accepted, s.toRust[0].id);
  }

  lemma ReadGives(n: nat, access: AccessPolicy, s: Net, queue: seq<string>)
    requires n > 0 && s.toRust != [] && Remembers(n, queue, s)
    ensures ToRustGives(n, access, s, ReadQueue(n, queue, s.toRust[0]), ReadResult(access, queue, s.toRust[0]))
  {
    if RustAccepts(s.toRust[0].id) {
      ReadHeard(n, access, s, queue, ReadResult(access, queue, s.toRust[0]).value);
    } else {
      ReadRefused(n, access, s, queue);
    }
  }

  lemma ReadIsToRust(n: nat, access: AccessPolicy, queue: seq<string>, m: Letter)
    requires n > 0
    ensures IsToRust(n, access, queue, m, ReadQueue(n, queue, m), ReadResult(access, queue, m))
  {
    forall s: Net | s.toRust != [] && s.toRust[0] == m && Remembers(n, queue, s)
      ensures ToRustGives(n, access, s, ReadQueue(n, queue, m), ReadResult(access, queue, m))
    {
      ReadGives(n, access, s, queue);
    }
  }

  lemma MarkIsRustSends(n: nat, access: AccessPolicy, queue: seq<string>, m: Letter)
    requires n > 0
    ensures IsRustSends(n, access, queue, m, Remember(n, queue, m.id))
  {
    forall s: Net | Remembers(n, queue, s) ensures Remember(n, queue, m.id) == LastN(Accept(n, s.accepted, m.id), n) {
      RememberIsLast(n, s.accepted, m.id);
    }
  }

  class PythonBridge {
    var seen: set<string>

    constructor ()
      ensures seen == {}
    {
      seen := {};
    }

    method ProcessLine(m: Letter) returns (reply: Option<Letter>)
      modifies this
      ensures reply.Some? <==> Strip(m.id) != "" && m.id !in old(seen) && m.kind.EventMessage?
      ensures reply.Some? ==> reply.value == Letter(StateUpdate, m.id, Malformed)
      ensures seen == if PythonAccepts(m.id) then old(seen) + {m.id} else old(seen)
      ensures IsToPython(old(seen), m, seen, reply)
    {
      if IsBlank(m.id) || m.id in seen {
        return None;
      }
      seen := seen + {m.id};
      match m.kind {
        case StateUpdate => return None;
        case Response(_) => return None;
        case Request(_) => return None;
        case EventMessage => return Some(Letter(StateUpdate, m.id, Malformed));
      }
    }
  }

  class RustDispatcher {
    const tracker: CorrelationTracker
    ghost const access: AccessPolicy

    constructor (entries: nat, ghost policy: AccessPolicy)
      ensures fresh(tracker) && tracker.Valid() && tracker.maxEntries == Max(entries, 1) && access == policy
    {
      tracker := new CorrelationTracker(entries);
      access := policy;
    }

    /** send_envelope, as far as the tracker sees it. */
    method SendEnvelope(m: Letter)
      requires tracker.Valid()
      modifies tracker
      ensures tracker.Valid() && m.id in tracker.queue
      ensures tracker.queue == Remember(tracker.maxEntries, old(tracker.queue), m.id)
      ensures IsRustSends(tracker.maxEntries, access, old(tracker.queue), m, tracker.queue)
    {
      MarkIsRustSends(tracker.maxEntries, access, tracker.queue, m);
      var isNew := tracker.MarkSeen(m.id);
    }

    method DispatchIncoming(m: Letter, policy: AccessPolicy) returns (r: DispatchResult)
      requires tracker.Valid() && policy == access
      modifies tracker
      ensures tracker.Valid() && m.id in tracker.queue
      ensures r.DuplicateIgnored? <==> m.id in old(tracker.queue)
      ensures r.Reply? <==> m.id !in old(tracker.queue) && m.kind.Request?
      ensures r.Reply? ==> r.letter.kind == Response(m.kind.authority) && r.letter.id == m.id
                           && r.letter.body == DecisionBody(Answer(access, m.kind.authority, m.body))
      ensures r.StateUpdateAccepted? <==> m.id !in old(tracker.queue) && m.kind.StateUpdate?
      ensures r.EventForwarded? <==>
                m.id !in old(tracker.queue) && m.kind.EventMessage? && m.body.EventBody? && m.body.event.Some?
      ensures r.EventForwarded? ==> r.event == m.body.event.value
      ensures m.id !in old(tracker.queue) ==> r == Dispatch(access, m)
      ensures tracker.queue == Remember(tracker.maxEntries, old(tracker.queue), m.id)
    {
      var isNew := tracker.MarkSeen(m.id);
      return if isNew then Dispatch(policy, m) else DuplicateIgnored;
    }

    /** read_and_dispatch_once on a parsed line: dispatch, then send the reply if there is one. */
    method ReadAndDispatch(m: Letter, policy: AccessPolicy) returns (r: Option<DispatchResult>)
      requires tracker.Valid() && policy == access
      modifies tracker
      ensures tracker.Valid()
      ensures r == ReadResult(access, old(tracker.queue), m)
      ensures r.None? <==> Trim(m.id) == "" || Utf8Length(m.id) > 128
      ensures tracker.queue == ReadQueue(tracker.maxEntries, old(tracker.queue), m)
      ensures IsToRust(tracker.maxEntries, access, old(tracker.queue), m, tracker.queue, r)
    {
      ReadIsToRust(tracker.maxEntries, access, tracker.queue, m);
      if Trim(m.id) == "" || Utf8Length(m.id) > 128 {
        return None;
      }
      var result := DispatchIncoming(m, policy);
      if result.Reply? {
        DispatchKeepsId(policy, m);
        SendEnvelope(result.letter);
      }
      return Some(result);
    }
  }
}
