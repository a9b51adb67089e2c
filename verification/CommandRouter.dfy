/**
 Command router (core/cognition/command_router.py) with its default handlers: one intent in, one structured
 result and one audit event out, with the task store and the challenge gate behind it.
 */
module CommandRouters {
  import opened Common
  import opened Text
  import opened Policies
  import opened TaskStores
  import opened ChallengeLogics
  import opened ReasoningText

  /** A mapping entry: missing, present as None, of the expected type, or of another type. */
  datatype Field<T> = Absent | NoneValue | Value(v: T) | WrongType

  /** A Python number: one a float can hold, or an integer too large for any. */
  datatype Number = Finite(r: real) | TooLarge

  /** A timestamp text or value: it parses, it does not, or it does and leaves the calendar when moved to UTC. */
  datatype Time = Parses | Malformed | OutOfRange

  /** Whether `str` of a value gives a text; an integer of thousands of digits has none. */
  datatype AsText = Prints | Unprintable

  /** `declaredGoal` is what the value under that key, or its default, does; `keys` is all keys of the mapping. */
  datatype Entities = Entities(
    taskId: Field<int>, task: Field<string>, title: Field<string>, description: Field<string>, goal: Field<string>,
    dueAt: Field<(string, Time)>, priority: Field<int>, alignment: Field<Number>, declaredGoal: AsText,
    userOverrode: bool, sensitive: bool, keys: AsText)

  datatype Intent =
    | NotAMapping
    | Intent(intentId: AsText, intentType: Field<string>, entities: Field<Entities>, timestamp: Field<Time>,
             confidence: Field<Number>)

  datatype Action = CreateAction | CompleteAction | CancelAction

  function ActionName(a: Action): string {
    match a case CreateAction => "create_task" case CompleteAction => "complete_task" case CancelAction => "cancel_task"
  }

  datatype Status = Executed | Rejected(code: string) | ChallengeRequired

  /** What route returns; `action` is None for the UNKNOWN action. */
  datatype Reply = Reply(status: Status, action: Option<Action>, task: Option<nat>)

  datatype Audit = Audit(action: Option<Action>, before: Option<TaskState>, after: Option<TaskState>, success: bool)

  datatype RouterConfig = RouterConfig(minConfidence: real, challengeGate: bool, threshold: real, wiring: Wiring)

  /** Everything route may change; `replies` keeps the results returned so far. */
  datatype Router = Router(store: Store, challenges: Challenges, audit: seq<Audit>, replies: seq<Reply>)

  // ---- Validation -----------------------------------------------------------------------

  /** How a check ends: it passes, it raises the ValueError its caller handles, or another exception escapes. */
  datatype Check = Passes | Fails | Escapes

  /** _normalize_timestamp */
  function CheckTime(f: Field<Time>): Check {
    if !f.Value? then Fails else match f.v case Parses => Passes case Malformed => Fails case OutOfRange => Escapes
  }

  predicate InUnit(n: Number) { n.Finite? && 0.0 <= n.r <= 1.0 }

  /** Type, entities and the presence of all keys: what is looked at before the confidence score. */
  predicate WellFormed(i: Intent) {
    && i.Intent? && !i.timestamp.Absent? && !i.confidence.Absent?
    && i.intentType.Value? && !IsBlank(i.intentType.v) && i.entities.Value?
  }

  /** _validate_and_normalize_intent */
  function CheckIntent(i: Intent): Check {
    if !WellFormed(i) || !i.confidence.Value? then Fails
    else if i.confidence.v.TooLarge? then Escapes
    else if !InUnit(i.confidence.v) || i.intentId.Unprintable? then Fails
    else CheckTime(i.timestamp)
  }

  function Registered(intentType: string): Option<Action> {
    var name := Lower(Strip(intentType));
    if name == "create_task" || name == "schedule_task" then Some(CreateAction)
    else if name == "complete_task" || name == "mark_completed" then Some(CompleteAction)
    else if name == "cancel_task" || name == "archive_task" then Some(CancelAction)
    else None
  }

  function TitleOf(e: Entities): Field<string> { if e.task.Absent? then e.title else e.task }

  predicate HasTitle(e: Entities) { TitleOf(e).Value? && !IsBlank(TitleOf(e).v) }

  /** _validate_create_task_entities */
  function CheckCreate(e: Entities): Check {
    if !HasTitle(e) || e.dueAt.WrongType? || (e.dueAt.Value? && IsBlank(e.dueAt.v.0)) then Fails
    else if e.dueAt.Value? && !CheckTime(Value(e.dueAt.v.1)).Passes? then CheckTime(Value(e.dueAt.v.1))
    else if e.priority.WrongType? then Fails
    else Passes
  }

  predicate HasReference(e: Entities) {
    && (e.taskId.Absent? || e.taskId.NoneValue? ==> e.task.Value? && !IsBlank(e.task.v))
    && !e.taskId.WrongType? && (e.taskId.Value? ==> e.taskId.v > 0)
  }

  /** _validate_task_reference_entities */
  function CheckReference(e: Entities): Check {
    if !HasReference(e) || e.alignment.WrongType? then Fails
    else if !e.alignment.Value? then Passes
    else if e.alignment.v.TooLarge? then Escapes
    else if InUnit(e.alignment.v) then Passes else Fails
  }

  function CheckEntities(a: Action, e: Entities): Check {
    if a.CreateAction? then CheckCreate(e) else CheckReference(e)
  }

  /** What passes as an intent, and what lets an exception through. */
  lemma IntentChecks(i: Intent)
    ensures CheckIntent(i).Passes? <==>
      && i.Intent? && i.intentId.Prints? && i.intentType.Value? && Strip(i.intentType.v) != "" && i.entities.Value?
      && i.confidence.Value? && i.confidence.v.Finite? && 0.0 <= i.confidence.v.r <= 1.0 && i.timestamp == Value(Parses)
    ensures CheckIntent(i).Escapes? <==>
      && i.Intent? && i.intentType.Value? && Strip(i.intentType.v) != "" && i.entities.Value? && !i.timestamp.Absent?
      && i.confidence.Value?
      && (|| i.confidence.v.TooLarge?
          || (0.0 <= i.confidence.v.r <= 1.0 && i.intentId.Prints? && i.timestamp == Value(OutOfRange)))
  {
  }

  /** What passes as entities of a creation: a title, under `task` if that is there, a proper due date and priority. */
  lemma CreateChecks(e: Entities)
    ensures CheckCreate(e).Passes? <==>
      && (if e.task.Absent? then e.title.Value? && Strip(e.title.v) != "" else e.task.Value? && Strip(e.task.v) != "")
      && (e.dueAt.Absent? || e.dueAt.NoneValue? || (e.dueAt.Value? && Strip(e.dueAt.v.0) != "" && e.dueAt.v.1.Parses?))
      && (e.priority.Absent? || e.priority.NoneValue? || e.priority.Value?)
  {
  }

  /** What passes as a reference: a positive id, or without one a name; and an alignment score in the unit interval. */
  lemma ReferenceChecks(e: Entities)
    ensures CheckReference(e).Passes? <==>
      && ((e.taskId.Value? && e.taskId.v >= 1)
          || ((e.taskId.Absent? || e.taskId.NoneValue?) && e.task.Value? && Strip(e.task.v) != ""))
      && (|| e.alignment.Absent? || e.alignment.NoneValue?
          || (e.alignment.Value? && e.alignment.v.Finite? && 0.0 <= e.alignment.v.r <= 1.0))
  {
  }

  /** The six names of the registry, however they are written, and no others. */
  lemma RegisteredExactly(name: string)
    ensures var n := Lower(Strip(name));
      && (Registered(name) == Some(CreateAction) <==> n == "create_task" || n == "schedule_task")
      && (Registered(name) == Some(CompleteAction) <==> n == "complete_task" || n == "mark_completed")
      && (Registered(name) == Some(CancelAction) <==> n == "cancel_task" || n == "archive_task")
  {
    assert "complete_task"[0] == 'c' && "complete_task"[1] == 'o' && "mark_completed"[0] == 'm';
    assert "cancel_task"[1] == 'a';
    assert "cancel_task"[0] == 'c' && "archive_task"[0] == 'a' && "schedule_task"[0] == 's';
    assert "create_task"[0] == 'c' && "create_task"[1] == 'r';
  }

  // ---- Which task is meant --------------------------------------------------------------

  ghost predicate Named(s: Store, name: string, id: nat) { id in s.rows && Lower(s.rows[id].title) == name }

  ghost predicate OnlyNamed(s: Store, name: string, id: nat) {
    Named(s, name, id) && forall other: nat | Named(s, name, other) :: other == id
  }

  function NameOf(e: Entities): string { if e.task.Value? then Lower(Strip(e.task.v)) else "" }

  /** By id if one is given, else by title, which must be unambiguous. */
  ghost function Resolve(s: Store, e: Entities): (r: Result<nat, StoreError>)
    ensures r.Ok? ==> r.value in s.rows
  {
    if e.taskId.Value? then
      if e.taskId.v >= 0 && e.taskId.v in s.rows then Ok(e.taskId.v) else Err(Missing(e.taskId.v))
    else
      var name := NameOf(e);
      if name == "" then Err(ValueError)
      else if exists id: nat :: OnlyNamed(s, name, id) then Ok(var id: nat :| OnlyNamed(s, name, id); id)
      else if exists id: nat :: Named(s, name, id) then Err(ValueError)
      else Err(KeyError)
  }

  lemma ResolvesByName(s: Store, e: Entities, id: nat)
    requires !e.taskId.Value? && NameOf(e) != "" && OnlyNamed(s, NameOf(e), id)
    ensures Resolve(s, e) == Ok(id)
  {
  }

  /** By id exactly that task; by name exactly the only one with this title, but for case and outer blanks. */
  lemma ResolveExactly(s: Store, e: Entities, id: nat)
    ensures e.taskId.Value? ==> (Resolve(s, e) == Ok(id) <==> e.taskId.v == id && id in s.rows)
    ensures !e.taskId.Value? && e.task.Value? && Lower(Strip(e.task.v)) != "" ==>
      (Resolve(s, e) == Ok(id) <==>
         && id in s.rows && Lower(s.rows[id].title) == Lower(Strip(e.task.v))
         && forall other: nat | other in s.rows && Lower(s.rows[other].title) == Lower(Strip(e.task.v)) :: other == id)
  {
    if !e.taskId.Value? && e.task.Value? && NameOf(e) != "" {
      if OnlyNamed(s, NameOf(e), id) {
        ResolvesByName(s, e, id);
      }
      forall other: nat ensures Named(s, NameOf(e), other)
                           <==> other in s.rows && Lower(s.rows[other].title) == Lower(Strip(e.task.v)) {
      }
    }
  }

  lemma ResolvesNone(s: Store, e: Entities)
    requires !e.taskId.Value? && NameOf(e) != "" && forall id: nat :: !Named(s, NameOf(e), id)
    ensures Resolve(s, e) == Err(KeyError)
  {
  }

  lemma ResolvesAmbiguous(s: Store, e: Entities, id: nat, other: nat)
    requires !e.taskId.Value? && NameOf(e) != "" && id != other && Named(s, NameOf(e), id) && Named(s, NameOf(e), other)
    ensures Resolve(s, e) == Err(ValueError)
  {
  }

  // ---- The route ------------------------------------------------------------------------

  /** A handler's result: the store it leaves, and the task with its states, or the error code. */
  datatype Execution =
    | Done(store: Store, task: nat, before: Option<TaskState>, after: TaskState)
    | Failed(store: Store, code: string)

  function ErrorCode(e: StoreError): string {
    match e
    case InvalidTransition => "INVALID_TRANSITION"
    case KeyError => "INVALID_ENTITY"
    case ValueError => "INVALID_ENTITY"
    case RuntimeError(_) => "INTERNAL_ERROR"
    case OverflowError => "INTERNAL_ERROR"
    case DatabaseFull => "INTERNAL_ERROR"
  }

  function AsOption(f: Field<string>): Option<string> { if f.Value? then Some(f.v) else None }

  function DraftOf(e: Entities): Draft {
    Draft(if TitleOf(e).Value? then TitleOf(e).v else "", AsOption(e.description), AsOption(e.goal),
          if e.dueAt.Value? then Some(e.dueAt.v.0) else None, if e.priority.Value? then e.priority.v else 0)
  }

  function HandleCreate(w: Wiring, s: Store, e: Entities, call: Call): Execution {
    if e.priority.NoneValue? then Failed(s, "INVALID_ENTITY")
    else if e.description.WrongType? || e.goal.WrongType? then Failed(s, "INTERNAL_ERROR")
    else
      var (s', r) := CreateOutcome(w, s, DraftOf(e), call);
      if r.Ok? then Done(s', s.nextId, None, r.value.state) else Failed(s', ErrorCode(r.error))
  }

  /** Completing and cancelling: already there is an idempotent success, anything else is a store transition. */
  function HandleMove(w: Wiring, s: Store, id: nat, to: TaskState, call: Call): Execution
    requires id in s.rows
  {
    var before := s.rows[id].state;
    if before == to then Done(s, id, Some(before), before)
    else
      var (s', r) := TransitionOutcome(w, s, id, Some(to), call);
      if r.Ok? then Done(s', id, Some(before), r.value.state) else Failed(s', ErrorCode(r.error))
  }

  function Destination(a: Action): TaskState { if a.CompleteAction? then COMPLETED else ARCHIVED }

  ghost function Handle(w: Wiring, s: Store, a: Action, e: Entities, call: Call): Execution {
    if a.CreateAction? then HandleCreate(w, s, e, call)
    else
      var r := Resolve(s, e);
      if r.Err? then Failed(s, ErrorCode(r.error)) else HandleMove(w, s, r.value, Destination(a), call)
  }

  function Answered(r: Router, reply: Reply, event: Audit): Router {
    r.(audit := r.audit + [event], replies := r.replies + [reply])
  }

  function Reject(r: Router, a: Option<Action>, code: string): Router {
    Answered(r, Reply(Rejected(code), a, None), Audit(a, None, None, false))
  }

  /** The challenge gate looks at this intent: it is on, the action is challengeable and names one task. */
  ghost predicate AtGate(cfg: RouterConfig, s: Store, a: Action, e: Entities) {
    cfg.challengeGate && !a.CreateAction? && Resolve(s, e).Ok?
  }

  /** An intent whose entities are looked at. */
  ghost predicate Recognised(cfg: RouterConfig, i: Intent) {
    CheckIntent(i).Passes? && i.confidence.v.r >= cfg.minConfidence && Registered(i.intentType.v).Some?
  }

  /** An intent that gets as far as the challenge gate or a handler. */
  ghost predicate Admissible(cfg: RouterConfig, i: Intent) {
    Recognised(cfg, i) && CheckEntities(Registered(i.intentType.v).value, i.entities.v).Passes?
  }

  /** Entity checks that overflow: a due date outside the calendar, or an alignment score no float can hold. */
  predicate EntitiesOverflow(a: Action, e: Entities) {
    if a.CreateAction? then HasTitle(e) && e.dueAt.Value? && !IsBlank(e.dueAt.v.0) && e.dueAt.v.1.OutOfRange?
    else HasReference(e) && e.alignment == Value(TooLarge)
  }

  /**
   At the challenge gate: an id SQLite cannot hold, or, for the task found, None as alignment score or a declared goal
   that has no text.
   */
  ghost predicate GateRaises(cfg: RouterConfig, s: Store, a: Action, e: Entities) {
    cfg.challengeGate && !a.CreateAction?
    && (|| Resolve(s, e) == Err(OverflowError)
        || (Resolve(s, e).Ok? && (e.alignment.NoneValue? || e.declaredGoal.Unprintable?)))
  }

  /** Every exception that escapes before route has changed anything. */
  ghost predicate RaisesEarly(cfg: RouterConfig, s: Store, i: Intent) {
    || i.NotAMapping?
    || i.timestamp == Value(OutOfRange)
    || (WellFormed(i) && i.confidence == Value(TooLarge))
    || (Recognised(cfg, i)
        && var a, e := Registered(i.intentType.v).value, i.entities.v;
           EntitiesOverflow(a, e) || (CheckEntities(a, e).Passes? && GateRaises(cfg, s, a, e)))
  }

  /** _safe_entities_for_audit raises: the entities are sensitive and one of their keys has no text. */
  predicate AuditRaises(i: Intent) {
    i.Intent? && i.entities.Value? && i.entities.v.sensitive && i.entities.v.keys.Unprintable?
  }

  /** Every way in which route lets an exception escape instead of returning a result. */
  ghost predicate Raises(cfg: RouterConfig, s: Store, i: Intent) { RaisesEarly(cfg, s, i) || AuditRaises(i) }

  function ScoreOf(e: Entities): real { if e.alignment.Value? && e.alignment.v.Finite? then e.alignment.v.r else 1.0 }

  /** The router after the challenge gate has looked at this intent. */
  ghost function Noted(cfg: RouterConfig, r: Router, a: Action, e: Entities): Router
    requires AtGate(cfg, r.store, a, e)
  {
    var task := Resolve(r.store, e).value;
    r.(challenges := Note(r.challenges, cfg.threshold, task, ActionName(a), ScoreOf(e), e.userOverrode))
  }

  ghost function Execute(cfg: RouterConfig, r: Router, a: Action, e: Entities, call: Call): Router {
    match Handle(cfg.wiring, r.store, a, e, call)
    case Done(s, task, before, after) =>
      Answered(r.(store := s), Reply(Executed, Some(a), Some(task)), Audit(Some(a), before, Some(after), true))
    case Failed(s, code) => Reject(r.(store := s), Some(a), code)
  }

  /** The intent is held up by a challenge. */
  ghost predicate ChallengeDue(cfg: RouterConfig, r: Router, a: Action, e: Entities) {
    AtGate(cfg, r.store, a, e)
    && Challenged(r.challenges, cfg.threshold, Resolve(r.store, e).value, ActionName(a), ScoreOf(e), e.userOverrode)
  }

  /** The challenge gate, and the handler behind it. */
  ghost function Pass(cfg: RouterConfig, r: Router, a: Action, e: Entities, call: Call): Router {
    if !AtGate(cfg, r.store, a, e) then Execute(cfg, r, a, e, call)
    else if ChallengeDue(cfg, r, a, e) then
      Answered(Noted(cfg, r, a, e), Reply(ChallengeRequired, Some(a), Some(Resolve(r.store, e).value)),
               Audit(Some(a), None, None, false))
    else Execute(cfg, Noted(cfg, r, a, e), a, e, call)
  }

  /** The state after route, as far as its audit events can be built. */
  ghost function Respond(cfg: RouterConfig, r: Router, i: Intent, call: Call): Router {
    if !CheckIntent(i).Passes? then Reject(r, None, "INVALID_INTENT_SHAPE")
    else if i.confidence.v.r < cfg.minConfidence then Reject(r, None, "LOW_CONFIDENCE")
    else
      var action, e := Registered(i.intentType.v), i.entities.v;
      if action.None? then Reject(r, None, "UNSUPPORTED_INTENT")
      else if !CheckEntities(action.value, e).Passes? then Reject(r, action, "INVALID_ENTITY")
      else Pass(cfg, r, action.value, e, call)
  }

  /** The effects without the audit event and without the result. */
  function Hidden(r: Router, r': Router): Router { r'.(audit := r.audit, replies := r.replies) }

  /** The state after route. An audit event that cannot be built hides what was done, but does not undo it. */
  ghost function Route(cfg: RouterConfig, r: Router, i: Intent, call: Call): Router {
    if RaisesEarly(cfg, r.store, i) then r
    else if AuditRaises(i) then Hidden(r, Respond(cfg, r, i, call))
    else Respond(cfg, r, i, call)
  }

  // ---- One call -------------------------------------------------------------------------

  ghost predicate SoundStore(s: Store) { forall id | id in s.rows :: id < s.nextId }

  /** The audited states are the row's states before and after, and no other row changed. */
  ghost predicate StatesMatch(s: Store, s': Store, task: nat, event: Audit) {
    && event.before == (if task in s.rows then Some(s.rows[task].state) else None)
    && task in s'.rows && event.after == Some(s'.rows[task].state)
    && forall id | id != task :: (id in s.rows <==> id in s'.rows) && (id in s.rows ==> s'.rows[id] == s.rows[id])
  }

  /** What every call that returns a result guarantees about its reply, its audit event and the rows. */
  ghost predicate Accounted(r: Router, r': Router) {
    && |r'.audit| == |r.audit| + 1 && r.audit <= r'.audit && |r'.replies| == |r.replies| + 1 && r.replies <= r'.replies
    && var event, reply := r'.audit[|r.audit|], r'.replies[|r.replies|];
       && event.action == reply.action
       && (event.success <==> reply.status.Executed?)
       && (!reply.status.Executed? ==> r'.store.rows == r.store.rows && event.before.None? && event.after.None?)
       && (reply.status.Executed? ==> reply.task.Some? && StatesMatch(r.store, r'.store, reply.task.value, event))
  }

  lemma MoveAccounts(w: Wiring, s: Store, id: nat, to: TaskState, call: Call)
    requires SoundStore(s) && id in s.rows
    ensures var x := HandleMove(w, s, id, to, call);
      && SoundStore(x.store)
      && (x.Failed? ==> x.store.rows == s.rows)
      && (x.Done? ==> x.task == id && forall a :: StatesMatch(s, x.store, id, Audit(a, x.before, Some(x.after), true)))
  {
  }

  lemma HandleAccounts(w: Wiring, s: Store, a: Action, e: Entities, call: Call)
    requires SoundStore(s)
    ensures var x := Handle(w, s, a, e, call);
      && SoundStore(x.store)
      && (x.Failed? ==> x.store.rows == s.rows)
      && (x.Done? ==> StatesMatch(s, x.store, x.task, Audit(Some(a), x.before, Some(x.after), true)))
  {
    if !a.CreateAction? && Resolve(s, e).Ok? {
      MoveAccounts(w, s, Resolve(s, e).value, Destination(a), call);
    }
  }

  lemma ExecuteAccounts(cfg: RouterConfig, r: Router, a: Action, e: Entities, call: Call)
    requires SoundStore(r.store)
    ensures Accounted(r, Execute(cfg, r, a, e, call)) && SoundStore(Execute(cfg, r, a, e, call).store)
    ensures Execute(cfg, r, a, e, call).challenges == r.challenges
    ensures !Execute(cfg, r, a, e, call).replies[|r.replies|].status.ChallengeRequired?
  {
    HandleAccounts(cfg.wiring, r.store, a, e, call);
  }

  lemma PassAccounts(cfg: RouterConfig, r: Router, a: Action, e: Entities, call: Call)
    requires SoundStore(r.store)
    ensures Accounted(r, Pass(cfg, r, a, e, call)) && SoundStore(Pass(cfg, r, a, e, call).store)
  {
    ExecuteAccounts(cfg, r, a, e, call);
    if AtGate(cfg, r.store, a, e) {
      var noted := Noted(cfg, r, a, e);
      ExecuteAccounts(cfg, noted, a, e, call);
      assert Accounted(noted, Execute(cfg, noted, a, e, call)) ==> Accounted(r, Execute(cfg, noted, a, e, call));
    }
  }

  lemma RespondAccounts(cfg: RouterConfig, r: Router, i: Intent, call: Call)
    requires SoundStore(r.store)
    ensures SoundStore(Respond(cfg, r, i, call).store) && Accounted(r, Respond(cfg, r, i, call))
  {
    if Admissible(cfg, i) {
      PassAccounts(cfg, r, Registered(i.intentType.v).value, i.entities.v, call);
    }
  }

  /**
   A result comes with exactly one audit event, in step with reply and rows. An escaping exception leaves no audit
   event; it leaves everything as it was, unless it is the audit event itself that could not be built.
   */
  lemma RouteAccounts(cfg: RouterConfig, r: Router, i: Intent, call: Call)
    requires SoundStore(r.store)
    ensures var r' := Route(cfg, r, i, call);
      && SoundStore(r'.store)
      && (!Raises(cfg, r.store, i) ==> Accounted(r, r'))
      && (Raises(cfg, r.store, i) ==> r'.audit == r.audit && r'.replies == r.replies)
      && (RaisesEarly(cfg, r.store, i) ==> r' == r)
  {
    RespondAccounts(cfg, r, i, call);
  }

  /** The same intent with keys that all have a text. */
  function Printable(i: Intent): Intent
    requires AuditRaises(i)
  {
    i.(entities := Value(i.entities.v.(keys := Prints)))
  }

  lemma PrintableFindsSame(s: Store, e: Entities, e': Entities)
    requires e' == e.(keys := Prints)
    ensures Resolve(s, e') == Resolve(s, e)
  {
  }

  lemma PrintablePasses(cfg: RouterConfig, r: Router, a: Action, e: Entities, e': Entities, call: Call)
    requires e' == e.(keys := Prints)
    ensures Pass(cfg, r, a, e', call) == Pass(cfg, r, a, e, call)
    ensures GateRaises(cfg, r.store, a, e') <==> GateRaises(cfg, r.store, a, e)
  {
    PrintableFindsSame(r.store, e, e');
    assert DraftOf(e') == DraftOf(e) && ScoreOf(e') == ScoreOf(e);
  }

  /** An unprintable key of sensitive entities takes away the result and the audit event, and nothing else. */
  lemma EscapeOnlyHides(cfg: RouterConfig, r: Router, i: Intent, call: Call)
    requires AuditRaises(i) && !RaisesEarly(cfg, r.store, i)
    ensures !Raises(cfg, r.store, Printable(i))
    ensures Route(cfg, r, i, call) == Hidden(r, Route(cfg, r, Printable(i), call))
  {
    var p := Printable(i);
    assert CheckIntent(p) == CheckIntent(i);
    if Recognised(cfg, i) {
      var a, e := Registered(i.intentType.v).value, i.entities.v;
      assert CheckEntities(a, p.entities.v) == CheckEntities(a, e);
      PrintablePasses(cfg, r, a, e, p.entities.v, call);
    }
  }

  lemma HandleChangesExactly(w: Wiring, s: Store, a: Action, e: Entities, call: Call)
    requires SoundStore(s) && Handle(w, s, a, e, call).Done?
    ensures var x := Handle(w, s, a, e, call); x.store.rows == s.rows <==> x.before == Some(x.after)
  {
    var x := Handle(w, s, a, e, call);
    HandleAccounts(w, s, a, e, call);
    if x.before == Some(x.after) {
      assert !a.CreateAction?;
    }
  }

  lemma RespondChangesExactly(cfg: RouterConfig, r: Router, i: Intent, call: Call)
    requires SoundStore(r.store)
    ensures var r' := Respond(cfg, r, i, call);
      && |r'.audit| == |r.audit| + 1
      && (r'.store.rows != r.store.rows <==>
            r'.audit[|r.audit|].success && r'.audit[|r.audit|].before != r'.audit[|r.audit|].after)
  {
    RespondAccounts(cfg, r, i, call);
    if Admissible(cfg, i) {
      var a, e := Registered(i.intentType.v).value, i.entities.v;
      HandleAccounts(cfg.wiring, r.store, a, e, call);
      if Handle(cfg.wiring, r.store, a, e, call).Done? {
        HandleChangesExactly(cfg.wiring, r.store, a, e, call);
      }
    }
  }

  /**
   Exactly when a call that raises has changed rows all the same: its audit event could not be built, and would have
   told of a new task or of a new state.
   */
  lemma EscapeChangesRowsExactly(cfg: RouterConfig, r: Router, i: Intent, call: Call)
    requires SoundStore(r.store) && Raises(cfg, r.store, i)
    ensures Route(cfg, r, i, call).store.rows != r.store.rows <==>
      && !RaisesEarly(cfg, r.store, i)
      && var twin := Route(cfg, r, Printable(i), call);
         |twin.audit| == |r.audit| + 1 && twin.audit[|r.audit|].success
         && twin.audit[|r.audit|].before != twin.audit[|r.audit|].after
  {
    if !RaisesEarly(cfg, r.store, i) {
      EscapeOnlyHides(cfg, r, i, call);
      RouteAccounts(cfg, r, Printable(i), call);
      if Admissible(cfg, i) {
        RespondChangesExactly(cfg, r, Printable(i), call);
      }
    }
  }

  /** The task meant is already in state `to`, or both authorities let it go there. */
  ghost predicate MayMove(w: Wiring, s: Store, e: Entities, to: TaskState) {
    Resolve(s, e).Ok? &&
    var state := s.rows[Resolve(s, e).value].state;
    state == to || WiredAllows(w, state, to)
  }

  /** The call appended a result saying that the intent was executed. */
  ghost predicate ExecutedNext(r: Router, r': Router) {
    |r'.replies| == |r.replies| + 1 && r'.replies[|r.replies|].status.Executed?
  }

  lemma WiredMoveExactly(w: Wiring, rust: RustSide, s: Store, id: nat, to: TaskState, call: Call)
    requires RustWired(w, rust, call) && id in s.rows
    ensures var x := HandleMove(w, s, id, to, call);
      && (x.Done? <==> s.rows[id].state == to || WiredAllows(w, s.rows[id].state, to))
      && (x.Done? ==> id in x.store.rows && x.store.rows[id].state == to)
      && (x.Failed? ==> x.store == s)
  {
    WiredTransitionExactly(w, rust, s, id, Some(to), call);
  }

  lemma WiredHandleExactly(w: Wiring, rust: RustSide, s: Store, a: Action, e: Entities, call: Call)
    requires RustWired(w, rust, call) && !a.CreateAction?
    ensures var x := Handle(w, s, a, e, call);
      && (x.Done? <==> MayMove(w, s, e, Destination(a)))
      && (x.Done? ==> var task := Resolve(s, e).value;
                      task in x.store.rows && x.store.rows[task].state == Destination(a))
      && (x.Failed? ==> x.store == s)
  {
    if Resolve(s, e).Ok? {
      WiredMoveExactly(w, rust, s, Resolve(s, e).value, Destination(a), call);
    }
  }

  /** End to end with both bridges: which completions and cancellations are executed; no other leaves a trace. */
  lemma WiredRouteExactly(cfg: RouterConfig, rust: RustSide, r: Router, i: Intent, call: Call)
    requires RustWired(cfg.wiring, rust, call) && !Raises(cfg, r.store, i)
    requires Admissible(cfg, i) && !Registered(i.intentType.v).value.CreateAction?
    ensures var r', e, a := Route(cfg, r, i, call), i.entities.v, Registered(i.intentType.v).value;
      var to := if a == CompleteAction then COMPLETED else ARCHIVED;
      && (ExecutedNext(r, r') <==> MayMove(cfg.wiring, r.store, e, to) && !ChallengeDue(cfg, r, a, e))
      && (ExecutedNext(r, r') ==> var task := Resolve(r.store, e).value;
            task in r'.store.rows && r'.store.rows[task].state == to)
      && (!ExecutedNext(r, r') ==> r'.store == r.store)
  {
    WiredHandleExactly(cfg.wiring, rust, r.store, Registered(i.intentType.v).value, i.entities.v, call);
  }

  // ---- What an executed intent leaves, and why others are rejected -----------------------

  ghost predicate TextStored(given: Field<string>, stored: Option<string>) {
    stored == if given.Value? && given.v != "" then Some(Strip(given.v)) else None
  }

  /** The row a creation leaves is what the entities name, field by field. */
  ghost predicate CreatedFrom(e: Entities, row: Row, now: int) {
    && row.title == Strip(if e.task.Value? then e.task.v else if e.title.Value? then e.title.v else "")
    && TextStored(e.description, row.description) && TextStored(e.goal, row.goal)
    && row.dueAt == (if e.dueAt.Value? then Some(e.dueAt.v.0) else None)
    && row.priority == (if e.priority.Value? then e.priority.v else 0)
    && row.state == CREATED && row.createdAt == row.updatedAt == now && row.archivedAt == None
  }

  lemma HandleLeaves(w: Wiring, s: Store, a: Action, e: Entities, call: Call)
    requires Handle(w, s, a, e, call).Done? && CheckEntities(a, e).Passes?
    ensures var x := Handle(w, s, a, e, call);
      && x.task in x.store.rows
      && (a == CompleteAction ==> x.after == COMPLETED && x.store.rows[x.task].state == COMPLETED)
      && (a == CancelAction ==> x.after == ARCHIVED && x.store.rows[x.task].state == ARCHIVED)
      && (a != CreateAction ==> Resolve(s, e) == Ok(x.task) && x.before == Some(s.rows[x.task].state))
      && (a == CreateAction ==> x.task == s.nextId && x.before == None && x.after == CREATED
                                && CreatedFrom(e, x.store.rows[x.task], call.now))
  {
    if a == CreateAction {
      CreateReadsBack(w, s, DraftOf(e), call);
    }
  }

  /** Whatever the wiring: a completed task is COMPLETED, a cancelled one ARCHIVED, a created one what was named. */
  lemma ExecutedLeaves(cfg: RouterConfig, r: Router, i: Intent, call: Call)
    requires !Raises(cfg, r.store, i) && ExecutedNext(r, Route(cfg, r, i, call))
    ensures Admissible(cfg, i)
    ensures var r', e, a := Route(cfg, r, i, call), i.entities.v, Registered(i.intentType.v).value;
      |r'.audit| == |r.audit| + 1 &&
      var q, event := r'.replies[|r.replies|], r'.audit[|r.audit|];
      && q.action == Some(a) && q.task.Some? && q.task.value in r'.store.rows
      && var row := r'.store.rows[q.task.value];
         && (a == CompleteAction ==> row.state == COMPLETED && event.after == Some(COMPLETED))
         && (a == CancelAction ==> row.state == ARCHIVED && event.after == Some(ARCHIVED))
         && (a != CreateAction ==> Resolve(r.store, e) == Ok(q.task.value))
         && (a == CreateAction ==>
               && q.task.value == r.store.nextId && event.before == None && event.after == Some(CREATED)
               && CreatedFrom(e, row, call.now))
  {
    if Admissible(cfg, i) {
      var a, e := Registered(i.intentType.v).value, i.entities.v;
      if Handle(cfg.wiring, r.store, a, e, call).Done? {
        HandleLeaves(cfg.wiring, r.store, a, e, call);
      }
    }
  }

  lemma CreateCodes(w: Wiring, s: Store, e: Entities, call: Call)
    requires HandleCreate(w, s, e, call).Failed?
    ensures var code := HandleCreate(w, s, e, call).code;
      && (e.priority.NoneValue? ==> code == "INVALID_ENTITY")
      && (!e.priority.NoneValue? && (e.description.WrongType? || e.goal.WrongType?) ==> code == "INTERNAL_ERROR")
      && (CheckCreate(e).Passes? && !e.priority.NoneValue? ==> code == "INTERNAL_ERROR")
  {
    CreateFails(w, s, DraftOf(e), call);
    StorageGateFails(w, call, WriteTask, CREATED);
  }

  lemma MoveCodes(w: Wiring, s: Store, id: nat, to: TaskState, call: Call)
    requires id in s.rows && HandleMove(w, s, id, to, call).Failed?
    ensures var error := TransitionOutcome(w, s, id, Some(to), call).1;
      && error.Err?
      && HandleMove(w, s, id, to, call).code ==
           if error.error == InvalidTransition then "INVALID_TRANSITION" else "INTERNAL_ERROR"
  {
    MoveFails(w, s, id, Some(to), call);
    StorageGateFails(w, call, StorageOperationFor(to), s.rows[id].state);
  }

  /** Why a handler fails: what it was given, what the lifecycle forbids, or what went wrong inside. */
  lemma HandlerCodes(w: Wiring, s: Store, a: Action, e: Entities, call: Call)
    requires Handle(w, s, a, e, call).Failed?
    ensures var code := Handle(w, s, a, e, call).code;
      && (a != CreateAction && Resolve(s, e).Err? ==>
            code == if Resolve(s, e).error == OverflowError then "INTERNAL_ERROR" else "INVALID_ENTITY")
      && (a != CreateAction && Resolve(s, e).Ok? ==>
            var to := if a == CompleteAction then COMPLETED else ARCHIVED;
            var error := TransitionOutcome(w, s, Resolve(s, e).value, Some(to), call).1;
            error.Err? && code == if error.error == InvalidTransition then "INVALID_TRANSITION" else "INTERNAL_ERROR")
      && (a == CreateAction ==>
            && (e.priority.NoneValue? ==> code == "INVALID_ENTITY")
            && (!e.priority.NoneValue? && (e.description.WrongType? || e.goal.WrongType?) ==> code == "INTERNAL_ERROR")
            && (CheckCreate(e).Passes? && !e.priority.NoneValue? ==> code == "INTERNAL_ERROR"))
  {
    if a == CreateAction {
      CreateCodes(w, s, e, call);
    } else if Resolve(s, e).Ok? {
      MoveCodes(w, s, Resolve(s, e).value, Destination(a), call);
    }
  }

  /** The result of every intent that is not executed, in the order of the checks. */
  lemma RejectionsExactly(cfg: RouterConfig, r: Router, i: Intent, call: Call)
    requires !Raises(cfg, r.store, i)
    ensures var r' := Route(cfg, r, i, call);
      |r'.replies| == |r.replies| + 1 &&
      var q := r'.replies[|r.replies|];
      && (!CheckIntent(i).Passes? ==> q == Reply(Rejected("INVALID_INTENT_SHAPE"), None, None))
      && (CheckIntent(i).Passes? && i.confidence.v.r < cfg.minConfidence ==>
            q == Reply(Rejected("LOW_CONFIDENCE"), None, None))
      && (CheckIntent(i).Passes? && i.confidence.v.r >= cfg.minConfidence && Registered(i.intentType.v).None? ==>
            q == Reply(Rejected("UNSUPPORTED_INTENT"), None, None))
      && (Recognised(cfg, i) ==>
            var a, e := Registered(i.intentType.v).value, i.entities.v;
            && (!CheckEntities(a, e).Passes? ==> q == Reply(Rejected("INVALID_ENTITY"), Some(a), None))
            && (Admissible(cfg, i) && ChallengeDue(cfg, r, a, e) ==>
                  q == Reply(ChallengeRequired, Some(a), Some(Resolve(r.store, e).value)) && r'.store == r.store)
            && (Admissible(cfg, i) && !ChallengeDue(cfg, r, a, e) && Handle(cfg.wiring, r.store, a, e, call).Failed? ==>
                  q == Reply(Rejected(Handle(cfg.wiring, r.store, a, e, call).code), Some(a), None)))
  {
  }

  // ---- Exactly when a challenge is due --------------------------------------------------

  lemma PlainActionKey(name: string)
    requires name != "" && forall k | 0 <= k < |name| :: 'a' <= name[k] <= 'z' || name[k] == '_'
    ensures ActionKey(name) == name
  {
    assert Lower(name) == name;
    StripKeeps(name);
    TidyIsFixed(name);
  }

  lemma CompleteKey()
    ensures ActionKey(ActionName(CompleteAction)) == "complete_task"
  {
    PlainActionKey("complete_task");
  }

  lemma CancelKey()
    ensures ActionKey(ActionName(CancelAction)) == "cancel_task"
  {
    PlainActionKey("cancel_task");
  }

  /**
   A challenge is due exactly if the gate is on, the task is known, the score given is below the threshold, the user did
   not override, and this task and action were neither challenged nor rejected before.
   */
  lemma ChallengeDueExactly(cfg: RouterConfig, r: Router, a: Action, e: Entities)
    requires cfg.threshold <= 1.0 && a != CreateAction && CheckReference(e).Passes?
    ensures ChallengeDue(cfg, r, a, e) <==>
      && cfg.challengeGate && Resolve(r.store, e).Ok? && !e.userOverrode
      && e.alignment.Value? && e.alignment.v.Finite? && e.alignment.v.r < cfg.threshold
      && var key := (Resolve(r.store, e).value, if a == CompleteAction then "complete_task" else "cancel_task");
         key !in r.challenges.challenged && key !in r.challenges.rejected
  {
    CompleteKey();
    CancelKey();
  }

  // ---- Whole runs -----------------------------------------------------------------------

  /** Routed intents, recorded challenge responses and direct store operations, each under the wiring of its moment. */
  datatype Event =
    | Intended(wiring: Wiring, intent: Intent, call: Call)
    | Responded(task: nat, action: string, accepted: bool)
    | Stored(wiring: Wiring, op: Op)

  ghost function Step(cfg: RouterConfig, r: Router, ev: Event): Router {
    match ev
    case Intended(w, i, call) => Route(cfg.(wiring := w), r, i, call)
    case Responded(task, action, accepted) =>
      if accepted then r
      else r.(challenges := r.challenges.(rejected := r.challenges.rejected + {(task, ActionKey(action))}))
    case Stored(w, op) => r.(store := Apply(w, r.store, op))
  }

  const FRESH_ROUTER := Router(FRESH_STORE, Challenges({}, {}), [], [])

  ghost function StepAll(cfg: RouterConfig, events: seq<Event>): Router {
    if events == [] then FRESH_ROUTER else Step(cfg, StepAll(cfg, events[..|events| - 1]), events[|events| - 1])
  }

  ghost function KeyOf(reply: Reply): ChallengeKey
    requires reply.task.Some? && reply.action.Some?
  {
    (reply.task.value, ActionKey(ActionName(reply.action.value)))
  }

  /** Every challenge returned is remembered, and no two concern the same task and action. */
  ghost predicate ChallengesRemembered(r: Router) {
    && (forall q | q in r.replies && q.status.ChallengeRequired? ::
          q.task.Some? && q.action.Some? && KeyOf(q) in r.challenges.challenged)
    && (forall i, j | 0 <= i < j < |r.replies|
                      && r.replies[i].status.ChallengeRequired? && r.replies[j].status.ChallengeRequired? ::
          r.replies[i].task != r.replies[j].task || r.replies[i].action != r.replies[j].action)
  }

  ghost predicate AuditMatchesReplies(r: Router) {
    && |r.audit| == |r.replies|
    && forall k | 0 <= k < |r.audit| ::
         r.audit[k].success == r.replies[k].status.Executed? && r.audit[k].action == r.replies[k].action
  }

  /** A challenge is only ever returned for a key not challenged before, and then it is remembered. */
  lemma RespondChallenges(cfg: RouterConfig, r: Router, i: Intent, call: Call)
    requires SoundStore(r.store)
    ensures var r' := Respond(cfg, r, i, call);
      && r.challenges.challenged <= r'.challenges.challenged
      && |r'.replies| == |r.replies| + 1
      && var q := r'.replies[|r.replies|];
         (q.status.ChallengeRequired? ==>
           && q.task.Some? && q.action.Some?
           && KeyOf(q) !in r.challenges.challenged && KeyOf(q) in r'.challenges.challenged)
  {
    RespondAccounts(cfg, r, i, call);
    if Admissible(cfg, i) {
      var a, e := Registered(i.intentType.v).value, i.entities.v;
      ExecuteAccounts(cfg, r, a, e, call);
      if AtGate(cfg, r.store, a, e) {
        ExecuteAccounts(cfg, Noted(cfg, r, a, e), a, e, call);
      }
    }
  }

  lemma ExtendRemembered(r: Router, r': Router)
    requires ChallengesRemembered(r) && r.replies <= r'.replies && |r'.replies| == |r.replies| + 1
    requires r.challenges.challenged <= r'.challenges.challenged
    requires var q := r'.replies[|r.replies|]; q.status.ChallengeRequired? ==>
      q.task.Some? && q.action.Some? && KeyOf(q) !in r.challenges.challenged && KeyOf(q) in r'.challenges.challenged
    ensures ChallengesRemembered(r')
  {
    var n := |r.replies|;
    assert r'.replies == r.replies + [r'.replies[n]];
    forall i, j | 0 <= i < j < |r'.replies|
                  && r'.replies[i].status.ChallengeRequired? && r'.replies[j].status.ChallengeRequired?
      ensures r'.replies[i].task != r'.replies[j].task || r'.replies[i].action != r'.replies[j].action
    {
      if j == n {
        assert r.replies[i] in r.replies && KeyOf(r.replies[i]) in r.challenges.challenged;
      }
    }
  }

  lemma ExtendMatches(r: Router, r': Router)
    requires AuditMatchesReplies(r) && Accounted(r, r')
    ensures AuditMatchesReplies(r')
  {
    var n := |r.audit|;
    assert r'.audit == r.audit + [r'.audit[n]] && r'.replies == r.replies + [r'.replies[n]];
  }

  lemma StepInvariant(cfg: RouterConfig, r: Router, ev: Event)
    requires SoundStore(r.store) && AuditMatchesReplies(r) && ChallengesRemembered(r)
    ensures var r' := Step(cfg, r, ev); SoundStore(r'.store) && AuditMatchesReplies(r') && ChallengesRemembered(r')
  {
    match ev
    case Intended(w, i, call) =>
      var now := cfg.(wiring := w);
      RouteAccounts(now, r, i, call);
      RespondChallenges(now, r, i, call);
      if !Raises(now, r.store, i) {
        ExtendRemembered(r, Route(now, r, i, call));
        ExtendMatches(r, Route(now, r, i, call));
      }
    case Responded(_, _, _) =>
    case Stored(_, op) =>
  }

  /**
   Over every run of intents, responses and store operations: audit events and results correspond one to one, and
   at most one challenge is ever returned for a task and action, whichever intent alias asked.
   */
  lemma {:induction false} RouterAccounting(cfg: RouterConfig, events: seq<Event>)
    ensures var r := StepAll(cfg, events); SoundStore(r.store) && AuditMatchesReplies(r) && ChallengesRemembered(r)
    decreases |events|
  {
    if events != [] {
      RouterAccounting(cfg, events[..|events| - 1]);
      StepInvariant(cfg, StepAll(cfg, events[..|events| - 1]), events[|events| - 1]);
    }
  }

  lemma CompleteAliases()
    ensures Registered("complete_task") == Registered("mark_completed") == Some(CompleteAction)
  {
    StripKeeps("complete_task");
    StripKeeps("mark_completed");
    assert Lower("complete_task") == "complete_task" && Lower("mark_completed") == "mark_completed";
    assert "mark_completed"[0] == 'm' && "complete_task"[0] == 'c' && "complete_task"[1] == 'o';
    assert "schedule_task"[0] == 's' && "create_task"[0] == 'c' && "create_task"[1] == 'r';
  }

  lemma CancelAliases()
    ensures Registered("cancel_task") == Registered("archive_task") == Some(CancelAction)
  {
    StripKeeps("cancel_task");
    StripKeeps("archive_task");
    assert Lower("cancel_task") == "cancel_task" && Lower("archive_task") == "archive_task";
    assert "cancel_task"[1] == 'a' && "archive_task"[0] == 'a' && "create_task"[1] == 'r' && "complete_task"[1] == 'o';
    assert "schedule_task"[0] == 's' && "mark_completed"[0] == 'm';
  }

  lemma CreateAliases()
    ensures Registered("create_task") == Registered("schedule_task") == Some(CreateAction)
  {
    StripKeeps("create_task");
    StripKeeps("schedule_task");
    assert Lower("create_task") == "create_task" && Lower("schedule_task") == "schedule_task";
  }

  /** The aliases share an action, hence a challenge key. */
  lemma AliasesShareAction()
    ensures Registered("create_task") == Registered("schedule_task") == Some(CreateAction)
    ensures Registered("complete_task") == Registered("mark_completed") == Some(CompleteAction)
    ensures Registered("cancel_task") == Registered("archive_task") == Some(CancelAction)
  {
    CreateAliases();
    CompleteAliases();
    CancelAliases();
  }

  /** A well-typed intent. */
  function WithEntities(name: string, e: Entities, time: Time, confidence: Number): Intent {
    Intent(Prints, Value(name), Value(e), Value(time), Value(confidence))
  }

  /** One with nothing wrong but what its entities hold. */
  function Plain(name: string, e: Entities): Intent { WithEntities(name, e, Parses, Finite(1.0)) }

  /**
   Well-typed mappings of each kind that raises: the timestamp 0001-01-01T00:00:00+01:00 or such a due date, a score of
   10 ** 400, a task id of 2 ** 63, a declared goal or a key of sensitive entities of 10 ** 5000.
   */
  lemma OverflowsEscape(cfg: RouterConfig, s: Store, e: Entities, create: string, move: string, text: string, id: nat)
    requires cfg.minConfidence <= 1.0 && 0x8000_0000_0000_0000 !in s.rows && id in s.rows && id > 0
    requires !IsBlank(create) && !IsBlank(move) && !IsBlank(text)
    requires Registered(create) == Some(CreateAction)
    requires Registered(move).Some? && Registered(move) != Some(CreateAction)
    ensures Raises(cfg, s, WithEntities(move, e, OutOfRange, Finite(1.0)))
    ensures Raises(cfg, s, WithEntities(move, e, Parses, TooLarge))
    ensures Raises(cfg, s, Plain(create, e.(task := Value(text), dueAt := Value((text, OutOfRange)))))
    ensures Raises(cfg, s, Plain(move, e.(taskId := Value(id), alignment := Value(TooLarge))))
    ensures var far := e.(taskId := Value(0x8000_0000_0000_0000), alignment := Absent);
      cfg.challengeGate ==> Raises(cfg, s, Plain(move, far))
    ensures var mute := e.(taskId := Value(id), alignment := Absent, declaredGoal := Unprintable);
      cfg.challengeGate ==> Raises(cfg, s, Plain(move, mute))
    ensures Raises(cfg, s, Plain(create, e.(sensitive := true, keys := Unprintable)))
  {
  }

  /** A task created without a result and without an audit event. */
  lemma HiddenCreation(cfg: RouterConfig, r: Router, e: Entities, create: string, text: string, call: Call)
    requires NoBridge(cfg.wiring) && !cfg.wiring.enforceStorage && cfg.minConfidence <= 1.0
    requires SoundStore(r.store) && IsSqlInteger(r.store.nextId)
    requires !IsBlank(create) && !IsBlank(text) && Registered(create) == Some(CreateAction)
    ensures var odd := e.(task := Value(text), dueAt := Absent, priority := Absent, description := Absent,
                          goal := Absent, sensitive := true, keys := Unprintable);
      var r' := Route(cfg, r, Plain(create, odd), call);
      && Raises(cfg, r.store, Plain(create, odd)) && r'.audit == r.audit && r'.replies == r.replies
      && r.store.nextId !in r.store.rows && r.store.nextId in r'.store.rows
  {
  }

  /** A rejected challenge is not raised again for this task and action, whatever the score. */
  lemma RejectionSilences(cfg: RouterConfig, r: Router, task: nat, a: Action, e: Entities)
    requires a != CreateAction && Resolve(r.store, e) == Ok(task)
    ensures var name := if a == CompleteAction then "complete_task" else "cancel_task";
      && !ChallengeDue(cfg, Step(cfg, r, Responded(task, name, false)), a, e)
      && Step(cfg, r, Responded(task, name, true)) == r
  {
    CompleteKey();
    CancelKey();
  }

  // ---- The audit log and the transition log ---------------------------------------------

  /** The transition an executed, not idempotent completion or cancellation reports. */
  ghost function MoveOf(event: Audit, reply: Reply): seq<Record> {
    if event.success && reply.task.Some? && event.before.Some? && event.after.Some? && event.before != event.after then
      [Record(reply.task.value, event.before.value, event.after.value)]
    else []
  }

  ghost function MovesOf(audit: seq<Audit>, replies: seq<Reply>): seq<Record>
    requires |audit| == |replies|
  {
    if audit == [] then []
    else
      var n := |audit| - 1;
      MovesOf(audit[..n], replies[..n]) + MoveOf(audit[n], replies[n])
  }

  /** The handler's transition is made. */
  ghost predicate MovesAt(w: Wiring, s: Store, a: Action, e: Entities, call: Call) {
    !a.CreateAction? && Resolve(s, e).Ok? &&
    var id := Resolve(s, e).value;
    s.rows[id].state != Destination(a) && TransitionOutcome(w, s, id, Some(Destination(a)), call).1.Ok?
  }

  /** The handler's transition is logged and then refused. */
  ghost predicate OrphansAt(w: Wiring, s: Store, a: Action, e: Entities, call: Call) {
    !a.CreateAction? && Resolve(s, e).Ok? &&
    var id := Resolve(s, e).value;
    s.rows[id].state != Destination(a) && Orphans(w, s, MoveTo(id, Some(Destination(a)), call))
  }

  lemma HandleLogs(w: Wiring, s: Store, a: Action, e: Entities, call: Call)
    ensures var x := Handle(w, s, a, e, call);
      && (x.Done? ==>
            var event, reply := Audit(Some(a), x.before, Some(x.after), true), Reply(Executed, Some(a), Some(x.task));
            x.store.log == s.log + MoveOf(event, reply) && (MoveOf(event, reply) != [] <==> MovesAt(w, s, a, e, call)))
      && (x.Failed? ==> !MovesAt(w, s, a, e, call))
      && (x.Failed? && !OrphansAt(w, s, a, e, call) ==> x.store.log == s.log)
      && (OrphansAt(w, s, a, e, call) ==> x.Failed? && |x.store.log| == |s.log| + 1)
  {
  }

  /** The intent gets to a handler. */
  ghost predicate Handled(cfg: RouterConfig, r: Router, i: Intent) {
    !RaisesEarly(cfg, r.store, i) && Admissible(cfg, i)
    && !ChallengeDue(cfg, r, Registered(i.intentType.v).value, i.entities.v)
  }

  /** A record is logged that no audit event tells of: an orphan, or a transition whose audit event raises. */
  ghost predicate LogsSilently(cfg: RouterConfig, r: Router, i: Intent, call: Call) {
    Handled(cfg, r, i) &&
    var a, e := Registered(i.intentType.v).value, i.entities.v;
    OrphansAt(cfg.wiring, r.store, a, e, call) || (AuditRaises(i) && MovesAt(cfg.wiring, r.store, a, e, call))
  }

  lemma RespondLogs(cfg: RouterConfig, r: Router, i: Intent, call: Call)
    requires !RaisesEarly(cfg, r.store, i)
    ensures var r' := Respond(cfg, r, i, call);
      && |r'.audit| == |r.audit| + 1 && |r'.replies| == |r.replies| + 1
      && var move := MoveOf(r'.audit[|r.audit|], r'.replies[|r.replies|]);
         if Handled(cfg, r, i) then
           var a, e := Registered(i.intentType.v).value, i.entities.v;
           && (move != [] <==> MovesAt(cfg.wiring, r.store, a, e, call))
           && (if OrphansAt(cfg.wiring, r.store, a, e, call) then move == [] && |r'.store.log| == |r.store.log| + 1
               else r'.store.log == r.store.log + move)
         else move == [] && r'.store.log == r.store.log
  {
    if Handled(cfg, r, i) {
      HandleLogs(cfg.wiring, r.store, Registered(i.intentType.v).value, i.entities.v, call);
    }
  }

  lemma MovesOfNext(audit: seq<Audit>, replies: seq<Reply>, audit': seq<Audit>, replies': seq<Reply>)
    requires |audit| == |replies| && |audit'| == |replies'| == |audit| + 1 && audit <= audit' && replies <= replies'
    ensures MovesOf(audit', replies') == MovesOf(audit, replies) + MoveOf(audit'[|audit|], replies'[|audit|])
  {
    assert audit'[..|audit|] == audit && replies'[..|audit|] == replies;
  }

  /** One route moves log and audit on together, or logs exactly one record silently. */
  lemma RouteLogs(cfg: RouterConfig, r: Router, i: Intent, call: Call)
    requires SoundStore(r.store) && |r.audit| == |r.replies|
    ensures var r' := Route(cfg, r, i, call);
      && |r'.audit| == |r'.replies|
      && if LogsSilently(cfg, r, i, call) then
           |r'.store.log| == |r.store.log| + 1 && MovesOf(r'.audit, r'.replies) == MovesOf(r.audit, r.replies)
         else exists more ::
           r'.store.log == r.store.log + more && MovesOf(r'.audit, r'.replies) == MovesOf(r.audit, r.replies) + more
  {
    var r' := Route(cfg, r, i, call);
    RouteAccounts(cfg, r, i, call);
    if RaisesEarly(cfg, r.store, i) {
      assert r'.store.log == r.store.log + [] && MovesOf(r'.audit, r'.replies) == MovesOf(r.audit, r.replies) + [];
    } else {
      RespondLogs(cfg, r, i, call);
      if AuditRaises(i) {
        assert MovesOf(r'.audit, r'.replies) == MovesOf(r.audit, r.replies) + [];
        assert !LogsSilently(cfg, r, i, call) ==> r'.store.log == r.store.log + [];
      } else {
        MovesOfNext(r.audit, r.replies, r'.audit, r'.replies);
        var more := MoveOf(r'.audit[|r.audit|], r'.replies[|r.audit|]);
        assert !LogsSilently(cfg, r, i, call) ==> r'.store.log == r.store.log + more;
      }
    }
  }

  /** How many records of the run no audit event tells of. */
  ghost function SilentRecords(cfg: RouterConfig, events: seq<Event>): nat {
    if events == [] then 0
    else
      var before, ev := events[..|events| - 1], events[|events| - 1];
      SilentRecords(cfg, before) +
      if ev.Intended? && LogsSilently(cfg.(wiring := ev.wiring), StepAll(cfg, before), ev.intent, ev.call) then 1 else 0
  }

  /**
   Over every run of intents and responses, whatever the wirings: the transition log is exactly the executed, not
   idempotent completions and cancellations of the audit log, with their tasks and states, in order, if and only if no
   record was logged silently; and otherwise it is longer by exactly those.
   */
  lemma {:induction false} AuditIsTheLog(cfg: RouterConfig, events: seq<Event>)
    requires forall k | 0 <= k < |events| :: !events[k].Stored?
    ensures var r := StepAll(cfg, events);
      && |r.audit| == |r.replies|
      && |r.store.log| == |MovesOf(r.audit, r.replies)| + SilentRecords(cfg, events)
      && (r.store.log == MovesOf(r.audit, r.replies) <==> SilentRecords(cfg, events) == 0)
    decreases |events|
  {
    if events != [] {
      var before, ev := events[..|events| - 1], events[|events| - 1];
      AuditIsTheLog(cfg, before);
      RouterAccounting(cfg, before);
      if ev.Intended? {
        RouteLogs(cfg.(wiring := ev.wiring), StepAll(cfg, before), ev.intent, ev.call);
      }
    }
  }

  /** A wiring under which no transition is orphaned: no bridge and nothing enforced, or both bridges and new ids. */
  ghost predicate HonestCall(w: Wiring, call: Call) {
    (NoBridge(w) && !w.enforceStorage) || exists rust :: RustWired(w, rust, call)
  }

  lemma HonestNeverOrphans(w: Wiring, s: Store, a: Action, e: Entities, call: Call)
    requires HonestCall(w, call)
    ensures !OrphansAt(w, s, a, e, call)
  {
    if !(NoBridge(w) && !w.enforceStorage) && !a.CreateAction? && Resolve(s, e).Ok? {
      var rust :| RustWired(w, rust, call);
      WiredOrphansExactly(w, rust, s, MoveTo(Resolve(s, e).value, Some(Destination(a)), call));
    }
  }

  /** Under those wirings, changing as they may, only unprintable keys can hide a record. */
  lemma {:induction false} HonestRunsAudited(cfg: RouterConfig, events: seq<Event>)
    requires forall k | 0 <= k < |events| && events[k].Intended? ::
               HonestCall(events[k].wiring, events[k].call) && !AuditRaises(events[k].intent)
    ensures SilentRecords(cfg, events) == 0
    decreases |events|
  {
    if events != [] {
      var before, ev := events[..|events| - 1], events[|events| - 1];
      HonestRunsAudited(cfg, before);
      if ev.Intended? && Handled(cfg.(wiring := ev.wiring), StepAll(cfg, before), ev.intent) {
        HonestNeverOrphans(ev.wiring, StepAll(cfg, before).store, Registered(ev.intent.intentType.v).value,
                           ev.intent.entities.v, ev.call);
      }
    }
  }

  /** Storage authority enforced without a bridge admits no row, so there is nothing to log. */
  lemma EnforcedHandleStaysEmpty(w: Wiring, s: Store, a: Action, e: Entities, call: Call)
    requires NoBridge(w) && w.enforceStorage && s.rows == map[]
    ensures Handle(w, s, a, e, call).store.rows == map[]
  {
  }

  lemma {:induction false} EnforcedRunsEmpty(cfg: RouterConfig, events: seq<Event>)
    requires forall k | 0 <= k < |events| :: !events[k].Stored?
    requires forall k | 0 <= k < |events| && events[k].Intended? ::
               NoBridge(events[k].wiring) && events[k].wiring.enforceStorage
    ensures StepAll(cfg, events).store.rows == map[] && SilentRecords(cfg, events) == 0
    decreases |events|
  {
    if events != [] {
      var before, ev := events[..|events| - 1], events[|events| - 1];
      EnforcedRunsEmpty(cfg, before);
      if ev.Intended? && Admissible(cfg.(wiring := ev.wiring), ev.intent) {
        EnforcedHandleStaysEmpty(ev.wiring, StepAll(cfg, before).store, Registered(ev.intent.intentType.v).value,
                                 ev.intent.entities.v, ev.call);
      }
    }
  }

  // ---- The router object ----------------------------------------------------------------

  class CommandRouter {
    const cfg: RouterConfig
    const store: TaskStore
    const logic: ChallengeLogic
    var auditEvents: seq<Audit>
    ghost var replies: seq<Reply>

    ghost predicate Valid()
      reads this, store, logic
    {
      cfg.wiring == store.wiring && cfg.threshold == logic.threshold && SoundStore(store.View())
    }

    ghost function View(): Router
      reads this, store, logic
    {
      Router(store.View(), logic.View(), auditEvents, replies)
    }

    constructor (c: RouterConfig)
      requires 0.0 <= c.threshold <= 1.0
      ensures Valid() && cfg == c && View() == FRESH_ROUTER && fresh(store) && fresh(logic)
    {
      cfg := c;
      store := new TaskStore(c.wiring);
      logic := new ChallengeLogic(c.threshold);
      auditEvents, replies := [], [];
    }

    /** _resolve_task_reference: by id, else by a scan over all titles, newest first. */
    method ResolveTaskReference(e: Entities) returns (r: Result<nat, StoreError>)
      requires Valid()
      ensures r == Resolve(store.View(), e)
    {
      if e.taskId.Value? {
        return if e.taskId.v >= 0 && e.taskId.v in store.rows then Ok(e.taskId.v) else Err(Missing(e.taskId.v));
      }
      var name := NameOf(e);
      if name == "" {
        return Err(ValueError);
      }
      ghost var s := store.View();
      var matches: seq<nat> := [];
      var id := store.nextId;
      while id > 0
        invariant 0 <= id <= store.nextId
        invariant forall k: nat :: k in matches <==> id <= k && Named(s, name, k)
        invariant forall i | 0 <= i < |matches| :: matches[i] >= id
        invariant forall i, j | 0 <= i < j < |matches| :: matches[i] > matches[j]
      {
        id := id - 1;
        if id in store.rows && Lower(store.rows[id].title) == name {
          matches := matches + [id];
        }
      }
      if matches == [] {
        ResolvesNone(s, e);
        return Err(KeyError);
      }
      assert Named(s, name, matches[0]);
      if |matches| > 1 {
        assert Named(s, name, matches[1]);
        ResolvesAmbiguous(s, e, matches[0], matches[1]);
        return Err(ValueError);
      }
      assert OnlyNamed(s, name, matches[0]);
      ResolvesByName(s, e, matches[0]);
      return Ok(matches[0]);
    }

    /** _emit_audit_event and the result after it; building the event may raise instead. */
    method Emit(hides: bool, reply: Reply, event: Audit) returns (raised: bool)
      modifies this
      ensures raised == hides
      ensures auditEvents == old(auditEvents) + if hides then [] else [event]
      ensures replies == old(replies) + if hides then [] else [reply]
    {
      if hides {
        return true;
      }
      auditEvents := auditEvents + [event];
      replies := replies + [reply];
      return false;
    }

    method RunHandler(a: Action, e: Entities, call: Call) returns (x: Execution)
      requires Valid()
      modifies store
      ensures Valid() && x == Handle(cfg.wiring, old(store.View()), a, e, call) && store.View() == x.store
    {
      HandleAccounts(cfg.wiring, store.View(), a, e, call);
      if a.CreateAction? {
        if e.priority.NoneValue? {
          return Failed(Store(store.rows, store.nextId, store.transitionLog), "INVALID_ENTITY");
        }
        if e.description.WrongType? || e.goal.WrongType? {
          return Failed(Store(store.rows, store.nextId, store.transitionLog), "INTERNAL_ERROR");
        }
        var id := store.nextId;
        var created := store.CreateTask(DraftOf(e), call);
        var s := Store(store.rows, store.nextId, store.transitionLog);
        return if created.Ok? then Done(s, id, None, created.value.state) else Failed(s, ErrorCode(created.error));
      }
      var r := ResolveTaskReference(e);
      if r.Err? {
        return Failed(Store(store.rows, store.nextId, store.transitionLog), ErrorCode(r.error));
      }
      var before := store.rows[r.value].state;
      if before == Destination(a) {
        return Done(Store(store.rows, store.nextId, store.transitionLog), r.value, Some(before), before);
      }
      var moved := store.TransitionTask(r.value, Some(Destination(a)), call);
      var s := Store(store.rows, store.nextId, store.transitionLog);
      return if moved.Ok? then Done(s, r.value, Some(before), moved.value.state) else Failed(s, ErrorCode(moved.error));
    }

    /** Handler, result and audit event for an intent past the challenge gate. */
    method ExecuteAction(a: Action, e: Entities, call: Call, hides: bool) returns (out: Option<Reply>)
      requires Valid()
      modifies this, store
      ensures Valid() && (out.None? <==> hides)
      ensures var r := old(View()); var r' := Execute(cfg, r, a, e, call);
        View() == if hides then Hidden(r, r') else r'
      ensures out.Some? ==> |replies| > 0 && out.value == replies[|replies| - 1]
    {
      var x := RunHandler(a, e, call);
      var reply, raised;
      match x {
        case Done(_, task, before, after) =>
          reply := Reply(Executed, Some(a), Some(task));
          raised := Emit(hides, reply, Audit(Some(a), before, Some(after), true));
          if raised {
            // The handler's own try block takes this for a failed action, and its audit event raises again.
            reply := Reply(Rejected("INVALID_ENTITY"), Some(a), None);
            raised := Emit(hides, reply, Audit(Some(a), None, None, false));
          }
        case Failed(_, code) =>
          reply := Reply(Rejected(code), Some(a), None);
          raised := Emit(hides, reply, Audit(Some(a), None, None, false));
      }
      return if raised then None else Some(reply);
    }

    /** _evaluate_challenge and its reply; neither means that the handler may run. */
    method EvaluateChallenge(a: Action, e: Entities, hides: bool) returns (raised: bool, challenge: Option<Reply>)
      requires Valid()
      modifies this, logic
      ensures Valid() && store.View() == old(store.View())
      ensures raised <==> GateRaises(cfg, store.View(), a, e) || (hides && ChallengeDue(cfg, old(View()), a, e))
      ensures challenge.Some? <==> !raised && ChallengeDue(cfg, old(View()), a, e)
      ensures GateRaises(cfg, store.View(), a, e) || !AtGate(cfg, store.View(), a, e) ==> View() == old(View())
      ensures AtGate(cfg, store.View(), a, e) && !GateRaises(cfg, store.View(), a, e) ==>
        var noted := Noted(cfg, old(View()), a, e);
        var reply := Reply(ChallengeRequired, Some(a), Some(Resolve(store.View(), e).value));
        && (challenge.Some? ==> challenge.value == reply)
        && View() == if challenge.Some? then Answered(noted, reply, Audit(Some(a), None, None, false)) else noted
    {
      if !cfg.challengeGate || a.CreateAction? {
        return false, None;
      }
      var r := ResolveTaskReference(e);
      if r.Err? {
        return r.error.OverflowError?, None;
      }
      if e.alignment.NoneValue? || e.declaredGoal.Unprintable? {
        return true, None;
      }
      var hit := logic.Evaluate(r.value, ActionName(a), ScoreOf(e), e.userOverrode);
      if hit {
        var reply := Reply(ChallengeRequired, Some(a), Some(r.value));
        raised := Emit(hides, reply, Audit(Some(a), None, None, false));
        return raised, if raised then None else Some(reply);
      }
      return false, None;
    }

    /** The only entry point. `None` is an exception that escapes the call. */
    method RouteIntent(i: Intent, call: Call) returns (out: Option<Reply>)
      requires Valid()
      modifies this, store, logic
      ensures Valid() && View() == Route(cfg, old(View()), i, call)
      ensures out.None? <==> Raises(cfg, old(store.View()), i)
      ensures out.Some? ==> |replies| > 0 && out.value == replies[|replies| - 1]
    {
      var shape := CheckIntent(i);
      if i.NotAMapping? || shape.Escapes? {
        return None;
      }
      var rejection := None;
      if shape.Fails? {
        if CheckTime(i.timestamp).Escapes? {
          return None;
        }
        rejection := Some(Reply(Rejected("INVALID_INTENT_SHAPE"), None, None));
      } else if i.confidence.v.r < cfg.minConfidence {
        rejection := Some(Reply(Rejected("LOW_CONFIDENCE"), None, None));
      } else if Registered(i.intentType.v).None? {
        rejection := Some(Reply(Rejected("UNSUPPORTED_INTENT"), None, None));
      } else {
        var check := CheckEntities(Registered(i.intentType.v).value, i.entities.v);
        if check.Escapes? {
          return None;
        }
        if check.Fails? {
          rejection := Some(Reply(Rejected("INVALID_ENTITY"), Registered(i.intentType.v), None));
        }
      }
      if rejection.Some? {
        var lost := Emit(AuditRaises(i), rejection.value, Audit(rejection.value.action, None, None, false));
        return if lost then None else rejection;
      }
      var a, e := Registered(i.intentType.v).value, i.entities.v;
      var raised, challenge := EvaluateChallenge(a, e, AuditRaises(i));
      if raised || challenge.Some? {
        return challenge;
      }
      out := ExecuteAction(a, e, call, AuditRaises(i));
    }
  }
}
