/** Every interleaving of the calls on one engine session (internal/analyzerhost/script_engines.go). */
module EngineRuns {
  import opened Text
  import opened EngineSession

  // ----- threads -----

  datatype Call = Load(path: string) | Close

  /** Where a call is between two atomic steps. */
  datatype Pc =
    | Entering
    | Waiting(id: nat)
    | Woken(id: nat)
    | Loading(id: nat)
    | Finishing(id: nat, backend: Option<Backend>, err: Option<Error>)
    | Dropping(id: nat, backend: Option<Backend>, err: Option<Error>, late: bool)
    | Rejoining(id: nat, error: Error)
    | Marking(id: nat, error: Error)
    | Shutting(todo: map<string, Backend>, failures: seq<Option<Error>>)
    | Returned(backend: Option<Backend>, err: Option<Error>, late: bool)

  datatype Thread = Thread(call: Call, pc: Pc, cancelled: bool)

  /** One run of the loader: for which path, by which thread, and the engine and the error it made once it has returned. */
  datatype LoaderRun = LoaderRun(path: string, thread: nat, made: Option<Option<Backend>>, fault: Option<Error>)

  /**
   * The session, the calls on it, the runs of the loader so far, and how often each engine was closed. What closing the
   * engine of a load that is not kept reported is remembered by load, and what the call of Close was told in order.
   */
  datatype World = World(
    session: Session,
    threads: seq<Thread>,
    loads: seq<LoaderRun>,
    shut: multiset<Backend>,
    closer: Option<nat>,
    drops: map<nat, Option<Error>>,
    failures: seq<Option<Error>>)

  /** One atomic step of a call: a critical section, a branch of a select, or a return from outside code. */
  datatype Move =
    | Enter
    | GiveUp
    | SeeClosed
    | Wake
    | Collect
    | LoaderReturns(made: Option<Backend>, fault: Option<Error>)
    | Finish
    | Drop(failure: Option<Error>)
    | Rejoin
    | Mark
    | ShutOne(path: string, failure: Option<Error>)
    | ShutEnd

  datatype Action = Start(call: Call) | Cancel(t: nat) | Go(t: nat, move: Move)

  function Initial(hasLoader: bool): World {
    World(NewSession(hasLoader), [], [], multiset{}, None, map[], [])
  }

  /** Some run of the loader handed out the engine. */
  ghost predicate Made(loads: seq<LoaderRun>, b: Backend) {
    exists id | 0 <= id < |loads| :: loads[id].made == Some(Some(b))
  }

  /** The thread refers to a load that exists, on behalf of a call that loads. */
  predicate HasRecord(w: World, th: Thread, id: nat) {
    id < |w.session.records| && id < |w.loads| && th.call.Load?
  }

  /** A loader is only assumed never to hand out an engine it handed out before. */
  ghost predicate CanMove(w: World, th: Thread, m: Move) {
    match th.pc
    case Entering => m.Enter?
    case Waiting(id) =>
      || (m.GiveUp? && th.cancelled)
      || (m.SeeClosed? && w.session.done > 0)
      || (m.Wake? && HasRecord(w, th, id) && w.session.records[id].closes > 0)
    case Woken(id) => m.Collect? && HasRecord(w, th, id)
    case Loading(id) => m.LoaderReturns? && HasRecord(w, th, id) && (m.made.Some? ==> !Made(w.loads, m.made.value))
    case Finishing(id, b, e) => m.Finish? && HasRecord(w, th, id) && (e.None? ==> b.Some?)
    case Dropping(id, b, e, late) => m.Drop? && (m.failure.Some? ==> CanClose(b)) && (late || e.Some?)
    case Rejoining(id, _) => m.Rejoin? && HasRecord(w, th, id)
    case Marking(id, _) => m.Mark? && HasRecord(w, th, id)
    case Shutting(todo, _) =>
      if m.ShutOne? then m.path in todo && (m.failure.Some? ==> todo[m.path].closable)
      else m.ShutEnd? && todo == map[]
    case Returned(_, _, _) => false
  }

  ghost predicate Enabled(w: World, a: Action) {
    match a
    case Start(_) => true
    case Cancel(t) => t < |w.threads|
    case Go(t, m) => t < |w.threads| && CanMove(w, w.threads[t], m)
  }

  // ----- steps -----

  function Put(w: World, t: nat, pc: Pc): World
    requires t < |w.threads|
  {
    w.(threads := w.threads[t := w.threads[t].(pc := pc)])
  }

  function Closed(w: World, b: Option<Backend>): (v: World)
    ensures v == w.(shut := v.shut)
  {
    if CanClose(b) then w.(shut := w.shut + multiset{b.value}) else w
  }

  function EnterMove(w: World, t: nat): World
    requires t < |w.threads| && w.threads[t].pc.Entering?
  {
    match w.threads[t].call
    case Close =>
      var (s, handed) := CloseStep(w.session);
      if handed.None? then Put(w, t, Returned(None, None, true))
      else Put(w.(session := s, closer := Some(t)), t, Shutting(handed.value, []))
    case Load(path) =>
      var (s, entry) := EnterStep(w.session, path, w.threads[t].cancelled);
      match entry
      case Answer(b, e) => Put(w, t, Returned(b, e, w.session.hasLoader && w.session.closed))
      case Join(id) => Put(w, t, Waiting(id))
      case Begin(id) => Put(w.(session := s, loads := w.loads + [LoaderRun(path, t, None, None)]), t, Loading(id))
  }

  function AfterSection(w: World, t: nat, s: Session, next: Next, id: nat, b: Option<Backend>, e: Option<Error>): World
    requires t < |w.threads|
    requires next.MarkLate? ==> e.Some?
  {
    var v := w.(session := s);
    match next
    case Settled(answer, err) => Put(v, t, Returned(answer, err, false))
    case DropLate => Put(v, t, Dropping(id, b, e, true))
    case DropFailed => Put(v, t, Dropping(id, b, e, false))
    case MarkLate => Put(v, t, Marking(id, Wrapped(e)))
  }

  /** The error of a load that found the session closed. */
  function Wrapped(e: Option<Error>): (r: Error)
    ensures SaysClosed(r)
  {
    var parts := Present([Some(SessionClosed), e]);
    assert parts[0] == SessionClosed;
    Joined(parts)
  }

  function ReturnFromLoader(w: World, t: nat, b: Option<Backend>, e: Option<Error>): World
    requires t < |w.threads| && w.threads[t].pc.Loading? && w.threads[t].pc.id < |w.loads|
  {
    var id := w.threads[t].pc.id;
    var err := if e.None? && b.None? then Some(NilBackend) else e;
    Put(w.(loads := w.loads[id := w.loads[id].(made := Some(b), fault := e)]), t, Finishing(id, b, err))
  }

  function DropMove(w: World, t: nat, failure: Option<Error>): World
    requires t < |w.threads| && w.threads[t].pc.Dropping? && (w.threads[t].pc.late || w.threads[t].pc.err.Some?)
  {
    var pc := w.threads[t].pc;
    var e := if CanClose(pc.backend) then JoinErrors([pc.err, failure]) else pc.err;
    assert Present([pc.err, failure]) == [] ==> pc.err.None?;
    var v := Closed(w, pc.backend).(drops := w.drops[pc.id := failure]);
    if pc.late then Put(v, t, Marking(pc.id, Wrapped(e)))
    else Put(v, t, Rejoining(pc.id, e.value))
  }

  function ShutMove(w: World, t: nat, path: string, failure: Option<Error>): World
    requires t < |w.threads| && w.threads[t].pc.Shutting? && path in w.threads[t].pc.todo
  {
    var pc := w.threads[t].pc;
    Put(Closed(w, Some(pc.todo[path])).(failures := w.failures + [failure]), t, Shutting(pc.todo - {path}, pc.failures + [failure]))
  }

  ghost function Moved(w: World, t: nat, m: Move): World
    requires t < |w.threads| && CanMove(w, w.threads[t], m)
  {
    var th := w.threads[t];
    match th.pc
    case Entering => EnterMove(w, t)
    case Waiting(id) =>
      if m.GiveUp? then Put(w, t, Returned(None, Some(Cancelled), false))
      else if m.SeeClosed? then Put(w, t, Returned(None, Some(SessionClosed), true))
      else Put(w, t, Woken(id))
    case Woken(id) =>
      var (b, e) := CollectStep(w.session, id, th.cancelled);
      Put(w, t, Returned(b, e, w.session.closed))
    case Loading(id) => ReturnFromLoader(w, t, m.made, m.fault)
    case Finishing(id, b, e) =>
      var (s, next) := FinishStep(w.session, th.call.path, id, b, e);
      AfterSection(w, t, s, next, id, b, e)
    case Dropping(_, _, _, _) => DropMove(w, t, m.failure)
    case Rejoining(id, e) =>
      var (s, next) := RejoinStep(w.session, th.call.path, id, e);
      AfterSection(w, t, s, next, id, None, Some(e))
    case Marking(id, e) =>
      Put(w.(session := MarkStep(w.session, id, e)), t, Returned(None, Some(e), true))
    case Shutting(todo, failures) =>
      if m.ShutOne? then ShutMove(w, t, m.path, m.failure)
      else Put(w, t, Returned(None, JoinErrors(failures), true))
  }

  ghost function After(w: World, a: Action): World
    requires Enabled(w, a)
  {
    match a
    case Start(call) => w.(threads := w.threads + [Thread(call, Entering, false)])
    case Cancel(t) => w.(threads := w.threads[t := w.threads[t].(cancelled := true)])
    case Go(t, m) => Moved(w, t, m)
  }

  /** The world after some steps, if each of them can be taken. */
  ghost function Run(w: World, actions: seq<Action>): Option<World>
    decreases |actions|
  {
    if actions == [] then Some(w)
    else if !Enabled(w, actions[0]) then None
    else Run(After(w, actions[0]), actions[1..])
  }

  ghost predicate Reachable(w: World) {
    exists hasLoader, actions :: Run(Initial(hasLoader), actions) == Some(w)
  }
}
