/** The state a WebAssembly engine session keeps under its lock (internal/analyzerhost/script_engines.go). */
module EngineSession {
  import opened Text

  const MAX_SCRIPT_ENGINES := 4

  /** An engine; one that is closable has a Close method. */
  datatype Backend = Backend(id: nat, closable: bool)

  datatype Error =
    | NoLoader | SessionClosed | Cancelled | LimitExceeded | NilBackend
    | External(code: nat)
    | Joined(parts: seq<Error>)

  /** Joining errors drops the absent ones, and is absent when all are. */
  function Present(errors: seq<Option<Error>>): seq<Error> {
    if errors == [] then []
    else (if errors[0].Some? then [errors[0].value] else []) + Present(errors[1..])
  }

  function JoinErrors(errors: seq<Option<Error>>): Option<Error> {
    var parts := Present(errors);
    if parts == [] then None else Some(Joined(parts))
  }

  /** Whether an error is, or wraps, the closed-session error. */
  predicate SaysClosed(e: Error) {
    e == SessionClosed || (e.Joined? && exists i | 0 <= i < |e.parts| :: SaysClosed(e.parts[i]))
  }

  /** A load in progress: how often its channel was closed, and what it left for those waiting. */
  datatype Record = Record(closes: nat, backend: Option<Backend>, err: Option<Error>)

  datatype Session = Session(
    hasLoader: bool,
    loaded: map<string, Backend>,
    failed: map<string, Error>,
    loading: map<string, nat>,
    closed: bool,
    done: nat,
    records: seq<Record>)

  datatype Entry<R> = Answer(backend: Option<Backend>, err: Option<Error>) | Join(pending: R) | Begin(pending: R)

  datatype Next = Settled(backend: Option<Backend>, err: Option<Error>) | DropLate | DropFailed | MarkLate

  function NewSession(hasLoader: bool): Session {
    Session(hasLoader, map[], map[], map[], false, 0, [])
  }

  // ----- the critical sections, each as one atomic step -----

  function EnterStep(s: Session, path: string, cancelled: bool): (Session, Entry<nat>) {
    if !s.hasLoader then (s, Answer(None, Some(NoLoader)))
    else if s.closed then (s, Answer(None, Some(SessionClosed)))
    else if cancelled then (s, Answer(None, Some(Cancelled)))
    else if path in s.loaded then (s, Answer(Some(s.loaded[path]), None))
    else if path in s.failed then (s, Answer(None, Some(s.failed[path])))
    else if path in s.loading then (s, Join(s.loading[path]))
    else if |s.loaded| + |s.failed| + |s.loading| >= MAX_SCRIPT_ENGINES then (s, Answer(None, Some(LimitExceeded)))
    else (Admitted(s, path), Begin(|s.records|))
  }

  function Admitted(s: Session, path: string): Session {
    s.(loading := s.loading[path := |s.records|], records := s.records + [Record(0, None, None)])
  }

  function CollectStep(s: Session, id: nat, cancelled: bool): (Option<Backend>, Option<Error>)
    requires id < |s.records|
  {
    if s.closed then (None, Some(SessionClosed))
    else if cancelled then (None, Some(Cancelled))
    else (s.records[id].backend, s.records[id].err)
  }

  /** Leaves the outcome with the load, takes it off the list, and releases those waiting. */
  function Released(s: Session, path: string, id: nat, backend: Option<Backend>, err: Option<Error>): Session
    requires id < |s.records|
  {
    s.(loading := s.loading - {path}, records := s.records[id := Record(s.records[id].closes + 1, backend, err)])
  }

  /** Keeps the outcome of a load in the open session, and releases those waiting. */
  function Settle(s: Session, path: string, id: nat, backend: Option<Backend>, err: Option<Error>): Session
    requires id < |s.records| && (err.None? ==> backend.Some?)
  {
    if err.Some? then Released(s.(failed := s.failed[path := err.value]), path, id, s.records[id].backend, err)
    else Released(s.(loaded := s.loaded[path := backend.value]), path, id, backend, err)
  }

  predicate CanClose(backend: Option<Backend>) {
    backend.Some? && backend.value.closable
  }

  function FinishStep(s: Session, path: string, id: nat, backend: Option<Backend>, err: Option<Error>): (Session, Next)
    requires id < |s.records| && (err.None? ==> backend.Some?)
  {
    if s.closed then (s.(loading := s.loading - {path}), DropLate)
    else if err.Some? && CanClose(backend) then (s, DropFailed)
    else
      var after := Settle(s, path, id, backend, err);
      (after, Settled(after.records[id].backend, err))
  }

  /** The second half of a failed load, entered again after its engine was closed without the lock. */
  function RejoinStep(s: Session, path: string, id: nat, err: Error): (Session, Next)
    requires id < |s.records|
  {
    if s.closed then (s.(loading := s.loading - {path}), MarkLate)
    else
      var after := Settle(s, path, id, None, Some(err));
      (after, Settled(after.records[id].backend, Some(err)))
  }

  function MarkStep(s: Session, id: nat, err: Error): Session
    requires id < |s.records|
  {
    var r := s.records[id];
    s.(records := s.records[id := r.(err := Some(err), closes := r.closes + 1)])
  }

  /** Closing hands the loaded engines to the caller once; a second call gets nothing. */
  function CloseStep(s: Session): (Session, Option<map<string, Backend>>) {
    if s.closed then (s, None)
    else
      (s.(closed := true, done := s.done + 1, loaded := map[], failed := map[], loading := map[]), Some(s.loaded))
  }

  // ----- the same sections on the objects the program updates -----

  class PendingLoad {
    ghost const index: nat
    var closes: nat
    var backend: Option<Backend>
    var err: Option<Error>

    constructor (ghost index: nat)
      ensures this.index == index && closes == 0 && backend == None && err == None
    {
      this.index := index;
      closes, backend, err := 0, None, None;
    }

    ghost function Value(): Record
      reads `closes, `backend, `err
    {
      Record(closes, backend, err)
    }
  }

  ghost function Values(records: seq<PendingLoad>): (r: seq<Record>)
    reads records
    ensures |r| == |records|
    ensures forall i | 0 <= i < |r| :: r[i] == records[i].Value()
  {
    seq(|records|, i requires 0 <= i < |records| reads records => records[i].Value())
  }

  ghost function Indices(loading: map<string, PendingLoad>): (r: map<string, nat>)
    ensures r.Keys == loading.Keys
  {
    map p | p in loading :: loading[p].index
  }

  lemma IndicesWithout(loading: map<string, PendingLoad>, path: string)
    ensures Indices(loading - {path}) == Indices(loading) - {path}
  {
  }

  lemma IndicesWith(loading: map<string, PendingLoad>, path: string, pending: PendingLoad)
    ensures Indices(loading[path := pending]) == Indices(loading)[path := pending.index]
  {
  }

  class ScriptEngines {
    const hasLoader: bool
    var loaded: map<string, Backend>
    var failed: map<string, Error>
    var loading: map<string, PendingLoad>
    var closed: bool
    var done: nat
    ghost var records: seq<PendingLoad>

    ghost predicate Valid()
      reads `loading, `records
    {
      && (forall i | 0 <= i < |records| :: records[i].index == i)
      && (forall p | p in loading :: loading[p] in records)
    }

    ghost function State(): Session
      requires Valid()
      reads this, records
    {
      Session(hasLoader, loaded, failed, Indices(loading), closed, done, Values(records))
    }

    constructor (hasLoader: bool)
      ensures Valid() && State() == NewSession(hasLoader)
    {
      this.hasLoader := hasLoader;
      loaded, failed, loading, closed, done, records := map[], map[], map[], false, 0, [];
    }

    /** The first critical section of a load. */
    method EnterLoad(path: string, cancelled: bool) returns (entry: Entry<PendingLoad>)
      requires Valid()
      modifies `loading, `records
      ensures Valid()
      ensures State() == EnterStep(old(State()), path, cancelled).0
      ensures match EnterStep(old(State()), path, cancelled).1
        case Answer(b, e) => entry == Answer(b, e)
        case Join(id) => entry.Join? && entry.pending in records && entry.pending.index == id
        case Begin(id) => entry.Begin? && entry.pending in records && entry.pending.index == id && fresh(entry.pending)
    {
      if !hasLoader { return Answer(None, Some(NoLoader)); }
      if closed { return Answer(None, Some(SessionClosed)); }
      if cancelled { return Answer(None, Some(Cancelled)); }
      if path in loaded { return Answer(Some(loaded[path]), None); }
      if path in failed { return Answer(None, Some(failed[path])); }
      if path in loading { return Join(loading[path]); }
      CountKeys(State().loading, loading);
      if |loaded| + |failed| + |loading| >= MAX_SCRIPT_ENGINES { return Answer(None, Some(LimitExceeded)); }
      var pending := Admit(path);
      return Begin(pending);
    }

    /** Registers a new load of a path. */
    method Admit(path: string) returns (pending: PendingLoad)
      requires Valid()
      modifies `loading, `records
      ensures Valid() && fresh(pending) && pending in records && pending.index == old(|records|)
      ensures State() == Admitted(old(State()), path)
    {
      hide Values, Indices;
      ghost var was := State();
      pending := new PendingLoad(|records|);
      loading := loading[path := pending];
      records := records + [pending];
      ghost var now := State();
      IndicesWith(old(loading), path, pending);
      assert now.records == was.records + [Record(0, None, None)];
    }

    /** The critical section of a load that waited for another one's result. */
    method Collect(pending: PendingLoad, cancelled: bool) returns (backend: Option<Backend>, err: Option<Error>)
      requires Valid() && pending in records
      ensures (backend, err) == CollectStep(State(), pending.index, cancelled)
    {
      if closed { return None, Some(SessionClosed); }
      if cancelled { return None, Some(Cancelled); }
      return pending.backend, pending.err;
    }

    /** Leaves the outcome with the load, takes it off the list, and releases those waiting. */
    method Release(path: string, pending: PendingLoad, backend: Option<Backend>, err: Option<Error>)
      requires Valid() && pending in records
      modifies `loading, pending
      ensures Valid() && pending.backend == backend
      ensures State() == Released(old(State()), path, pending.index, backend, err)
    {
      hide Values, Indices;
      ghost var was := State();
      loading := loading - {path};
      pending.backend := backend;
      pending.err := err;
      pending.closes := pending.closes + 1;
      ghost var now := State();
      IndicesWithout(old(loading), path);
      assert now.records == was.records[pending.index := pending.Value()];
    }

    /** Keeps a failure for later calls. */
    method Fail(path: string, pending: PendingLoad, err: Error)
      requires Valid() && pending in records
      modifies `failed, `loading, pending
      ensures Valid()
      ensures State() == Settle(old(State()), path, pending.index, None, Some(err))
      ensures State().records[pending.index].backend == pending.backend
    {
      hide Values, Indices;
      failed := failed[path := err];
      Release(path, pending, pending.backend, Some(err));
    }

    /** Keeps an engine for later calls. */
    method Keep(path: string, pending: PendingLoad, backend: Backend)
      requires Valid() && pending in records
      modifies `loaded, `loading, pending
      ensures Valid()
      ensures State() == Settle(old(State()), path, pending.index, Some(backend), None)
      ensures State().records[pending.index].backend == pending.backend
    {
      hide Values, Indices;
      loaded := loaded[path := backend];
      Release(path, pending, Some(backend), None);
    }

    /** The critical section a load enters when its loader has returned. */
    method Finish(path: string, pending: PendingLoad, backend: Option<Backend>, err: Option<Error>) returns (next: Next)
      requires Valid() && pending in records && (err.None? ==> backend.Some?)
      modifies `loaded, `failed, `loading, pending
      ensures Valid()
      ensures (State(), next) == FinishStep(old(State()), path, pending.index, backend, err)
    {
      hide Values, Indices, Released;
      if closed {
        loading := loading - {path};
        IndicesWithout(old(loading), path);
        return DropLate;
      }
      if err.Some? {
        if CanClose(backend) { return DropFailed; }
        Fail(path, pending, err.value);
      } else {
        Keep(path, pending, backend.value);
      }
      return Settled(pending.backend, err);
    }

    /** The critical section a failed load enters after closing the engine it was given. */
    method Rejoin(path: string, pending: PendingLoad, err: Error) returns (next: Next)
      requires Valid() && pending in records
      modifies `failed, `loading, pending
      ensures Valid()
      ensures (State(), next) == RejoinStep(old(State()), path, pending.index, err)
    {
      hide Values, Indices;
      if closed {
        loading := loading - {path};
        IndicesWithout(old(loading), path);
        return MarkLate;
      }
      Fail(path, pending, err);
      return Settled(pending.backend, Some(err));
    }

    /** The last critical section of a load that found the session closed. */
    method Mark(pending: PendingLoad, err: Error)
      requires Valid() && pending in records
      modifies pending
      ensures Valid()
      ensures State() == MarkStep(old(State()), pending.index, err)
    {
      pending.err := Some(err);
      pending.closes := pending.closes + 1;
    }

    /** The critical section of closing the session. */
    method BeginClose() returns (handed: Option<map<string, Backend>>)
      requires Valid()
      modifies `closed, `done, `loaded, `failed, `loading
      ensures Valid()
      ensures (State(), handed) == CloseStep(old(State()))
    {
      if closed { return None; }
      closed, done := true, done + 1;
      handed := Some(loaded);
      loaded, failed, loading := map[], map[], map[];
    }
  }

  lemma CountKeys<K, V, W>(a: map<K, V>, b: map<K, W>)
    requires a.Keys == b.Keys
    ensures |a| == |b|
  {
    assert |a| == |a.Keys| && |b| == |b.Keys|;
  }
}
