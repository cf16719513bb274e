/** Which error a call on an engine session returns, in every run (internal/analyzerhost/script_engines.go). */
module EngineErrors {
  import opened Text
  import opened EngineSession
  import opened EngineRuns
  import opened EngineSafety

  // ----- the error of a load -----

  /** What the loader did wrong: the error it returned, or returning neither an engine nor an error. */
  function Fault(l: LoaderRun): Option<Error> {
    if l.fault.Some? then l.fault
    else if l.made == Some(None) then Some(NilBackend)
    else None
  }

  /** The fault, joined with what closing reported if the loader also returned an engine that can be closed. */
  function LoadError(l: LoaderRun, failure: Option<Error>): Option<Error> {
    var fault := Fault(l);
    if fault.None? then None
    else if l.made.Some? && l.made.value.Some? && l.made.value.value.closable then
      Some(Joined(if failure.Some? then [fault.value, failure.value] else [fault.value]))
    else fault
  }

  /** The error remembered for a load, which is absent when it gave an engine. */
  function Remembered(w: World, id: nat): Option<Error>
    requires id < |w.loads|
  {
    LoadError(w.loads[id], if id in w.drops then w.drops[id] else None)
  }

  lemma JoinTwo(e: Error, failure: Option<Error>)
    ensures JoinErrors([Some(e), failure]) == Some(Joined(if failure.Some? then [e, failure.value] else [e]))
  {
    var all := [Some(e), failure];
    assert all[1..] == [failure] && [failure][1..] == [] && Present([]) == [];
    assert Present(all) == [e] + Present([failure]);
    if failure.Some? {
      assert Present([failure]) == [failure.value];
      assert [e] + [failure.value] == [e, failure.value];
    } else {
      assert Present([failure]) == [] && [e] + [] == [e];
    }
  }

  // ----- why a call returned an error -----

  /** A load of the path has finished while the session was open, and left the error. */
  ghost predicate LeftBy(w: World, path: string, e: Error) {
    exists id | 0 <= id < |w.loads| && id < |w.session.records| ::
      w.loads[id].path == path && w.session.records[id].closes == 1 && Remembered(w, id) == Some(e)
  }

  /** Four other paths have been loaded. */
  predicate FourOthers(w: World, path: string) {
    |w.loads| == 4 && forall id | 0 <= id < |w.loads| :: w.loads[id].path != path
  }

  /** Every error of a load whose last step found the session open is one of four kinds. */
  ghost predicate Reason(w: World, th: Thread, e: Error)
    requires th.call.Load?
  {
    || (e == NoLoader && !w.session.hasLoader)
    || (e == Cancelled && th.cancelled)
    || (e == LimitExceeded && FourOthers(w, th.call.path))
    || LeftBy(w, th.call.path, e)
  }

  // ----- the invariant -----

  ghost predicate ThreadErr(w: World, t: nat)
    requires t < |w.threads|
  {
    var th := w.threads[t];
    match th.pc
    case Loading(id) => id < |w.loads| && id !in w.drops
    case Finishing(id, b, e) => id < |w.loads| && id !in w.drops && w.loads[id].made == Some(b) && e == Fault(w.loads[id])
    case Dropping(id, b, e, late) =>
      && id < |w.loads| && id !in w.drops && w.loads[id].made == Some(b) && e == Fault(w.loads[id])
      && (!late ==> e.Some? && CanClose(b))
    case Rejoining(id, e) => id < |w.loads| && Remembered(w, id) == Some(e)
    case Shutting(_, failures) => failures == w.failures
    case Returned(b, e, late) =>
      if th.call.Load? then !late && e.Some? ==> Reason(w, th, e.value)
      else e == if w.closer == Some(t) then JoinErrors(w.failures) else None
    case _ => true
  }

  /** While the session is open, a load that has finished left the remembered error. */
  predicate RecordErr(w: World, id: nat)
    requires id < |w.loads| && id < |w.session.records|
  {
    !w.session.closed && w.session.records[id].closes == 1 ==> w.session.records[id].err == Remembered(w, id)
  }

  ghost predicate ErrInv(w: World) {
    && |w.loads| == |w.session.records|
    && (forall id | 0 <= id < |w.loads| :: RecordErr(w, id))
    && (forall t | 0 <= t < |w.threads| :: ThreadErr(w, t))
    && (forall id | id in w.drops :: id < |w.loads|)
    && (w.closer.None? ==> w.failures == [])
  }

  // ----- steps keep it -----

  /** A step of the thread changes nothing but its own place, the session, and what belongs to the load it owns. */
  ghost predicate Framed(w: World, v: World, t: nat, id: nat) {
    && t < |w.threads| == |v.threads| && v.threads == w.threads[t := v.threads[t]]
    && v.threads[t].call == w.threads[t].call && v.threads[t].cancelled == w.threads[t].cancelled
    && |w.loads| == |v.loads| == |w.session.records| == |v.session.records|
    && (forall i | 0 <= i < |w.loads| && i != id ::
          v.loads[i] == w.loads[i] && v.session.records[i] == w.session.records[i]
          && (i in v.drops <==> i in w.drops) && (i in w.drops ==> v.drops[i] == w.drops[i]))
    && (id < |w.loads| ==> v.loads[id].path == w.loads[id].path)
    && (forall i | i in v.drops :: i in w.drops || i == id < |w.loads|)
    && v.session.hasLoader == w.session.hasLoader && (w.session.closed ==> v.session.closed)
    && (w.closer.Some? ==> v.closer == w.closer)
  }

  /** The load is none, or one that the thread owns and that has not finished. */
  predicate Unfinished(w: World, t: nat, id: nat) {
    id >= |w.loads| || (id < |w.session.records| && w.loads[id].thread == t && w.session.records[id].closes == 0)
  }

  lemma ReasonFramed(w: World, v: World, t: nat, id: nat, th: Thread, e: Error)
    requires Framed(w, v, t, id) && Unfinished(w, t, id) && th.call.Load? && Reason(w, th, e)
    ensures Reason(v, th, e)
  {
    var path := th.call.path;
    if LeftBy(w, path, e) {
      var i :| 0 <= i < |w.loads| && i < |w.session.records| &&
        w.loads[i].path == path && w.session.records[i].closes == 1 && Remembered(w, i) == Some(e);
      assert i != id;
      assert v.loads[i].path == path && v.session.records[i].closes == 1 && Remembered(v, i) == Some(e);
    }
  }

  /** Threads other than the one that moves. */
  lemma OtherFramed(w: World, v: World, t: nat, id: nat, u: nat)
    requires Inv(w) && ErrInv(w) && Framed(w, v, t, id) && Unfinished(w, t, id) && u < |w.threads| && u != t
    requires w.threads[u].pc.Shutting? || w.threads[u].call.Close? ==>
      v.failures == w.failures && (v.closer == w.closer || v.closer == Some(t))
    ensures ThreadErr(v, u)
  {
    hide SessionInv, Distinct, OnlyMade, LoadInv, CloserInv, Reason;
    assert ThreadErr(w, u) && ThreadInv(w, u);
    var th := w.threads[u];
    match th.pc
    case Returned(b, e, late) =>
      if th.call.Load? && !late && e.Some? { ReasonFramed(w, v, t, id, th, e.value); }
    case _ =>
  }

  lemma FrameKeeps(w: World, v: World, t: nat, id: nat)
    requires Inv(w) && ErrInv(w) && Framed(w, v, t, id) && Unfinished(w, t, id)
    requires ThreadErr(v, t) && (id < |v.loads| ==> RecordErr(v, id))
    requires v.closer == w.closer && v.failures == w.failures
    ensures ErrInv(v)
  {
    hide ThreadErr, Inv, Remembered;
    forall u | 0 <= u < |v.threads| ensures ThreadErr(v, u) {
      if u != t { OtherFramed(w, v, t, id, u); }
    }
    forall i | 0 <= i < |v.loads| ensures RecordErr(v, i) {
      if i != id {
        assert RecordErr(w, i);
        RememberedFramed(w, v, t, id, i);
      }
    }
  }

  lemma RememberedFramed(w: World, v: World, t: nat, id: nat, i: nat)
    requires Framed(w, v, t, id) && i < |w.loads| && i != id
    ensures Remembered(v, i) == Remembered(w, i)
  {
  }

  lemma StartErr(w: World, call: Call)
    requires ErrInv(w)
    ensures ErrInv(After(w, Start(call)))
  {
    hide Remembered, Fault;
    var v := After(w, Start(call));
    forall u | 0 <= u < |v.threads| ensures ThreadErr(v, u) {
      if u < |w.threads| { assert ThreadErr(w, u); SameReasons(w, v, u); }
    }
    forall i | 0 <= i < |v.loads| ensures RecordErr(v, i) {
      assert RecordErr(w, i);
      SameRemembered(w, v, i);
    }
  }

  lemma SameRemembered(w: World, v: World, i: nat)
    requires i < |w.loads| && v.loads == w.loads && v.drops == w.drops
    ensures Remembered(v, i) == Remembered(w, i)
  {
  }

  /** What is known of a thread does not depend on the other threads. */
  lemma SameReasons(w: World, v: World, u: nat)
    requires ErrInv(w) && u < |w.threads| && u < |v.threads| && v == w.(threads := v.threads)
    requires v.threads[u] == w.threads[u] || v.threads[u] == w.threads[u].(cancelled := true)
    ensures ThreadErr(v, u)
  {
    hide Fault, LoadError;
    assert ThreadErr(w, u);
    var th := w.threads[u];
    if th.pc.Returned? && th.call.Load? && !th.pc.late && th.pc.err.Some? && LeftBy(w, th.call.path, th.pc.err.value) {
      var i :| 0 <= i < |w.loads| && i < |w.session.records| &&
        w.loads[i].path == th.call.path && w.session.records[i].closes == 1 && Remembered(w, i) == th.pc.err;
      assert v.loads[i].path == th.call.path && v.session.records[i].closes == 1 && Remembered(v, i) == th.pc.err;
    }
  }

  lemma CancelErr(w: World, t: nat)
    requires ErrInv(w) && t < |w.threads|
    ensures ErrInv(After(w, Cancel(t)))
  {
    hide Remembered, Fault;
    var v := After(w, Cancel(t));
    forall u | 0 <= u < |v.threads| ensures ThreadErr(v, u) { SameReasons(w, v, u); }
    forall i | 0 <= i < |v.loads| ensures RecordErr(v, i) {
      assert RecordErr(w, i);
      SameRemembered(w, v, i);
    }
  }

  /** A step that only moves a thread which owns no load. */
  lemma PutErr(w: World, t: nat, pc: Pc)
    requires Inv(w) && ErrInv(w) && t < |w.threads| && ThreadErr(Put(w, t, pc), t)
    ensures ErrInv(Put(w, t, pc))
  {
    hide Inv, ThreadErr, RecordErr, Remembered;
    FrameKeeps(w, Put(w, t, pc), t, |w.loads|);
  }

  // ----- entering -----

  /** A path of the session has exactly one load, which tells where the path is listed. */
  lemma TheLoad(w: World, path: string) returns (id: nat)
    requires Inv(w) && !w.session.closed && HasLoad(w.loads, path)
    ensures id < |w.loads| == |w.session.records| && w.loads[id].path == path
    ensures Listed(w.session, path, id, w.session.records[id]) && w.session.records[id].closes <= 1
    ensures forall i | 0 <= i < |w.loads| && w.loads[i].path == path :: i == id
  {
    hide SessionInv, OnlyMade, Listed, ThreadInv, CloserInv;
    SessionCount(w);
    id :| 0 <= id < |w.loads| && w.loads[id].path == path;
    LoadHas(w, id);
  }

  /** A path that was never loaded is not listed. */
  lemma Unlisted(w: World, path: string)
    requires Inv(w) && !HasLoad(w.loads, path)
    ensures path !in w.session.loaded && path !in w.session.failed && path !in w.session.loading
  {
    hide LoadInv, ThreadInv, HasLoad, CloserInv, OnlyMade, Distinct;
  }

  lemma OpenCount(w: World)
    requires Inv(w) && !w.session.closed
    ensures |w.session.loaded| + |w.session.failed| + |w.session.loading| == |w.loads| <= 4
  {
    hide LoadInv, ThreadInv, HasLoad, CloserInv, OnlyMade, Distinct;
  }

  lemma OwnerIsOpen(w: World, id: nat)
    requires Inv(w) && ErrInv(w) && id < |w.loads|
    ensures id < |w.session.records| && RecordErr(w, id)
  {
    hide LoadInv, ThreadInv, SessionInv, CloserInv, OnlyMade, Distinct, ThreadErr;
  }

  lemma FailedIsLeft(w: World, path: string)
    requires Inv(w) && ErrInv(w) && !w.session.closed && path in w.session.failed
    ensures LeftBy(w, path, w.session.failed[path])
  {
    hide Inv, ErrInv, Remembered;
    if !HasLoad(w.loads, path) { Unlisted(w, path); }
    var id := TheLoad(w, path);
    OwnerIsOpen(w, id);
  }

  lemma EnterLoadErr(w: World, t: nat)
    requires Inv(w) && ErrInv(w) && t < |w.threads| && w.threads[t].pc.Entering? && w.threads[t].call.Load?
    ensures ErrInv(EnterMove(w, t))
  {
    hide Inv, ErrInv, LeftBy, HasLoad;
    var path, s := w.threads[t].call.path, w.session;
    match EnterStep(s, path, w.threads[t].cancelled).1
    case Begin(_) => BeginErr(w, t, path);
    case Join(id) => PutErr(w, t, Waiting(id));
    case Answer(b, e) =>
      var pc := Returned(b, e, s.hasLoader && s.closed);
      if s.hasLoader && !s.closed && !w.threads[t].cancelled && path !in s.loaded {
        if path in s.failed { FailedIsLeft(w, path); } else { RefusedFull(w, path); }
      }
      SamePlace(w, t, pc, path);
      PutErr(w, t, pc);
  }

  lemma RefusedFull(w: World, path: string)
    requires Inv(w) && !w.session.closed
    requires path !in w.session.loaded && path !in w.session.failed && path !in w.session.loading
    requires |w.session.loaded| + |w.session.failed| + |w.session.loading| >= MAX_SCRIPT_ENGINES
    ensures FourOthers(w, path)
  {
    hide Inv;
    LoadedIsListed(w, path);
    OpenCount(w);
  }

  lemma SamePlace(w: World, t: nat, pc: Pc, path: string)
    requires t < |w.threads|
    ensures FourOthers(Put(w, t, pc), path) == FourOthers(w, path)
    ensures forall e :: LeftBy(Put(w, t, pc), path, e) <==> LeftBy(w, path, e)
  {
    var v := Put(w, t, pc);
    forall i | 0 <= i < |w.loads| ensures Remembered(v, i) == Remembered(w, i) {}
  }

  lemma BeginErr(w: World, t: nat, path: string)
    requires Inv(w) && ErrInv(w) && t < |w.threads|
    requires w.threads[t].pc.Entering? && w.threads[t].call == Load(path)
    requires EnterStep(w.session, path, w.threads[t].cancelled).1.Begin?
    ensures ErrInv(EnterMove(w, t))
  {
    hide Inv, Fault, LoadError;
    var v := EnterMove(w, t);
    LoadedIsListed(w, path);
    OpenCount(w);
    forall i | 0 <= i < |v.loads| ensures RecordErr(v, i) {
      if i < |w.loads| { assert RecordErr(w, i); }
    }
    forall u | 0 <= u < |v.threads| ensures ThreadErr(v, u) {
      assert ThreadErr(w, u);
      if u != t { BegunReasons(w, v, u, w.threads[u]); }
    }
  }

  /** A load that begins changes no reason: those that were refused came when four paths had been loaded. */
  lemma BegunReasons(w: World, v: World, u: nat, th: Thread)
    requires ErrInv(w) && |w.loads| < 4 && |w.loads| < |v.loads| && |w.session.records| < |v.session.records|
    requires v.drops == w.drops && v.session.hasLoader == w.session.hasLoader
    requires forall i | 0 <= i < |w.loads| :: v.loads[i] == w.loads[i] && v.session.records[i] == w.session.records[i]
    ensures th.call.Load? ==> forall e | Reason(w, th, e) :: Reason(v, th, e)
  {
    hide Fault, LoadError;
    if th.call.Load? {
      var path := th.call.path;
      forall e | LeftBy(w, path, e) ensures LeftBy(v, path, e) {
        var i :| 0 <= i < |w.loads| && i < |w.session.records| &&
          w.loads[i].path == path && w.session.records[i].closes == 1 && Remembered(w, i) == Some(e);
        assert v.loads[i].path == path && v.session.records[i].closes == 1 && Remembered(v, i) == Some(e);
      }
    }
  }

  lemma EnterCloseErr(w: World, t: nat)
    requires Inv(w) && ErrInv(w) && t < |w.threads| && w.threads[t].pc.Entering? && w.threads[t].call.Close?
    ensures ErrInv(EnterMove(w, t))
  {
    hide SessionInv, Distinct, OnlyMade, LoadInv, ThreadInv, Remembered, Reason;
    var v := EnterMove(w, t);
    if w.session.closed {
      PutErr(w, t, Returned(None, None, true));
    } else {
      forall u | 0 <= u < |v.threads| ensures ThreadErr(v, u) {
        if u != t { OtherFramed(w, v, t, |w.loads|, u); }
      }
    }
  }

  // ----- waiting -----

  lemma WaitErr(w: World, t: nat, m: Move)
    requires Inv(w) && ErrInv(w) && t < |w.threads| && w.threads[t].pc.Waiting? && CanMove(w, w.threads[t], m)
    ensures ErrInv(Moved(w, t, m))
  {
    hide Inv, ErrInv, LeftBy, FourOthers;
    ThreadHas(w, t);
    PutErr(w, t, Moved(w, t, m).threads[t].pc);
  }

  lemma CollectErr(w: World, t: nat)
    requires Inv(w) && ErrInv(w) && t < |w.threads| && w.threads[t].pc.Woken? && CanMove(w, w.threads[t], Move.Collect)
    ensures ErrInv(Moved(w, t, Move.Collect))
  {
    hide Inv, ErrInv, Remembered, FourOthers;
    var id, path := w.threads[t].pc.id, w.threads[t].call.path;
    ThreadHas(w, t);
    LoadHas(w, id);
    OwnerIsOpen(w, id);
    var pc := Moved(w, t, Move.Collect).threads[t].pc;
    if !w.session.closed && !w.threads[t].cancelled && pc.err.Some? {
      assert LeftBy(w, path, pc.err.value);
    }
    SamePlace(w, t, pc, path);
    PutErr(w, t, pc);
  }

  // ----- loading -----

  lemma LoaderReturnsErr(w: World, t: nat, m: Move)
    requires Inv(w) && ErrInv(w) && t < |w.threads| && w.threads[t].pc.Loading? && CanMove(w, w.threads[t], m)
    ensures ErrInv(Moved(w, t, m))
  {
    hide Inv;
    var v, id := Moved(w, t, m), w.threads[t].pc.id;
    OwnedNow(w, t, id);
    assert ThreadErr(w, t);
    FrameKeeps(w, v, t, id);
  }

  /** Storing the outcome of a load that the thread owns leaves the remembered error. */
  lemma SettleErr(w: World, t: nat, id: nat, b: Option<Backend>, e: Option<Error>)
    requires CanSettle(w, t, id, b, e) && ErrInv(w) && id < |w.loads| == |w.session.records|
    requires e == Remembered(w, id)
    ensures ErrInv(Outcome(w, t, id, w.loads[id].path, b, e))
  {
    hide Inv, Settle, Remembered, LeftBy, FourOthers;
    OwnedNow(w, t, id);
    var v := Outcome(w, t, id, w.loads[id].path, b, e);
    SettledRecord(w.session, w.loads[id].path, id, b, e, id);
    SameRemembered(w, v, id);
    LeftNow(v, t, id);
    forall i | 0 <= i < |w.loads| && i != id ensures v.session.records[i] == w.session.records[i] {
      SettledRecord(w.session, w.loads[id].path, id, b, e, i);
    }
    SettledSame(w.session, w.loads[id].path, id, b, e);
    FrameKeeps(w, v, t, id);
  }

  lemma SettledSame(s: Session, path: string, id: nat, b: Option<Backend>, e: Option<Error>)
    requires id < |s.records| && (e.None? ==> b.Some?)
    ensures Settle(s, path, id, b, e).hasLoader == s.hasLoader
  {
  }

  lemma FinishErr(w: World, t: nat)
    requires Inv(w) && ErrInv(w) && t < |w.threads| && w.threads[t].pc.Finishing? && CanMove(w, w.threads[t], Move.Finish)
    ensures ErrInv(Moved(w, t, Move.Finish))
  {
    hide Inv, ErrInv, Moved, Outcome, Fault, Reason;
    var pc, path := w.threads[t].pc, w.threads[t].call.path;
    OwnedNow(w, t, pc.id);
    ThreadErrHas(w, t);
    FinishMoves(w, t);
    if w.session.closed {
      NothingListed(w, path);
      PutErr(w, t, Dropping(pc.id, pc.backend, pc.err, true));
    } else if pc.err.Some? && CanClose(pc.backend) {
      PutErr(w, t, Dropping(pc.id, pc.backend, pc.err, false));
    } else {
      SettleErr(w, t, pc.id, pc.backend, pc.err);
    }
  }

  lemma ThreadErrHas(w: World, t: nat)
    requires ErrInv(w) && t < |w.threads|
    ensures ThreadErr(w, t)
  {
  }

  lemma LeftNow(v: World, t: nat, id: nat)
    requires t < |v.threads| && id < |v.loads| && id < |v.session.records|
    requires v.threads[t].call == Load(v.loads[id].path) && v.session.records[id].closes == 1
    ensures Remembered(v, id).Some? ==> LeftBy(v, v.threads[t].call.path, Remembered(v, id).value)
  {
  }

  lemma DropErr(w: World, t: nat, m: Move)
    requires Inv(w) && ErrInv(w) && t < |w.threads| && w.threads[t].pc.Dropping? && CanMove(w, w.threads[t], m)
    ensures ErrInv(Moved(w, t, m))
  {
    hide Inv, ErrInv, JoinErrors, Present, ThreadErr, RecordErr, Moved;
    var pc := w.threads[t].pc;
    OwnedNow(w, t, pc.id);
    ThreadErrHas(w, t);
    DropMoves(w, t, m);
    ErrDomain(w);
    DroppedFrame(w, t, m.failure);
    DroppedThread(w, t, m.failure);
    DroppedRecord(w, t, m.failure);
    FrameKeeps(w, DropMove(w, t, m.failure), t, pc.id);
  }

  lemma DropMoves(w: World, t: nat, m: Move)
    requires t < |w.threads| && w.threads[t].pc.Dropping? && CanMove(w, w.threads[t], m)
    ensures m.Drop? && (w.threads[t].pc.late || w.threads[t].pc.err.Some?)
    ensures m.failure.Some? ==> CanClose(w.threads[t].pc.backend)
    ensures Moved(w, t, m) == DropMove(w, t, m.failure)
  {
    hide DropMove;
  }

  lemma ErrDomain(w: World)
    requires ErrInv(w)
    ensures |w.loads| == |w.session.records| && forall id | id in w.drops :: id < |w.loads|
  {
    hide ThreadErr, RecordErr;
  }

  lemma DroppedFrame(w: World, t: nat, failure: Option<Error>)
    requires t < |w.threads| && w.threads[t].pc.Dropping? && (w.threads[t].pc.late || w.threads[t].pc.err.Some?)
    requires |w.loads| == |w.session.records| && w.threads[t].pc.id < |w.loads|
    requires forall id | id in w.drops :: id < |w.loads|
    ensures var v := DropMove(w, t, failure); Framed(w, v, t, w.threads[t].pc.id) && v.closer == w.closer && v.failures == w.failures
  {
    hide JoinErrors, Present, Wrapped;
  }

  lemma DroppedThread(w: World, t: nat, failure: Option<Error>)
    requires t < |w.threads| && w.threads[t].pc.Dropping? && ThreadErr(w, t) && (w.threads[t].pc.late || w.threads[t].pc.err.Some?)
    ensures ThreadErr(DropMove(w, t, failure), t)
  {
    hide JoinErrors, Present, Wrapped, Reason, Fault;
    var pc := w.threads[t].pc;
    if !pc.late { JoinTwo(pc.err.value, failure); }
  }

  lemma DroppedRecord(w: World, t: nat, failure: Option<Error>)
    requires t < |w.threads| && w.threads[t].pc.Dropping? && (w.threads[t].pc.late || w.threads[t].pc.err.Some?)
    requires w.threads[t].pc.id < |w.loads| == |w.session.records| && w.session.records[w.threads[t].pc.id].closes == 0
    ensures RecordErr(DropMove(w, t, failure), w.threads[t].pc.id)
  {
    hide JoinErrors, Present, Wrapped, Remembered;
  }

  lemma RejoinErr(w: World, t: nat)
    requires Inv(w) && ErrInv(w) && t < |w.threads| && w.threads[t].pc.Rejoining? && CanMove(w, w.threads[t], Move.Rejoin)
    ensures ErrInv(Moved(w, t, Move.Rejoin))
  {
    hide Inv, ErrInv, Moved, Outcome, Remembered, Reason, Wrapped;
    var pc, path := w.threads[t].pc, w.threads[t].call.path;
    OwnedNow(w, t, pc.id);
    ThreadErrHas(w, t);
    RejoinMoves(w, t);
    if w.session.closed {
      NothingListed(w, path);
      PutErr(w, t, Marking(pc.id, Wrapped(Some(pc.error))));
    } else {
      SettleErr(w, t, pc.id, None, Some(pc.error));
    }
  }

  lemma MarkErr(w: World, t: nat)
    requires Inv(w) && ErrInv(w) && t < |w.threads| && w.threads[t].pc.Marking? && CanMove(w, w.threads[t], Move.Mark)
    ensures ErrInv(Moved(w, t, Move.Mark))
  {
    hide Inv, Fault, LoadError;
    var v, pc := Moved(w, t, Move.Mark), w.threads[t].pc;
    OwnedNow(w, t, pc.id);
    ThreadHas(w, t);
    FrameKeeps(w, v, t, pc.id);
  }

  // ----- closing -----

  lemma ShutErr(w: World, t: nat, m: Move)
    requires Inv(w) && ErrInv(w) && t < |w.threads| && w.threads[t].pc.Shutting? && CanMove(w, w.threads[t], m)
    ensures ErrInv(Moved(w, t, m))
  {
    hide SessionInv, Distinct, OnlyMade, LoadInv, CloserInv, Remembered, Reason, JoinErrors, Served, Answered;
    var v := Moved(w, t, m);
    assert ThreadInv(w, t) && ThreadErr(w, t);
    forall u | 0 <= u < |v.threads| ensures ThreadErr(v, u) {
      assert ThreadErr(w, u) && ThreadInv(w, u);
      if u != t && w.threads[u].call.Load? { OtherFramed(w, v, t, |w.loads|, u); }
    }
    forall i | 0 <= i < |v.loads| ensures RecordErr(v, i) {
      assert RecordErr(w, i);
      RememberedFramed(w, v, t, |w.loads|, i);
    }
  }

  // ----- every run -----

  lemma StepErr(w: World, a: Action)
    requires Inv(w) && ErrInv(w) && Enabled(w, a)
    ensures ErrInv(After(w, a))
  {
    hide Inv, ErrInv, Moved;
    match a
    case Start(call) => StartErr(w, call);
    case Cancel(t) => CancelErr(w, t);
    case Go(t, m) =>
      match w.threads[t].pc
      case Entering =>
        EnterIsMove(w, t, m);
        if w.threads[t].call.Load? { EnterLoadErr(w, t); } else { EnterCloseErr(w, t); }
      case Waiting(_) => WaitErr(w, t, m);
      case Woken(_) => CollectErr(w, t);
      case Loading(_) => LoaderReturnsErr(w, t, m);
      case Finishing(_, _, _) => FinishErr(w, t);
      case Dropping(_, _, _, _) => DropErr(w, t, m);
      case Rejoining(_, _) => RejoinErr(w, t);
      case Marking(_, _) => MarkErr(w, t);
      case Shutting(_, _) => ShutErr(w, t, m);
      case Returned(_, _, _) => assert false;
  }

  lemma {:induction false} RunErr(w: World, actions: seq<Action>)
    requires Inv(w) && ErrInv(w) && Run(w, actions).Some?
    ensures ErrInv(Run(w, actions).value)
    decreases |actions|
  {
    hide Inv, ErrInv, After, Enabled;
    if actions != [] {
      StepKeeps(w, actions[0]);
      StepErr(w, actions[0]);
      RunErr(After(w, actions[0]), actions[1..]);
    }
  }

  lemma ReachableErr(w: World)
    requires Reachable(w)
    ensures Inv(w) && ErrInv(w)
  {
    hide Run, Inv;
    ReachableInv(w);
    var hasLoader, actions :| Run(Initial(hasLoader), actions) == Some(w);
    assert Inv(Initial(hasLoader)) by { FreshInv(hasLoader); }
    RunErr(Initial(hasLoader), actions);
  }

  lemma FreshInv(hasLoader: bool)
    ensures Inv(Initial(hasLoader))
  {
  }

  // ----- what callers may rely on -----

  /** Whoever gets an error from a session that was open at the last look: no loader, its own cancellation, four other paths,
      or what the one load of the path left. */
  lemma ErrorHasReason(w: World, t: nat)
    requires Reachable(w) && t < |w.threads| && w.threads[t].call.Load?
    requires var pc := w.threads[t].pc; pc.Returned? && !pc.late && pc.err.Some?
    ensures Reason(w, w.threads[t], w.threads[t].pc.err.value)
  {
    hide Inv, Reason;
    ReachableErr(w);
    ThreadErrHas(w, t);
  }

  /** Two calls for one path that fail, neither cancelled nor after the close, fail with the same error: the failure is retained. */
  lemma FailureRetained(w: World, t: nat, u: nat)
    requires Reachable(w) && w.session.hasLoader && t < |w.threads| && u < |w.threads|
    requires w.threads[t].call.Load? && w.threads[u].call == w.threads[t].call
    requires forall x | x == t || x == u ::
      var th := w.threads[x]; th.pc.Returned? && !th.pc.late && !th.cancelled && th.pc.err.Some?
    ensures w.threads[u].pc.err == w.threads[t].pc.err
    ensures if HasLoad(w.loads, w.threads[t].call.path) then
        exists id | 0 <= id < |w.loads| ::
          w.loads[id].path == w.threads[t].call.path && Remembered(w, id) == w.threads[t].pc.err
      else w.threads[t].pc.err == Some(LimitExceeded) && |w.loads| == 4
  {
    hide Reachable, Remembered, Inv, ErrInv;
    ReachableErr(w);
    LoadsDistinct(w);
    ErrorHasReason(w, t);
    ErrorHasReason(w, u);
    var path := w.threads[t].call.path;
    if HasLoad(w.loads, path) {
      var i :| 0 <= i < |w.loads| && w.loads[i].path == path && Remembered(w, i) == w.threads[t].pc.err;
      var j :| 0 <= j < |w.loads| && w.loads[j].path == path && Remembered(w, j) == w.threads[u].pc.err;
      OneLoad(w.loads, i, j);
    }
  }

  lemma LoadsDistinct(w: World)
    requires Inv(w)
    ensures Distinct(w.loads) && |w.loads| == |w.session.records|
  {
    hide LoadInv, ThreadInv, CloserInv, OnlyMade, Distinct;
  }

  lemma OneLoad(loads: seq<LoaderRun>, i: nat, j: nat)
    requires Distinct(loads) && i < |loads| && j < |loads| && loads[i].path == loads[j].path
    ensures i == j
  {
  }

  /** A call is told that the limit is exceeded only when four other paths were loaded, or when the loader itself said so. */
  lemma LimitNeedsFour(w: World, t: nat)
    requires Reachable(w) && t < |w.threads| && w.threads[t].call.Load?
    requires var pc := w.threads[t].pc; pc.Returned? && !pc.late && pc.err == Some(LimitExceeded)
    requires forall id | 0 <= id < |w.loads| :: Remembered(w, id) != Some(LimitExceeded)
    ensures |w.loads| == 4 && forall id | 0 <= id < |w.loads| :: w.loads[id].path != w.threads[t].call.path
  {
    hide Reachable, Remembered;
    ErrorHasReason(w, t);
  }

  lemma CancelledWasCancelled(w: World, t: nat)
    requires Reachable(w) && t < |w.threads| && w.threads[t].call.Load?
    requires var pc := w.threads[t].pc; pc.Returned? && !pc.late && pc.err == Some(Cancelled)
    requires forall id | 0 <= id < |w.loads| :: Remembered(w, id) != Some(Cancelled)
    ensures w.threads[t].cancelled
  {
    hide Reachable, Remembered;
    ErrorHasReason(w, t);
  }

  /** The first step of a call that loads, in an open session with a loader, told by the loads so far. */
  lemma EnterByHistory(w: World, t: nat)
    requires Reachable(w) && t < |w.threads| && w.threads[t].pc.Entering? && w.threads[t].call.Load?
    requires w.session.hasLoader && !w.session.closed && !w.threads[t].cancelled
    ensures CanMove(w, w.threads[t], Move.Enter)
    ensures var path, v := w.threads[t].call.path, Moved(w, t, Move.Enter);
      if !HasLoad(w.loads, path) then
        if |w.loads| < 4 then
          && v.loads == w.loads + [LoaderRun(path, t, None, None)]
          && v.threads == w.threads[t := Thread(Load(path), Loading(|w.loads|), false)]
        else
          v == Put(w, t, Returned(None, Some(LimitExceeded), false))
      else exists id | 0 <= id < |w.loads| && id < |w.session.records| ::
        && w.loads[id].path == path
        && if w.session.records[id].closes == 0 then v == Put(w, t, Waiting(id))
           else w.loads[id].made.Some? && v == Put(w, t, AnswerOf(w, id))
  {
    hide Inv, ErrInv, Reachable, Remembered, HasLoad;
    ReachableErr(w);
    var path := w.threads[t].call.path;
    OpenCount(w);
    LoadsDistinct(w);
    if HasLoad(w.loads, path) {
      var id := TheLoad(w, path);
      KnownOutcome(w, id);
    } else {
      Unlisted(w, path);
    }
  }

  /** Otherwise the first step refuses the call, and nothing else changes: without a loader, then after the close, then when cancelled. */
  lemma EnterRefused(w: World, t: nat)
    requires t < |w.threads| && w.threads[t].pc.Entering? && w.threads[t].call.Load?
    requires !w.session.hasLoader || w.session.closed || w.threads[t].cancelled
    ensures var e := if !w.session.hasLoader then NoLoader else if w.session.closed then SessionClosed else Cancelled;
      Moved(w, t, Move.Enter) == Put(w, t, Returned(None, Some(e), e == SessionClosed))
  {
  }

  /** A call that was woken answers as the load it waited for, unless the session is closed by then or the call is cancelled. */
  lemma CollectByHistory(w: World, t: nat)
    requires Reachable(w) && t < |w.threads| && w.threads[t].pc.Woken?
    ensures CanMove(w, w.threads[t], Move.Collect)
    ensures var id, v := w.threads[t].pc.id, Moved(w, t, Move.Collect);
      && id < |w.loads| && w.threads[t].call == Load(w.loads[id].path)
      && if w.session.closed then v == Put(w, t, Returned(None, Some(SessionClosed), true))
         else if w.threads[t].cancelled then v == Put(w, t, Returned(None, Some(Cancelled), false))
         else w.loads[id].made.Some? && v == Put(w, t, AnswerOf(w, id))
  {
    hide Inv, ErrInv, Reachable, Remembered;
    ReachableErr(w);
    LoadsDistinct(w);
    ThreadHas(w, t);
    LoadHas(w, w.threads[t].pc.id);
    if !w.session.closed { KnownOutcome(w, w.threads[t].pc.id); }
  }

  /** How a finished load answers: with its error, or else with its engine. */
  function AnswerOf(w: World, id: nat): Pc
    requires id < |w.loads| && w.loads[id].made.Some?
  {
    var e := Remembered(w, id);
    Returned(if e.Some? then None else w.loads[id].made.value, e, false)
  }

  lemma KnownOutcome(w: World, id: nat)
    requires Inv(w) && ErrInv(w) && !w.session.closed && id < |w.loads| == |w.session.records|
    ensures w.session.records[id].closes <= 1
    ensures var r := w.session.records[id]; r.closes == 1 ==>
      && w.loads[id].made.Some? && r.err == Remembered(w, id)
      && r.backend == if r.err.Some? then None else w.loads[id].made.value
  {
    hide SessionInv, Distinct, OnlyMade, ThreadInv, CloserInv, Remembered, ThreadErr;
    assert LoadInv(w, id) && RecordErr(w, id);
  }

  /** Closing reports an error exactly when closing some engine did, and reports all of those; a second close reports none. */
  lemma CloseReportsFailures(w: World, t: nat)
    requires Reachable(w) && t < |w.threads| && w.threads[t].call.Close? && w.threads[t].pc.Returned?
    ensures w.threads[t].pc.err.Some? <==> w.closer == Some(t) && exists i | 0 <= i < |w.failures| :: w.failures[i].Some?
    ensures w.closer == Some(t) ==> forall i | 0 <= i < |w.failures| && w.failures[i].Some? ::
      var e := w.threads[t].pc.err; e.Some? && e.value.Joined? && w.failures[i].value in e.value.parts
  {
    hide Inv, Reachable;
    ReachableErr(w);
    ThreadErrHas(w, t);
    PresentHolds(w.failures);
  }

  lemma {:induction false} PresentHolds(es: seq<Option<Error>>)
    ensures Present(es) == [] <==> forall i | 0 <= i < |es| :: es[i].None?
    ensures forall i | 0 <= i < |es| && es[i].Some? :: es[i].value in Present(es)
  {
    if es != [] {
      PresentHolds(es[1..]);
      assert forall i | 0 < i < |es| :: es[i] == es[1..][i - 1];
      assert forall i | 0 <= i < |es[1..]| :: es[1..][i] == es[i + 1];
    }
  }
}
