/** What a host may rely on in every run of an engine session. */
module EngineGuarantees {
  import opened Text
  import opened EngineSession
  import opened EngineRuns
  import opened EngineSafety

  // ----- bounds -----

  /** The loader runs once per path and at most four times, and the open session lists no path twice. */
  lemma LoaderIsBounded(w: World)
    requires Reachable(w)
    ensures |w.loads| <= 4
    ensures forall i, j | 0 <= i < j < |w.loads| :: w.loads[i].path != w.loads[j].path
    ensures |w.session.loaded| + |w.session.failed| + |w.session.loading| <= 4
    ensures w.session.loaded.Keys !! w.session.failed.Keys !! w.session.loading.Keys
  {
    ReachableInv(w);
    forall p | p in w.session.loaded || p in w.session.failed || p in w.session.loading
      ensures (p in w.session.loaded <==> p !in w.session.failed && p !in w.session.loading)
      ensures (p in w.session.failed <==> p !in w.session.loaded && p !in w.session.loading)
    {
      var id :| 0 <= id < |w.loads| && w.loads[id].path == p;
      assert LoadInv(w, id);
    }
  }

  // ----- engines are closed -----

  ghost predicate AllReturned(w: World) {
    forall t | 0 <= t < |w.threads| :: w.threads[t].pc.Returned?
  }

  /** No engine is closed twice, and none that has no Close method or that no loader made. */
  lemma ClosedAtMostOnce(w: World, b: Backend)
    requires Reachable(w)
    ensures w.shut[b] <= 1
    ensures b in w.shut ==> b.closable && Made(w.loads, b)
  {
    ReachableInv(w);
    if b in w.shut {
      assert Made(w.loads, b);
      var id :| 0 <= id < |w.loads| && w.loads[id].made == Some(Some(b));
      assert LoadInv(w, id);
    }
  }

  /** Once the session is closed and every call has returned, every engine that a loader made has been closed. */
  lemma NoEngineLeaks(w: World, b: Backend)
    requires Reachable(w) && w.session.closed && AllReturned(w)
    requires Made(w.loads, b) && b.closable
    ensures w.shut[b] == 1
  {
    ReachableInv(w);
    var id :| 0 <= id < |w.loads| && w.loads[id].made == Some(Some(b));
    assert LoadInv(w, id);
    assert w.threads[w.closer.value].pc.Returned?;
    assert Todo(w) == map[];
  }

  // ----- those who wait are released -----

  /** The channel of a load is closed at most once, and exactly once when the call that ran its loader has returned. */
  lemma ReleasedOnce(w: World, id: nat)
    requires Reachable(w) && id < |w.loads|
    ensures id < |w.session.records| && w.loads[id].thread < |w.threads|
    ensures w.session.records[id].closes <= 1
    ensures w.session.records[id].closes == 1 <==> w.threads[w.loads[id].thread].pc.Returned?
  {
    ReachableInv(w);
    assert LoadInv(w, id);
  }

  /** A call can take its next step whatever the loader or a Close method hands back. */
  lemma GuardsHold(w: World, t: nat)
    requires Reachable(w) && t < |w.threads|
    ensures var th := w.threads[t];
      match th.pc
      case Entering => CanMove(w, th, Move.Enter)
      case Waiting(id) => HasRecord(w, th, id)
      case Woken(_) => CanMove(w, th, Move.Collect)
      case Loading(_) =>
        forall made: Option<Backend>, fault :: (made.Some? ==> !Made(w.loads, made.value)) ==> CanMove(w, th, LoaderReturns(made, fault))
      case Finishing(_, _, _) => CanMove(w, th, Move.Finish)
      case Dropping(_, b, _, _) => forall f: Option<Error> :: (f.Some? ==> CanClose(b)) ==> CanMove(w, th, Move.Drop(f))
      case Rejoining(_, _) => CanMove(w, th, Move.Rejoin)
      case Marking(_, _) => CanMove(w, th, Move.Mark)
      case Shutting(todo, _) =>
        if todo == map[] then CanMove(w, th, ShutEnd)
        else forall p, f: Option<Error> :: p in todo && (f.Some? ==> todo[p].closable) ==> CanMove(w, th, ShutOne(p, f))
      case Returned(_, _, _) => true
  {
    ReachableInv(w);
    assert ThreadInv(w, t);
  }

  /** A call that waits can be woken, or the call it waits for can take a step. */
  lemma NoneStranded(w: World, t: nat)
    requires Reachable(w) && t < |w.threads| && w.threads[t].pc.Waiting?
    ensures
      || CanMove(w, w.threads[t], Wake)
      || exists u | 0 <= u < |w.threads| ::
           !w.threads[u].pc.Waiting? && !w.threads[u].pc.Returned? && Owns(w.threads[u].pc, w.threads[t].pc.id)
  {
    ReachableInv(w);
    assert ThreadInv(w, t);
    assert LoadInv(w, w.threads[t].pc.id);
  }

  /** A call that neither waits nor has returned can take a step. */
  lemma NextMove(w: World, t: nat) returns (m: Move)
    requires Reachable(w) && t < |w.threads| && !w.threads[t].pc.Waiting? && !w.threads[t].pc.Returned?
    ensures CanMove(w, w.threads[t], m)
  {
    hide Reachable, HasRecord;
    GuardsHold(w, t);
    match w.threads[t].pc
    case Entering => m := Move.Enter;
    case Woken(_) => m := Move.Collect;
    case Loading(_) => m := LoaderReturns(None, None);
    case Finishing(_, _, _) => m := Move.Finish;
    case Dropping(_, _, _, _) => m := Move.Drop(None);
    case Rejoining(_, _) => m := Move.Rejoin;
    case Marking(_, _) => m := Move.Mark;
    case Shutting(todo, _) =>
      if todo == map[] {
        m := ShutEnd;
      } else {
        var p :| p in todo;
        m := ShutOne(p, None);
      }
  }

  /** Until every call has returned, some call can take a step. */
  lemma NeverStuck(w: World) returns (t: nat, m: Move)
    requires Reachable(w) && !AllReturned(w)
    ensures t < |w.threads| && CanMove(w, w.threads[t], m)
  {
    hide CanMove, Reachable;
    t :| 0 <= t < |w.threads| && !w.threads[t].pc.Returned?;
    if w.threads[t].pc.Waiting? {
      NoneStranded(w, t);
      if CanMove(w, w.threads[t], Wake) {
        m := Wake;
      } else {
        t :| 0 <= t < |w.threads| && !w.threads[t].pc.Waiting? && !w.threads[t].pc.Returned?;
        m := NextMove(w, t);
      }
    } else {
      m := NextMove(w, t);
    }
  }

  /** The number of steps a call at this point can still take. */
  function Rank(pc: Pc): nat {
    match pc
    case Entering => 7
    case Loading(_) => 5
    case Finishing(_, _, _) => 4
    case Dropping(_, _, _, _) => 3
    case Rejoining(_, _) => 2
    case Waiting(_) => 2
    case Woken(_) => 1
    case Marking(_, _) => 1
    case Shutting(todo, _) => |todo| + 1
    case Returned(_, _, _) => 0
  }

  function TotalRank(threads: seq<Thread>): nat {
    if threads == [] then 0 else Rank(threads[0].pc) + TotalRank(threads[1..])
  }

  lemma {:induction false} RankUpdate(threads: seq<Thread>, t: nat, th: Thread)
    requires t < |threads|
    ensures TotalRank(threads[t := th]) + Rank(threads[t].pc) == TotalRank(threads) + Rank(th.pc)
  {
    if t == 0 {
      assert threads[t := th][1..] == threads[1..];
    } else {
      RankUpdate(threads[1..], t - 1, th);
      assert threads[t := th][1..] == threads[1..][t - 1 := th];
    }
  }

  lemma {:induction false} RankAppend(threads: seq<Thread>, th: Thread)
    ensures TotalRank(threads + [th]) == TotalRank(threads) + Rank(th.pc)
  {
    if threads == [] {
      assert threads + [th] == [th];
    } else {
      RankAppend(threads[1..], th);
      assert (threads + [th])[1..] == threads[1..] + [th];
    }
  }

  lemma EnterDescends(w: World, t: nat)
    requires SessionInv(w.session, w.loads) && t < |w.threads| && w.threads[t].pc.Entering?
    ensures |EnterMove(w, t).threads| == |w.threads|
    ensures EnterMove(w, t).threads == w.threads[t := EnterMove(w, t).threads[t]]
    ensures Rank(EnterMove(w, t).threads[t].pc) < 7
  {
    hide EnterStep, Admitted, SessionInv;
    if w.threads[t].call.Close? { HandsOverFew(w.session, w.loads); }
  }

  lemma HandsOverFew(s: Session, loads: seq<LoaderRun>)
    requires SessionInv(s, loads)
    ensures CloseStep(s).1.Some? ==> |CloseStep(s).1.value| <= 4
  {
  }

  lemma SectionDescends(w: World, t: nat, m: Move)
    requires t < |w.threads| && CanMove(w, w.threads[t], m)
    requires w.threads[t].pc.Finishing? || w.threads[t].pc.Rejoining?
    ensures |Moved(w, t, m).threads| == |w.threads|
    ensures Moved(w, t, m).threads == w.threads[t := Moved(w, t, m).threads[t]]
    ensures Rank(Moved(w, t, m).threads[t].pc) < Rank(w.threads[t].pc)
  {
    hide Settle;
  }

  lemma OutsideDescends(w: World, t: nat, m: Move)
    requires t < |w.threads| && CanMove(w, w.threads[t], m)
    requires !w.threads[t].pc.Entering? && !w.threads[t].pc.Finishing? && !w.threads[t].pc.Rejoining?
    ensures |Moved(w, t, m).threads| == |w.threads|
    ensures Moved(w, t, m).threads == w.threads[t := Moved(w, t, m).threads[t]]
    ensures Rank(Moved(w, t, m).threads[t].pc) < Rank(w.threads[t].pc)
  {
    hide CollectStep, JoinErrors, Wrapped, Closed, EnterMove, ShutMove, AfterSection, FinishStep, RejoinStep;
    if w.threads[t].pc.Shutting? { ShutDescends(w, t, m); }
  }

  lemma ShutDescends(w: World, t: nat, m: Move)
    requires t < |w.threads| && w.threads[t].pc.Shutting? && CanMove(w, w.threads[t], m)
    ensures |Moved(w, t, m).threads| == |w.threads|
    ensures Moved(w, t, m).threads == w.threads[t := Moved(w, t, m).threads[t]]
    ensures Rank(Moved(w, t, m).threads[t].pc) < Rank(w.threads[t].pc)
  {
    hide CollectStep, JoinErrors, Wrapped, Closed, EnterMove, DropMove, ReturnFromLoader, AfterSection, FinishStep, RejoinStep, MarkStep;
    hide Rank;
    var pc := w.threads[t].pc;
    if m.ShutOne? {
      ShutRank(pc.todo, pc.failures, m.path, m.failure);
    } else {
      ShutEndRank(pc, Moved(w, t, m).threads[t].pc);
    }
  }

  lemma ShutRank(todo: map<string, Backend>, failures: seq<Option<Error>>, path: string, failure: Option<Error>)
    requires path in todo
    ensures Rank(Shutting(todo - {path}, failures + [failure])) < Rank(Shutting(todo, failures))
  {
    DropKey(todo, path);
  }

  lemma ShutEndRank(was: Pc, now: Pc)
    requires was.Shutting? && now.Returned?
    ensures Rank(now) < Rank(was)
  {
  }

  lemma MoveDescends(w: World, t: nat, m: Move)
    requires Inv(w) && t < |w.threads| && CanMove(w, w.threads[t], m)
    ensures |Moved(w, t, m).threads| == |w.threads|
    ensures Moved(w, t, m).threads == w.threads[t := Moved(w, t, m).threads[t]]
    ensures Rank(Moved(w, t, m).threads[t].pc) < Rank(w.threads[t].pc)
  {
    hide Moved, CanMove, SessionInv, Distinct, OnlyMade, LoadInv, ThreadInv, CloserInv;
    if w.threads[t].pc.Entering? {
      EnterIsMove(w, t, m);
      EnterDescends(w, t);
    } else if w.threads[t].pc.Finishing? || w.threads[t].pc.Rejoining? {
      SectionDescends(w, t, m);
    } else {
      OutsideDescends(w, t, m);
    }
  }

  function Moves(actions: seq<Action>): nat {
    if actions == [] then 0 else (if actions[0].Go? then 1 else 0) + Moves(actions[1..])
  }

  function Starts(actions: seq<Action>): nat {
    if actions == [] then 0 else (if actions[0].Start? then 1 else 0) + Starts(actions[1..])
  }

  /** The calls of a run take at most seven steps each, however they interleave. */
  lemma {:induction false} RunsAreBounded(w: World, actions: seq<Action>)
    requires Inv(w) && Run(w, actions).Some?
    ensures Moves(actions) + TotalRank(Run(w, actions).value.threads) <= TotalRank(w.threads) + 7 * Starts(actions)
    decreases |actions|
  {
    hide Inv, Enabled, Moved, CanMove;
    if actions != [] {
      var a := actions[0];
      StepKeeps(w, a);
      RunsAreBounded(After(w, a), actions[1..]);
      match a
      case Start(call) => RankAppend(w.threads, Thread(call, Entering, false));
      case Cancel(t) => CancelRank(w, t);
      case Go(t, m) =>
        GoEnabled(w, t, m);
        MoveDescends(w, t, m);
        RankUpdate(w.threads, t, Moved(w, t, m).threads[t]);
    }
  }

  lemma GoEnabled(w: World, t: nat, m: Move)
    requires Enabled(w, Go(t, m))
    ensures t < |w.threads| && CanMove(w, w.threads[t], m)
  {
  }

  lemma CancelRank(w: World, t: nat)
    requires Enabled(w, Cancel(t))
    ensures t < |w.threads|
    ensures TotalRank(w.threads[t := w.threads[t].(cancelled := true)]) == TotalRank(w.threads)
  {
    RankUpdate(w.threads, t, w.threads[t].(cancelled := true));
  }

  // ----- one engine per path -----

  /** All calls that got an engine for a path got the same one, and the loader made it for that path. */
  lemma SameEngine(w: World, t: nat, u: nat)
    requires Reachable(w) && t < |w.threads| && u < |w.threads|
    requires w.threads[t].pc.Returned? && w.threads[t].pc.backend.Some?
    requires w.threads[u].pc.Returned? && w.threads[u].pc.backend.Some?
    ensures w.threads[t].call.Load? && w.threads[u].call.Load?
    ensures exists id | 0 <= id < |w.loads| ::
      w.loads[id].path == w.threads[t].call.path && w.loads[id].made == Some(w.threads[t].pc.backend)
    ensures w.threads[t].call == w.threads[u].call ==> w.threads[t].pc.backend == w.threads[u].pc.backend
  {
    ReachableInv(w);
    assert ThreadInv(w, t) && ThreadInv(w, u);
    var p, q := w.threads[t].call.path, w.threads[u].call.path;
    var i :| 0 <= i < |w.loads| && w.loads[i].path == p && w.session.records[i].backend == w.threads[t].pc.backend;
    var j :| 0 <= j < |w.loads| && w.loads[j].path == q && w.session.records[j].backend == w.threads[u].pc.backend;
    assert LoadInv(w, i);
    if p == q { assert i == j; }
  }

  /** A load returns an engine or an error, never both and never neither. */
  lemma EngineOrError(w: World, t: nat)
    requires Reachable(w) && t < |w.threads| && w.threads[t].call.Load? && w.threads[t].pc.Returned?
    ensures w.threads[t].pc.backend.Some? <==> w.threads[t].pc.err.None?
  {
    ReachableInv(w);
    assert ThreadInv(w, t);
  }

  // ----- closing -----

  /** A load whose last critical section follows Close returns no engine, and an error that says so. */
  lemma NothingAfterClose(w: World, t: nat)
    requires Reachable(w) && t < |w.threads| && w.threads[t].call.Load?
    requires w.threads[t].pc.Returned? && w.threads[t].pc.late
    ensures w.threads[t].pc.backend.None? && w.threads[t].pc.err.Some? && SaysClosed(w.threads[t].pc.err.value)
  {
    ReachableInv(w);
    assert ThreadInv(w, t);
  }

  /** A step hands out an engine only while the session is open, lists it under the path, and has not closed it. */
  lemma HandedOutOpen(w: World, t: nat, m: Move)
    requires Reachable(w) && t < |w.threads| && CanMove(w, w.threads[t], m)
    requires var pc := Moved(w, t, m).threads[t].pc; pc.Returned? && pc.backend.Some?
    ensures !w.session.closed && w.threads[t].call.Load?
    ensures var v, path := Moved(w, t, m), w.threads[t].call.path;
      && path in v.session.loaded
      && Some(v.session.loaded[path]) == v.threads[t].pc.backend
      && v.shut[v.session.loaded[path]] == 0
  {
    hide Inv, CanMove, Moved;
    ReachableInv(w);
    MoveKeeps(w, t, m);
    MoveDescends(w, t, m);
    OpenAtReturn(w, t, m);
    ServedWhileOpen(Moved(w, t, m), t);
  }

  lemma ServedWhileOpen(w: World, t: nat)
    requires Inv(w) && t < |w.threads| && !w.session.closed
    requires w.threads[t].pc.Returned? && w.threads[t].pc.backend.Some?
    ensures w.threads[t].call.Load?
    ensures var s, path := w.session, w.threads[t].call.path;
      path in s.loaded && Some(s.loaded[path]) == w.threads[t].pc.backend && w.shut[s.loaded[path]] == 0
  {
    assert ThreadInv(w, t);
    var id :| 0 <= id < |w.loads| && w.loads[id].path == w.threads[t].call.path
           && w.session.records[id].backend == w.threads[t].pc.backend;
    assert LoadInv(w, id);
  }

  lemma OpenAtReturn(w: World, t: nat, m: Move)
    requires t < |w.threads| && CanMove(w, w.threads[t], m)
    requires Inv(w)
    requires t < |Moved(w, t, m).threads|
    requires var pc := Moved(w, t, m).threads[t].pc; pc.Returned? && pc.backend.Some?
    ensures !w.session.closed && !Moved(w, t, m).session.closed
    ensures Moved(w, t, m).threads[t].call == w.threads[t].call
  {
    hide Inv, EnterMove, EnterStep, CloseStep, JoinErrors, Wrapped, CanClose;
    if w.threads[t].pc.Entering? {
      EnterIsMove(w, t, m);
      OpenAtEntry(w, t);
    }
  }

  lemma OpenAtEntry(w: World, t: nat)
    requires t < |w.threads| && w.threads[t].pc.Entering?
    ensures t < |EnterMove(w, t).threads| && EnterMove(w, t).threads[t].call == w.threads[t].call
    ensures var v := EnterMove(w, t);
      v.threads[t].pc.Returned? && v.threads[t].pc.backend.Some? ==> !w.session.closed && !v.session.closed
  {
  }
}
