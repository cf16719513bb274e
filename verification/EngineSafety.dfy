/** What every reachable state of an engine session keeps, whatever the interleaving. */
module EngineSafety {
  import opened Text
  import opened EngineSession
  import opened EngineRuns

  // ----- the invariant -----

  /** The thread runs the loader of this load and has not finished it. */
  predicate Owns(pc: Pc, id: nat) {
    match pc
    case Loading(i) => i == id
    case Finishing(i, _, _) => i == id
    case Dropping(i, _, _, _) => i == id
    case Rejoining(i, _) => i == id
    case Marking(i, _) => i == id
    case _ => false
  }

  /** The engines that a call of Close still has to visit. */
  function Todo(w: World): map<string, Backend> {
    if w.closer.Some? && w.closer.value < |w.threads| && w.threads[w.closer.value].pc.Shutting?
    then w.threads[w.closer.value].pc.todo
    else map[]
  }

  /** The engine of a load is in the hands of the thread that loads it. */
  predicate InHand(pc: Pc) {
    pc.Finishing? || pc.Dropping?
  }

  /** How a load, its record, and its thread stand to each other; an engine that is kept is not closed yet. */
  predicate LoadOk(id: nat, l: LoaderRun, r: Record, th: Thread, shut: multiset<Backend>, kept: bool) {
    && th.call == Load(l.path)
    && r.closes <= 1
    && (r.closes == 0 ==> Owns(th.pc, id) && r.backend.None?)
    && (r.closes == 1 ==> th.pc.Returned? && (r.backend.Some? <==> r.err.None?))
    && (l.made.None? <==> r.closes == 0 && th.pc.Loading?)
    && (r.backend.Some? ==> l.made == Some(r.backend))
    && (Produced(l) ==> shut[l.made.value.value] == ShutCount(l.made.value, r, th.pc, kept))
  }

  function ShutCount(b: Option<Backend>, r: Record, pc: Pc, kept: bool): nat {
    if !CanClose(b) || (r.closes == 0 && InHand(pc)) || (r.backend.Some? && kept) then 0 else 1
  }

  predicate Produced(l: LoaderRun) {
    l.made.Some? && l.made.value.Some?
  }

  /** An open session lists each load under its path in exactly one of its three maps. */
  predicate Listed(s: Session, path: string, id: nat, r: Record) {
    && (path in s.loading <==> r.closes == 0)
    && (path in s.loaded <==> r.closes > 0 && r.backend.Some?)
    && (path in s.failed <==> r.closes > 0 && r.backend.None?)
    && (path in s.loading ==> s.loading[path] == id)
    && (path in s.loaded ==> Some(s.loaded[path]) == r.backend)
    && (path in s.failed ==> Some(s.failed[path]) == r.err)
  }

  predicate Kept(w: World, path: string) {
    !w.session.closed || path in Todo(w)
  }

  predicate LoadInv(w: World, id: nat)
    requires id < |w.loads| && id < |w.session.records|
  {
    var l, r := w.loads[id], w.session.records[id];
    && l.thread < |w.threads|
    && LoadOk(id, l, r, w.threads[l.thread], w.shut, Kept(w, l.path))
    && (!w.session.closed ==> Listed(w.session, l.path, id, r))
  }

  /** Some load of the path put the engine into its record. */
  ghost predicate Served(loads: seq<LoaderRun>, records: seq<Record>, path: string, b: Backend) {
    exists id | 0 <= id < |loads| && id < |records| :: loads[id].path == path && records[id].backend == Some(b)
  }

  predicate Owner(t: nat, call: Call, loads: seq<LoaderRun>, records: seq<Record>, id: nat) {
    id < |loads| && id < |records| && call == Load(loads[id].path) && loads[id].thread == t && records[id].closes == 0
  }

  predicate Waits(call: Call, loads: seq<LoaderRun>, records: seq<Record>, id: nat) {
    id < |loads| && id < |records| && call == Load(loads[id].path)
  }

  ghost predicate ThreadOk(t: nat, th: Thread, loads: seq<LoaderRun>, records: seq<Record>, closed: bool, closer: Option<nat>) {
    match th.pc
    case Entering => true
    case Waiting(id) => Waits(th.call, loads, records, id)
    case Woken(id) => Waits(th.call, loads, records, id) && records[id].closes > 0
    case Loading(id) => Owner(t, th.call, loads, records, id)
    case Finishing(id, b, e) =>
      Owner(t, th.call, loads, records, id) && loads[id].made == Some(b) && (e.None? ==> b.Some?)
    case Dropping(id, b, e, late) =>
      Owner(t, th.call, loads, records, id) && loads[id].made == Some(b) && (if late then closed else e.Some?)
    case Rejoining(id, e) => Owner(t, th.call, loads, records, id)
    case Marking(id, e) => Owner(t, th.call, loads, records, id) && closed && SaysClosed(e)
    case Shutting(todo, _) =>
      closer == Some(t) && th.call.Close? && forall p | p in todo :: Served(loads, records, p, todo[p])
    case Returned(b, e, late) => Answered(th.call, b, e, late, loads, records) && (late ==> closed)
  }

  /** What is known of a call that has returned. */
  ghost predicate Answered(call: Call, b: Option<Backend>, e: Option<Error>, late: bool, loads: seq<LoaderRun>, records: seq<Record>) {
    && (b.Some? ==> call.Load? && !late && Served(loads, records, call.path, b.value))
    && (call.Load? ==> (b.Some? <==> e.None?))
    && (call.Load? && late ==> e.Some? && SaysClosed(e.value))
  }

  ghost predicate ThreadInv(w: World, t: nat)
    requires t < |w.threads|
  {
    ThreadOk(t, w.threads[t], w.loads, w.session.records, w.session.closed, w.closer)
  }

  ghost predicate HasLoad(loads: seq<LoaderRun>, path: string) {
    exists id | 0 <= id < |loads| :: loads[id].path == path
  }

  ghost predicate SessionInv(s: Session, loads: seq<LoaderRun>) {
    && |loads| == |s.records|
    && |loads| <= MAX_SCRIPT_ENGINES
    && s.done == (if s.closed then 1 else 0)
    && (s.closed ==> s.loaded == map[] && s.failed == map[] && s.loading == map[])
    && (!s.closed ==> |s.loaded| + |s.failed| + |s.loading| == |loads|)
    && (forall p | p in s.loaded || p in s.failed || p in s.loading :: HasLoad(loads, p))
  }

  predicate CloserInv(closed: bool, closer: Option<nat>, threads: seq<Thread>) {
    && (closed <==> closer.Some?)
    && (closer.Some? ==>
          && closer.value < |threads|
          && threads[closer.value].call.Close?
          && (threads[closer.value].pc.Shutting? || threads[closer.value].pc.Returned?))
  }

  /** No path is loaded twice, and no engine is made twice. */
  predicate Distinct(loads: seq<LoaderRun>) {
    && (forall i, j | 0 <= i < j < |loads| :: loads[i].path != loads[j].path)
    && (forall i, j | 0 <= i < j < |loads| && Produced(loads[i]) :: loads[i].made != loads[j].made)
  }

  ghost predicate OnlyMade(shut: multiset<Backend>, loads: seq<LoaderRun>) {
    forall b | b in shut :: Made(loads, b)
  }

  ghost predicate Inv(w: World) {
    && SessionInv(w.session, w.loads)
    && CloserInv(w.session.closed, w.closer, w.threads)
    && Distinct(w.loads)
    && OnlyMade(w.shut, w.loads)
    && (forall id | 0 <= id < |w.loads| :: LoadInv(w, id))
    && (forall t | 0 <= t < |w.threads| :: ThreadInv(w, t))
  }

  // ----- steps keep it -----

  /** A step that changes only where its thread stands, and not what the thread owns or still has to close. */
  ghost predicate Quiet(was: Pc, now: Pc) {
    && !was.Returned? && !was.Shutting? && !now.Shutting?
    && (forall id: nat :: Owns(was, id) == Owns(now, id))
    && (was.Loading? <==> now.Loading?)
    && InHand(was) == InHand(now)
  }

  lemma QuietLoad(id: nat, l: LoaderRun, r: Record, th: Thread, shut: multiset<Backend>, kept: bool, pc: Pc)
    requires LoadOk(id, l, r, th, shut, kept) && Quiet(th.pc, pc)
    ensures LoadOk(id, l, r, th.(pc := pc), shut, kept)
  {
  }

  lemma QuietKeeps(w: World, t: nat, pc: Pc)
    requires Inv(w) && t < |w.threads|
    requires Quiet(w.threads[t].pc, pc)
    requires ThreadInv(Put(w, t, pc), t)
    ensures Inv(Put(w, t, pc))
  {
    hide LoadOk, Listed, ThreadOk, SessionInv, Distinct, OnlyMade;
    var v := Put(w, t, pc);
    assert Todo(v) == Todo(w);
    assert |w.loads| == |w.session.records| by { SessionCount(w); }
    forall id | 0 <= id < |v.loads| ensures LoadInv(v, id) {
      assert LoadInv(w, id);
      var l := w.loads[id];
      if l.thread == t {
        QuietLoad(id, l, w.session.records[id], w.threads[t], w.shut, Kept(w, l.path), pc);
      }
    }
    forall u | 0 <= u < |v.threads| ensures ThreadInv(v, u) {
      assert ThreadInv(w, u);
    }
  }

  lemma SessionCount(w: World)
    requires SessionInv(w.session, w.loads)
    ensures |w.loads| == |w.session.records|
  {
  }

  /** Loads and records only grow, and those of the thread u stay as they are. */
  ghost predicate Grew(u: nat, loads: seq<LoaderRun>, records: seq<Record>, loads': seq<LoaderRun>, records': seq<Record>) {
    && |loads| <= |loads'| && |records| <= |records'|
    && (forall id | 0 <= id < |loads| :: loads'[id].path == loads[id].path && loads'[id].thread == loads[id].thread)
    && (forall id | 0 <= id < |loads| :: loads[id].thread == u ==> loads'[id] == loads[id])
    && (forall id | 0 <= id < |records| :: records[id].closes <= records'[id].closes)
    && (forall id | 0 <= id < |records| :: records[id].backend.Some? ==> records'[id].backend == records[id].backend)
    && (forall id | 0 <= id < |records| && id < |loads| :: loads[id].thread == u ==> records'[id] == records[id])
  }

  lemma ServedGrows(u: nat, loads: seq<LoaderRun>, records: seq<Record>, loads': seq<LoaderRun>, records': seq<Record>,
                    path: string, b: Backend)
    requires Grew(u, loads, records, loads', records') && Served(loads, records, path, b)
    ensures Served(loads', records', path, b)
  {
    var id :| 0 <= id < |loads| && id < |records| && loads[id].path == path && records[id].backend == Some(b);
    assert loads'[id].path == path && records'[id].backend == Some(b);
  }

  lemma ThreadGrows(u: nat, th: Thread, loads: seq<LoaderRun>, records: seq<Record>, closed: bool, closer: Option<nat>,
                    loads': seq<LoaderRun>, records': seq<Record>, closed': bool, closer': Option<nat>)
    requires ThreadOk(u, th, loads, records, closed, closer)
    requires Grew(u, loads, records, loads', records')
    requires (closed ==> closed') && (closer.Some? ==> closer' == closer)
    ensures ThreadOk(u, th, loads', records', closed', closer')
  {
    if th.pc.Shutting? {
      forall p | p in th.pc.todo ensures Served(loads', records', p, th.pc.todo[p]) {
        ServedGrows(u, loads, records, loads', records', p, th.pc.todo[p]);
      }
    } else if th.pc.Returned? && th.pc.backend.Some? {
      ServedGrows(u, loads, records, loads', records', th.call.path, th.pc.backend.value);
    }
  }

  lemma StartKeeps(w: World, call: Call)
    requires Inv(w)
    ensures Inv(After(w, Start(call)))
  {
    hide LoadOk, Listed, SessionInv, Distinct, OnlyMade;
    var v := After(w, Start(call));
    assert Todo(v) == Todo(w);
    assert |w.loads| == |w.session.records| by { SessionCount(w); }
    forall id | 0 <= id < |v.loads| ensures LoadInv(v, id) {
      assert LoadInv(w, id);
    }
    forall u | 0 <= u < |v.threads| ensures ThreadInv(v, u) {
      if u < |w.threads| { assert ThreadInv(w, u); }
    }
  }

  lemma CancelKeeps(w: World, t: nat)
    requires Inv(w) && t < |w.threads|
    ensures Inv(After(w, Cancel(t)))
  {
    hide Listed, SessionInv, Distinct, OnlyMade;
    var v := After(w, Cancel(t));
    assert Todo(v) == Todo(w);
    assert |w.loads| == |w.session.records| by { SessionCount(w); }
    forall id | 0 <= id < |v.loads| ensures LoadInv(v, id) {
      assert LoadInv(w, id);
    }
    forall u | 0 <= u < |v.threads| ensures ThreadInv(v, u) {
      assert ThreadInv(w, u);
    }
  }

  /** A thread that owns no load and has not returned is not the thread of any load. */
  lemma NotLoading(w: World, t: nat)
    requires Inv(w) && t < |w.threads| && !w.threads[t].pc.Returned?
    requires forall id: nat :: !Owns(w.threads[t].pc, id)
    ensures |w.loads| == |w.session.records|
    ensures forall id | 0 <= id < |w.loads| :: w.loads[id].thread != t
  {
    SessionCount(w);
    forall id | 0 <= id < |w.loads| ensures w.loads[id].thread != t {
      assert LoadInv(w, id);
    }
  }

  /** The open session lists every path that was loaded. */
  lemma LoadedIsListed(w: World, path: string)
    requires Inv(w) && !w.session.closed
    requires path !in w.session.loaded && path !in w.session.failed && path !in w.session.loading
    ensures !HasLoad(w.loads, path)
  {
    SessionCount(w);
    forall id | 0 <= id < |w.loads| ensures w.loads[id].path != path {
      assert LoadInv(w, id);
    }
  }

  lemma BeginDistinct(loads: seq<LoaderRun>, path: string, t: nat)
    requires Distinct(loads) && !HasLoad(loads, path)
    ensures Distinct(loads + [LoaderRun(path, t, None, None)])
  {
  }

  lemma BeginSession(s: Session, loads: seq<LoaderRun>, path: string, t: nat)
    requires SessionInv(s, loads) && !s.closed && Distinct(loads) && !HasLoad(loads, path)
    requires |s.loaded| + |s.failed| + |s.loading| < MAX_SCRIPT_ENGINES
    ensures SessionInv(Admitted(s, path), loads + [LoaderRun(path, t, None, None)])
    ensures Distinct(loads + [LoaderRun(path, t, None, None)])
  {
    hide Distinct;
    BeginDistinct(loads, path, t);
    var after := loads + [LoaderRun(path, t, None, None)];
    assert path !in s.loading;
    assert after[|loads|].path == path;
    forall p | HasLoad(loads, p) ensures HasLoad(after, p) {
      var id :| 0 <= id < |loads| && loads[id].path == p;
      assert after[id].path == p;
    }
  }

  lemma MadeGrows(shut: multiset<Backend>, loads: seq<LoaderRun>, after: seq<LoaderRun>)
    requires OnlyMade(shut, loads) && |loads| <= |after|
    requires forall id | 0 <= id < |loads| && loads[id].made.Some? :: after[id].made == loads[id].made
    ensures OnlyMade(shut, after)
  {
    forall b | b in shut ensures Made(after, b) {
      var id :| 0 <= id < |loads| && loads[id].made == Some(Some(b));
      assert after[id].made == Some(Some(b));
    }
  }

  lemma BeginKeeps(w: World, t: nat, path: string)
    requires Inv(w) && t < |w.threads|
    requires w.threads[t].pc.Entering? && w.threads[t].call == Load(path)
    requires EnterStep(w.session, path, w.threads[t].cancelled).1.Begin?
    ensures Inv(EnterMove(w, t))
  {
    hide SessionInv, Distinct, OnlyMade, ThreadOk;
    var v := EnterMove(w, t);
    LoadedIsListed(w, path);
    NotLoading(w, t);
    BeginSession(w.session, w.loads, path, t);
    MadeGrows(w.shut, w.loads, v.loads);
    assert Todo(v) == Todo(w);
    forall id | 0 <= id < |v.loads| ensures LoadInv(v, id) {
      if id < |w.loads| {
        assert LoadInv(w, id);
        assert w.loads[id].path != path;
      } else {
        assert !w.session.closed;
      }
    }
    forall u | 0 <= u < |v.threads| ensures ThreadInv(v, u) {
      if u == t {
        OwnerNow(v, t, |w.loads|);
      } else {
        assert ThreadInv(w, u);
        ThreadGrows(u, w.threads[u], w.loads, w.session.records, w.session.closed, w.closer,
                    v.loads, v.session.records, v.session.closed, v.closer);
      }
    }
  }

  lemma OwnerNow(w: World, t: nat, id: nat)
    requires t < |w.threads| && w.threads[t].pc == Loading(id)
    requires Owner(t, w.threads[t].call, w.loads, w.session.records, id)
    ensures ThreadInv(w, t)
  {
  }

  /** A listed engine was put there by a load of its path. */
  lemma ListedIsServed(w: World, path: string)
    requires Inv(w) && path in w.session.loaded
    ensures !w.session.closed && Served(w.loads, w.session.records, path, w.session.loaded[path])
  {
    var id :| 0 <= id < |w.loads| && w.loads[id].path == path;
    assert LoadInv(w, id);
  }

  lemma JoinedIsLoading(w: World, path: string)
    requires Inv(w) && path in w.session.loading
    ensures Waits(Load(path), w.loads, w.session.records, w.session.loading[path])
  {
    var id :| 0 <= id < |w.loads| && w.loads[id].path == path;
    assert LoadInv(w, id);
  }

  lemma EnterLoadKeeps(w: World, t: nat)
    requires Inv(w) && t < |w.threads| && w.threads[t].pc.Entering? && w.threads[t].call.Load?
    ensures Inv(EnterMove(w, t))
  {
    hide Inv;
    var path := w.threads[t].call.path;
    var entry := EnterStep(w.session, path, w.threads[t].cancelled).1;
    if path in w.session.loaded { ListedIsServed(w, path); }
    if path in w.session.loading { JoinedIsLoading(w, path); }
    match entry
    case Begin(_) => BeginKeeps(w, t, path);
    case Join(id) => QuietKeeps(w, t, Waiting(id));
    case Answer(b, e) =>
      QuietKeeps(w, t, Returned(b, e, w.session.hasLoader && w.session.closed));
  }

  lemma ShutDown(s: Session, loads: seq<LoaderRun>)
    requires SessionInv(s, loads)
    ensures SessionInv(CloseStep(s).0, loads)
  {
  }

  lemma EnterCloseKeeps(w: World, t: nat)
    requires Inv(w) && t < |w.threads| && w.threads[t].pc.Entering? && w.threads[t].call.Close?
    ensures Inv(EnterMove(w, t))
  {
    hide SessionInv, Distinct, OnlyMade, ThreadOk;
    var v := EnterMove(w, t);
    if w.session.closed {
      CloseTwice(w, t);
    } else {
      ShutDown(w.session, w.loads);
      NotLoading(w, t);
      forall id | 0 <= id < |v.loads| ensures LoadInv(v, id) {
        assert LoadInv(w, id);
      }
      forall u | 0 <= u < |v.threads| ensures ThreadInv(v, u) {
        if u == t {
          TakesAll(w, t);
        } else {
          assert ThreadInv(w, u);
          ThreadGrows(u, w.threads[u], w.loads, w.session.records, false, None,
                      w.loads, w.session.records, true, Some(t));
        }
      }
    }
  }

  lemma CloseTwice(w: World, t: nat)
    requires Inv(w) && t < |w.threads| && w.threads[t].pc.Entering? && w.threads[t].call.Close? && w.session.closed
    ensures Inv(EnterMove(w, t))
  {
    hide Inv;
    QuietKeeps(w, t, Returned(None, None, true));
  }

  lemma TakesAll(w: World, t: nat)
    requires Inv(w) && t < |w.threads| && w.threads[t].call.Close?
    ensures ThreadOk(t, w.threads[t].(pc := Shutting(w.session.loaded, [])), w.loads, w.session.records, true, Some(t))
  {
    forall p | p in w.session.loaded ensures Served(w.loads, w.session.records, p, w.session.loaded[p]) {
      ListedIsServed(w, p);
    }
  }

  lemma EngineIsNew(loads: seq<LoaderRun>, id: nat, made: Option<Backend>, fault: Option<Error>)
    requires Distinct(loads) && id < |loads| && loads[id].made.None?
    requires made.Some? ==> !Made(loads, made.value)
    ensures Distinct(loads[id := loads[id].(made := Some(made), fault := fault)])
  {
  }

  lemma SessionSamePaths(s: Session, loads: seq<LoaderRun>, after: seq<LoaderRun>)
    requires SessionInv(s, loads) && |after| == |loads|
    requires forall id | 0 <= id < |loads| :: after[id].path == loads[id].path
    ensures SessionInv(s, after)
  {
    forall p | HasLoad(loads, p) ensures HasLoad(after, p) {
      var id :| 0 <= id < |loads| && loads[id].path == p;
      assert after[id].path == p;
    }
  }

  lemma LoaderReturnsKeeps(w: World, t: nat, m: Move)
    requires Inv(w) && t < |w.threads| && w.threads[t].pc.Loading? && CanMove(w, w.threads[t], m)
    ensures Inv(Moved(w, t, m))
  {
    hide SessionInv, Distinct, OnlyMade, Listed;
    var v := Moved(w, t, m);
    var id := w.threads[t].pc.id;
    assert ThreadInv(w, t);
    assert LoadInv(w, id);
    SessionSamePaths(w.session, w.loads, v.loads);
    EngineIsNew(w.loads, id, m.made, m.fault);
    MadeGrows(w.shut, w.loads, v.loads);
    if m.made.Some? { Unmade(w, m.made); }
    assert Todo(v) == Todo(w);
    SessionCount(w);
    forall i | 0 <= i < |v.loads| ensures LoadInv(v, i) {
      assert LoadInv(w, i);
    }
    forall u | 0 <= u < |v.threads| ensures ThreadInv(v, u) {
      assert ThreadInv(w, u);
      if u != t {
        ThreadGrows(u, w.threads[u], w.loads, w.session.records, w.session.closed, w.closer,
                    v.loads, v.session.records, v.session.closed, v.closer);
      }
    }
  }

  lemma Unmade(w: World, b: Option<Backend>)
    requires OnlyMade(w.shut, w.loads) && b.Some? && !Made(w.loads, b.value)
    ensures w.shut[b.value] == 0
  {
  }

  lemma SettledSession(s: Session, loads: seq<LoaderRun>, path: string, id: nat, b: Option<Backend>, e: Option<Error>)
    requires SessionInv(s, loads) && !s.closed && id < |loads| && loads[id].path == path
    requires Listed(s, path, id, s.records[id]) && s.records[id].closes == 0 && (e.None? ==> b.Some?)
    ensures SessionInv(Settle(s, path, id, b, e), loads)
  {
    assert HasLoad(loads, path);
    assert |s.loading - {path}| == |s.loading| - 1 by { DropKey(s.loading, path); }
  }

  lemma DropKey<K, V>(m: map<K, V>, k: K)
    requires k in m
    ensures |m - {k}| == |m| - 1
  {
    assert m == (m - {k})[k := m[k]];
  }

  lemma OtherListed(s: Session, path: string, id: nat, b: Option<Backend>, e: Option<Error>, other: string, j: nat)
    requires id < |s.records| && j < |s.records| && j != id && other != path && (e.None? ==> b.Some?)
    requires Listed(s, other, j, s.records[j])
    ensures Listed(Settle(s, path, id, b, e), other, j, Settle(s, path, id, b, e).records[j])
  {
  }

  /** The owner of a load that has not finished puts its outcome into the open session. */
  ghost predicate CanSettle(w: World, t: nat, id: nat, b: Option<Backend>, e: Option<Error>) {
    && Inv(w) && !w.session.closed && t < |w.threads| && Owns(w.threads[t].pc, id)
    && (e.None? ==> b.Some?)
    && (match w.threads[t].pc
        case Finishing(_, b', e') => b' == b && e' == e && (e.Some? ==> !CanClose(b))
        case Rejoining(_, err) => b.None? && e == Some(err)
        case _ => false)
  }

  function Outcome(w: World, t: nat, id: nat, path: string, b: Option<Backend>, e: Option<Error>): World
    requires t < |w.threads| && id < |w.session.records| && (e.None? ==> b.Some?)
  {
    var after := Settle(w.session, path, id, b, e);
    Put(w.(session := after), t, Returned(after.records[id].backend, e, false))
  }

  lemma SettleKeeps(w: World, t: nat, id: nat, b: Option<Backend>, e: Option<Error>)
    requires CanSettle(w, t, id, b, e)
    ensures id < |w.loads| == |w.session.records| && w.threads[t].call == Load(w.loads[id].path)
    ensures Inv(Outcome(w, t, id, w.loads[id].path, b, e))
  {
    hide SessionInv, Distinct, OnlyMade, Listed, ThreadOk, Settle;
    SessionCount(w);
    OwnedNow(w, t, id);
    var path := w.loads[id].path;
    var v := Outcome(w, t, id, path, b, e);
    SettledSession(w.session, w.loads, path, id, b, e);
    SettledRecord(w.session, path, id, b, e, id);
    assert Todo(v) == Todo(w);
    forall i | 0 <= i < |v.loads| ensures LoadInv(v, i) {
      assert LoadInv(w, i);
      if i == id {
        SettledLoad(w, t, id, b, e);
      } else {
        Apart(w.loads, i, id);
        SettledRecord(w.session, path, id, b, e, i);
        OtherListed(w.session, path, id, b, e, w.loads[i].path, i);
        assert w.loads[i].thread != t by { OnlyOwned(w, t, id, i); }
      }
    }
    forall u | 0 <= u < |v.threads| ensures ThreadInv(v, u) {
      assert ThreadInv(w, u);
      SettledGrew(w, t, id, b, e, u);
      if u == t {
        SettledThread(w, t, id, b, e);
      } else {
        ThreadGrows(u, w.threads[u], w.loads, w.session.records, w.session.closed, w.closer,
                    v.loads, v.session.records, v.session.closed, v.closer);
      }
    }
  }

  lemma ThreadHas(w: World, t: nat)
    requires Inv(w) && t < |w.threads|
    ensures ThreadInv(w, t)
  {
  }

  lemma LoadHas(w: World, id: nat)
    requires Inv(w) && id < |w.loads| && id < |w.session.records|
    ensures LoadInv(w, id)
  {
  }

  /** What a thread that owns a load knows about it. */
  lemma OwnedNow(w: World, t: nat, id: nat)
    requires Inv(w) && t < |w.threads| && Owns(w.threads[t].pc, id)
    ensures id < |w.loads| == |w.session.records|
    ensures w.loads[id].thread == t && w.session.records[id].closes == 0 && LoadInv(w, id)
    ensures w.threads[t].call == Load(w.loads[id].path)
  {
    assert ThreadInv(w, t);
    assert LoadInv(w, id);
  }

  lemma OnlyOwned(w: World, t: nat, id: nat, other: nat)
    requires Inv(w) && t < |w.threads| && Owns(w.threads[t].pc, id)
    requires other < |w.loads| == |w.session.records| && other != id
    ensures w.loads[other].thread != t
  {
    assert LoadInv(w, other);
  }

  lemma Apart(loads: seq<LoaderRun>, i: nat, j: nat)
    requires Distinct(loads) && i < |loads| && j < |loads| && i != j
    ensures loads[i].path != loads[j].path
    ensures Produced(loads[i]) ==> loads[i].made != loads[j].made
  {
    if j < i { assert loads[j].path != loads[i].path; }
  }

  lemma SettledRecord(s: Session, path: string, id: nat, b: Option<Backend>, e: Option<Error>, i: nat)
    requires id < |s.records| && i < |s.records| && (e.None? ==> b.Some?)
    ensures var after := Settle(s, path, id, b, e);
      && |after.records| == |s.records| && after.closed == s.closed && after.done == s.done
      && after.records[i] ==
         if i != id then s.records[i]
         else Record(s.records[id].closes + 1, if e.Some? then s.records[id].backend else b, e)
  {
  }

  lemma SettledLoad(w: World, t: nat, id: nat, b: Option<Backend>, e: Option<Error>)
    requires CanSettle(w, t, id, b, e)
    requires id < |w.loads| == |w.session.records|
    ensures LoadInv(Outcome(w, t, id, w.loads[id].path, b, e), id)
  {
    hide SessionInv, Distinct, OnlyMade;
    OwnedNow(w, t, id);
    assert ThreadInv(w, t);
  }

  lemma SettledGrew(w: World, t: nat, id: nat, b: Option<Backend>, e: Option<Error>, u: nat)
    requires CanSettle(w, t, id, b, e)
    requires id < |w.loads| == |w.session.records|
    ensures u != t ==> Grew(u, w.loads, w.session.records, w.loads, Settle(w.session, w.loads[id].path, id, b, e).records)
  {
    hide SessionInv, Distinct, OnlyMade;
    OwnedNow(w, t, id);
  }

  lemma SettledThread(w: World, t: nat, id: nat, b: Option<Backend>, e: Option<Error>)
    requires CanSettle(w, t, id, b, e)
    requires id < |w.loads| == |w.session.records|
    ensures ThreadInv(Outcome(w, t, id, w.loads[id].path, b, e), t)
  {
    hide SessionInv, Distinct, OnlyMade;
    OwnedNow(w, t, id);
    var v := Outcome(w, t, id, w.loads[id].path, b, e);
    assert v.loads[id].path == w.threads[t].call.path;
  }

  /** What the section after the loader does. */
  lemma FinishMoves(w: World, t: nat)
    requires t < |w.threads| && w.threads[t].pc.Finishing? && CanMove(w, w.threads[t], Move.Finish)
    requires w.threads[t].call.Load? && w.threads[t].pc.id < |w.session.records|
    ensures var pc, path := w.threads[t].pc, w.threads[t].call.path;
      (pc.err.None? ==> pc.backend.Some?) &&
      Moved(w, t, Move.Finish) ==
        if w.session.closed then
          Put(w.(session := w.session.(loading := w.session.loading - {path})), t, Dropping(pc.id, pc.backend, pc.err, true))
        else if pc.err.Some? && CanClose(pc.backend) then Put(w, t, Dropping(pc.id, pc.backend, pc.err, false))
        else Outcome(w, t, pc.id, path, pc.backend, pc.err)
  {
    hide Settle;
  }

  lemma FinishKeeps(w: World, t: nat)
    requires Inv(w) && t < |w.threads| && w.threads[t].pc.Finishing? && CanMove(w, w.threads[t], Move.Finish)
    ensures Inv(Moved(w, t, Move.Finish))
  {
    hide Inv, Moved, Outcome;
    var pc, path := w.threads[t].pc, w.threads[t].call.path;
    OwnedNow(w, t, pc.id);
    ThreadHas(w, t);
    FinishMoves(w, t);
    if w.session.closed {
      NothingListed(w, path);
      StillDropping(w, t, true);
    } else if pc.err.Some? && CanClose(pc.backend) {
      StillDropping(w, t, false);
    } else {
      SettleKeeps(w, t, pc.id, pc.backend, pc.err);
    }
  }

  lemma NothingListed(w: World, path: string)
    requires Inv(w) && w.session.closed
    ensures w.session.(loading := w.session.loading - {path}) == w.session
  {
  }

  lemma StillDropping(w: World, t: nat, late: bool)
    requires Inv(w) && t < |w.threads| && w.threads[t].pc.Finishing?
    requires if late then w.session.closed else w.threads[t].pc.err.Some?
    ensures Inv(Put(w, t, Dropping(w.threads[t].pc.id, w.threads[t].pc.backend, w.threads[t].pc.err, late)))
  {
    hide Inv;
    ThreadHas(w, t);
    QuietKeeps(w, t, Dropping(w.threads[t].pc.id, w.threads[t].pc.backend, w.threads[t].pc.err, late));
  }

  /** What the section after closing the engine of a failed load does. */
  lemma RejoinMoves(w: World, t: nat)
    requires t < |w.threads| && w.threads[t].pc.Rejoining? && CanMove(w, w.threads[t], Move.Rejoin)
    requires w.threads[t].call.Load? && w.threads[t].pc.id < |w.session.records|
    ensures var pc, path := w.threads[t].pc, w.threads[t].call.path;
      Moved(w, t, Move.Rejoin) ==
        if w.session.closed then
          Put(w.(session := w.session.(loading := w.session.loading - {path})), t, Marking(pc.id, Wrapped(Some(pc.error))))
        else Outcome(w, t, pc.id, path, None, Some(pc.error))
  {
    hide Settle, Wrapped;
  }

  lemma RejoinKeeps(w: World, t: nat)
    requires Inv(w) && t < |w.threads| && w.threads[t].pc.Rejoining? && CanMove(w, w.threads[t], Move.Rejoin)
    ensures Inv(Moved(w, t, Move.Rejoin))
  {
    hide Inv, Moved, Wrapped, Outcome;
    var pc, path := w.threads[t].pc, w.threads[t].call.path;
    OwnedNow(w, t, pc.id);
    ThreadHas(w, t);
    RejoinMoves(w, t);
    if w.session.closed {
      NothingListed(w, path);
      QuietKeeps(w, t, Marking(pc.id, Wrapped(Some(pc.error))));
    } else {
      SettleKeeps(w, t, pc.id, None, Some(pc.error));
    }
  }

  lemma MarkSession(s: Session, loads: seq<LoaderRun>, id: nat, e: Error)
    requires SessionInv(s, loads) && id < |loads|
    ensures SessionInv(MarkStep(s, id, e), loads)
  {
  }

  lemma MarkKeeps(w: World, t: nat)
    requires Inv(w) && t < |w.threads| && w.threads[t].pc.Marking? && CanMove(w, w.threads[t], Move.Mark)
    ensures Inv(Moved(w, t, Move.Mark))
  {
    hide SessionInv, Distinct, OnlyMade;
    var pc := w.threads[t].pc;
    var v := Moved(w, t, Move.Mark);
    OwnedNow(w, t, pc.id);
    assert ThreadInv(w, t);
    MarkSession(w.session, w.loads, pc.id, pc.error);
    assert Todo(v) == Todo(w);
    forall i | 0 <= i < |v.loads| ensures LoadInv(v, i) {
      assert LoadInv(w, i);
      if i != pc.id { OnlyOwned(w, t, pc.id, i); }
    }
    forall u | 0 <= u < |v.threads| ensures ThreadInv(v, u) {
      assert ThreadInv(w, u);
      if u != t {
        ThreadGrows(u, w.threads[u], w.loads, w.session.records, w.session.closed, w.closer,
                    v.loads, v.session.records, v.session.closed, v.closer);
      }
    }
  }

  /** Two loads that made engines made different ones. */
  lemma OtherEngine(loads: seq<LoaderRun>, i: nat, j: nat)
    requires Distinct(loads) && i < |loads| && j < |loads| && i != j && Produced(loads[i]) && Produced(loads[j])
    ensures loads[i].made.value.value != loads[j].made.value.value
  {
    Apart(loads, i, j);
  }

  lemma ClosedIsMade(w: World, id: nat)
    requires OnlyMade(w.shut, w.loads) && id < |w.loads| && w.loads[id].made.Some?
    ensures OnlyMade(Closed(w, w.loads[id].made.value).shut, w.loads)
  {
  }

  /** Closing another engine does not touch a load. */
  lemma OthersUnshut(id: nat, l: LoaderRun, r: Record, th: Thread, shut: multiset<Backend>, kept: bool, b: Option<Backend>)
    requires LoadOk(id, l, r, th, shut, kept)
    requires Produced(l) ==> l.made.value != b
    ensures LoadOk(id, l, r, th, if CanClose(b) then shut + multiset{b.value} else shut, kept)
  {
  }

  /** Visiting an engine that Close took over accounts for it. */
  lemma ShutAccounts(id: nat, l: LoaderRun, r: Record, th: Thread, shut: multiset<Backend>)
    requires LoadOk(id, l, r, th, shut, true) && r.backend.Some?
    ensures LoadOk(id, l, r, th, if CanClose(r.backend) then shut + multiset{r.backend.value} else shut, false)
  {
  }

  /** A thread that has closed the engine it was given accounts for it. */
  lemma DropAccounts(id: nat, l: LoaderRun, r: Record, th: Thread, shut: multiset<Backend>, kept: bool, pc: Pc)
    requires LoadOk(id, l, r, th, shut, kept) && r.closes == 0 && InHand(th.pc) && l.made.Some?
    requires Owns(pc, id) && !InHand(pc) && !pc.Loading?
    ensures LoadOk(id, l, r, th.(pc := pc), if CanClose(l.made.value) then shut + multiset{l.made.value.value} else shut, kept)
  {
  }

  lemma DropKeeps(w: World, t: nat, m: Move)
    requires Inv(w) && t < |w.threads| && w.threads[t].pc.Dropping? && CanMove(w, w.threads[t], m)
    ensures Inv(Moved(w, t, m))
  {
    hide SessionInv, Distinct, OnlyMade, Listed, Present, LoadOk, Served;
    var pc := w.threads[t].pc;
    var v := Moved(w, t, m);
    OwnedNow(w, t, pc.id);
    assert ThreadInv(w, t);
    DropAccounts(pc.id, w.loads[pc.id], w.session.records[pc.id], w.threads[t], w.shut, Kept(w, w.loads[pc.id].path),
                 v.threads[t].pc);
    ClosedIsMade(w, pc.id);
    assert Todo(v) == Todo(w);
    forall i | 0 <= i < |v.loads| ensures LoadInv(v, i) {
      assert LoadInv(w, i);
      if i != pc.id {
        OnlyOwned(w, t, pc.id, i);
        if Produced(w.loads[i]) && pc.backend.Some? { OtherEngine(w.loads, i, pc.id); }
        OthersUnshut(i, w.loads[i], w.session.records[i], w.threads[w.loads[i].thread], w.shut,
                     Kept(w, w.loads[i].path), pc.backend);
      }
    }
    forall u | 0 <= u < |v.threads| ensures ThreadInv(v, u) {
      assert ThreadInv(w, u);
    }
  }

  lemma ShutOneLoads(w: World, t: nat, path: string, failure: Option<Error>, id: nat, i: nat)
    requires Inv(w) && t < |w.threads| && w.threads[t].pc.Shutting? && path in w.threads[t].pc.todo
    requires id < |w.loads| == |w.session.records| && w.loads[id].path == path && i < |w.loads|
    requires w.session.records[id].backend == Some(w.threads[t].pc.todo[path])
    ensures LoadInv(ShutMove(w, t, path, failure), i)
  {
    hide SessionInv, OnlyMade, Listed, LoadOk, Distinct, Served;
    var l, r := w.loads[i], w.session.records[i];
    var v := ShutMove(w, t, path, failure);
    assert ThreadInv(w, t);
    MadeHere(w, id);
    NotShutting(w, i);
    assert LoadInv(w, i);
    assert Kept(v, l.path) == (Kept(w, l.path) && l.path != path);
    if i == id {
      ShutAccounts(i, l, r, w.threads[l.thread], w.shut);
    } else {
      Apart(w.loads, i, id);
      OthersUnshut(i, l, r, w.threads[l.thread], w.shut, Kept(w, l.path), w.session.records[id].backend);
    }
  }

  lemma ShutOneKeeps(w: World, t: nat, m: Move)
    requires Inv(w) && t < |w.threads| && w.threads[t].pc.Shutting? && m.ShutOne? && CanMove(w, w.threads[t], m)
    ensures Inv(Moved(w, t, m))
  {
    hide SessionInv, Distinct, OnlyMade, LoadInv;
    var v := ShutMove(w, t, m.path, m.failure);
    assert ThreadInv(w, t);
    SessionCount(w);
    var id :| 0 <= id < |w.loads| && w.loads[id].path == m.path
           && w.session.records[id].backend == Some(w.threads[t].pc.todo[m.path]);
    MadeHere(w, id);
    ClosedIsMade(w, id);
    forall i | 0 <= i < |v.loads| ensures LoadInv(v, i) {
      ShutOneLoads(w, t, m.path, m.failure, id, i);
    }
    forall u | 0 <= u < |v.threads| ensures ThreadInv(v, u) {
      assert ThreadInv(w, u);
    }
  }

  lemma MadeHere(w: World, id: nat)
    requires Inv(w) && id < |w.loads| == |w.session.records| && w.session.records[id].backend.Some?
    ensures w.loads[id].made == Some(w.session.records[id].backend)
  {
    assert LoadInv(w, id);
  }

  lemma NotShutting(w: World, id: nat)
    requires Inv(w) && id < |w.loads| == |w.session.records|
    ensures w.loads[id].thread < |w.threads| && w.threads[w.loads[id].thread].call.Load?
  {
    assert LoadInv(w, id);
  }

  lemma ShutEndKeeps(w: World, t: nat, m: Move)
    requires Inv(w) && t < |w.threads| && w.threads[t].pc.Shutting? && m.ShutEnd? && CanMove(w, w.threads[t], m)
    ensures Inv(Moved(w, t, m))
  {
    hide SessionInv, Distinct, OnlyMade, Listed;
    var v := Moved(w, t, m);
    assert ThreadInv(w, t);
    SessionCount(w);
    forall i | 0 <= i < |v.loads| ensures LoadInv(v, i) {
      assert LoadInv(w, i);
    }
    forall u | 0 <= u < |v.threads| ensures ThreadInv(v, u) {
      assert ThreadInv(w, u);
    }
  }

  lemma WaitKeeps(w: World, t: nat, m: Move)
    requires Inv(w) && t < |w.threads| && w.threads[t].pc.Waiting? && CanMove(w, w.threads[t], m)
    ensures Inv(Moved(w, t, m))
  {
    hide Inv;
    ThreadHas(w, t);
    DoneIsClosed(w);
    QuietKeeps(w, t, Moved(w, t, m).threads[t].pc);
  }

  lemma DoneIsClosed(w: World)
    requires Inv(w)
    ensures w.session.done > 0 ==> w.session.closed
  {
  }

  lemma CollectKeeps(w: World, t: nat)
    requires Inv(w) && t < |w.threads| && w.threads[t].pc.Woken? && CanMove(w, w.threads[t], Move.Collect)
    ensures Inv(Moved(w, t, Move.Collect))
  {
    hide Inv;
    ThreadHas(w, t);
    LoadHas(w, w.threads[t].pc.id);
    var pc := Moved(w, t, Move.Collect).threads[t].pc;
    if pc.backend.Some? {
      var id := w.threads[t].pc.id;
      assert w.loads[id].path == w.threads[t].call.path && w.session.records[id].backend == pc.backend;
    }
    QuietKeeps(w, t, pc);
  }

  lemma MoveKeeps(w: World, t: nat, m: Move)
    requires Inv(w) && t < |w.threads| && CanMove(w, w.threads[t], m)
    ensures Inv(Moved(w, t, m))
  {
    hide Inv, Moved;
    match w.threads[t].pc
    case Entering =>
      EnterIsMove(w, t, m);
      if w.threads[t].call.Load? { EnterLoadKeeps(w, t); } else { EnterCloseKeeps(w, t); }
    case Waiting(_) => WaitKeeps(w, t, m);
    case Woken(_) => CollectKeeps(w, t);
    case Loading(_) => LoaderReturnsKeeps(w, t, m);
    case Finishing(_, _, _) => FinishKeeps(w, t);
    case Dropping(_, _, _, _) => DropKeeps(w, t, m);
    case Rejoining(_, _) => RejoinKeeps(w, t);
    case Marking(_, _) => MarkKeeps(w, t);
    case Shutting(_, _) => if m.ShutOne? { ShutOneKeeps(w, t, m); } else { ShutEndKeeps(w, t, m); }
    case Returned(_, _, _) => assert false;
  }

  lemma EnterIsMove(w: World, t: nat, m: Move)
    requires t < |w.threads| && w.threads[t].pc.Entering? && CanMove(w, w.threads[t], m)
    ensures Moved(w, t, m) == EnterMove(w, t)
  {
  }

  lemma StepKeeps(w: World, a: Action)
    requires Inv(w) && Enabled(w, a)
    ensures Inv(After(w, a))
  {
    hide Inv, Moved;
    match a
    case Start(call) => StartKeeps(w, call);
    case Cancel(t) => CancelKeeps(w, t);
    case Go(t, m) => MoveKeeps(w, t, m);
  }

  lemma {:induction false} RunKeeps(w: World, actions: seq<Action>)
    requires Inv(w) && Run(w, actions).Some?
    ensures Inv(Run(w, actions).value)
    decreases |actions|
  {
    hide Inv, After, Enabled;
    if actions != [] {
      StepKeeps(w, actions[0]);
      RunKeeps(After(w, actions[0]), actions[1..]);
    }
  }

  lemma ReachableInv(w: World)
    requires Reachable(w)
    ensures Inv(w)
  {
    hide Run;
    var hasLoader, actions :| Run(Initial(hasLoader), actions) == Some(w);
    RunKeeps(Initial(hasLoader), actions);
  }
}
