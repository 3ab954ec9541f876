/** delayquene/grpcpool.go: one cached connection per delivery target, looked up first under the read lock
    and again under the write lock. Each locked section is one step; callers interleave between them. */
module ConnPool {
  import opened Wrappers

  // One successful return of conn.
  datatype Return = Return(caller: nat, target: string, conn: nat)

  // `waiting` holds the callers that missed under the read lock; `dialled` the targets of all connections made.
  datatype Pool = Pool(conns: map<string, nat>, next: nat, closed: set<nat>,
                       waiting: map<nat, string>, results: seq<Return>, dialled: seq<string>)

  const EMPTY_POOL := Pool(map[], 0, {}, map[], [], [])

  // The section under the read lock.
  function LookUp(p: Pool, caller: nat, target: string): Pool {
    if caller in p.waiting then p
    else if target in p.conns then p.(results := p.results + [Return(caller, target, p.conns[target])])
    else p.(waiting := p.waiting[caller := target])
  }

  // The section under the write lock: look again, then connect; `fails` is grpc.NewClient's error.
  function Connect(p: Pool, caller: nat, fails: bool): Pool {
    if caller !in p.waiting then p
    else
      var target := p.waiting[caller];
      var p1 := p.(waiting := p.waiting - {caller});
      if target in p.conns then p1.(results := p.results + [Return(caller, target, p.conns[target])])
      else if fails then p1
      else
        p1.(conns := p.conns[target := p.next], next := p.next + 1,
            results := p.results + [Return(caller, target, p.next)], dialled := p.dialled + [target])
  }

  function Close(p: Pool): Pool {
    p.(closed := p.closed + p.conns.Values, conns := map[])
  }

  datatype Event = LookUpEv(caller: nat, target: string) | ConnectEv(caller: nat, fails: bool) | CloseEv

  function Apply(p: Pool, ev: Event): Pool {
    match ev
    case LookUpEv(caller, target) => LookUp(p, caller, target)
    case ConnectEv(caller, fails) => Connect(p, caller, fails)
    case CloseEv => Close(p)
  }

  function Run(p: Pool, evs: seq<Event>): Pool
    decreases |evs|
  {
    if evs == [] then p else Run(Apply(p, evs[0]), evs[1..])
  }

  // ----- what every step keeps -----

  // Stored connections are open, were made by this pool, and serve one target each.
  predicate Fits(p: Pool) {
    && (forall t :: t in p.conns ==> p.conns[t] < p.next && p.conns[t] !in p.closed)
    && (forall t, u :: t in p.conns && u in p.conns && p.conns[t] == p.conns[u] ==> t == u)
    && (forall c :: c in p.closed ==> c < p.next)
  }

  lemma FitsKept(p: Pool, ev: Event)
    requires Fits(p)
    ensures Fits(Apply(p, ev))
  {
  }

  function DialsOf(dialled: seq<string>, target: string): nat {
    if dialled == [] then 0
    else DialsOf(dialled[..|dialled| - 1], target) + if dialled[|dialled| - 1] == target then 1 else 0
  }

  // Since the pool was `p0`, without a Close: what was stored still is, every return since then is the
  // stored connection of its target, and a target was connected once if it is new and never otherwise.
  ghost predicate SameSpan(p0: Pool, p: Pool) {
    && (forall t :: t in p0.conns ==> t in p.conns && p.conns[t] == p0.conns[t])
    && p0.results <= p.results
    && (forall i :: |p0.results| <= i < |p.results| ==>
        p.results[i].target in p.conns && p.results[i].conn == p.conns[p.results[i].target])
    && (forall t :: DialsOf(p.dialled, t) == DialsOf(p0.dialled, t) + if t in p.conns && t !in p0.conns then 1 else 0)
    && p.closed == p0.closed
  }

  lemma DialsOneMore(dialled: seq<string>, target: string, t: string)
    ensures DialsOf(dialled + [target], t) == DialsOf(dialled, t) + if t == target then 1 else 0
  {
    assert (dialled + [target])[..|dialled|] == dialled;
  }

  // A locked section stores at most one connection, for a target that has none, and returns what is stored.
  ghost predicate OneStored(p: Pool, p': Pool) {
    && p'.closed == p.closed
    && (|| (p'.conns == p.conns && p'.dialled == p.dialled)
        || exists t :: t !in p.conns && p'.conns == p.conns[t := p.next] && p'.dialled == p.dialled + [t])
    && (|| p'.results == p.results
        || exists r :: p'.results == p.results + [r] && r.target in p'.conns && r.conn == p'.conns[r.target])
  }

  lemma SectionStoresOne(p: Pool, ev: Event)
    requires !ev.CloseEv?
    ensures OneStored(p, Apply(p, ev))
  {
    var p' := Apply(p, ev);
    if p'.results != p.results {
      var r := p'.results[|p.results|];
      assert p'.results == p.results + [r] && r.target in p'.conns && r.conn == p'.conns[r.target];
    }
    if p'.dialled != p.dialled {
      var t := p.waiting[ev.caller];
      assert t !in p.conns && p'.conns == p.conns[t := p.next] && p'.dialled == p.dialled + [t];
    }
  }

  lemma DialsKept(p0: Pool, p: Pool, p': Pool, t: string)
    requires SameSpan(p0, p) && OneStored(p, p')
    ensures DialsOf(p'.dialled, t) == DialsOf(p0.dialled, t) + if t in p'.conns && t !in p0.conns then 1 else 0
  {
    if p'.dialled != p.dialled {
      var target :| target !in p.conns && p'.conns == p.conns[target := p.next] && p'.dialled == p.dialled + [target];
      DialsOneMore(p.dialled, target, t);
    }
  }

  lemma ResultsKept(p0: Pool, p: Pool, p': Pool, i: nat)
    requires SameSpan(p0, p) && OneStored(p, p') && |p0.results| <= i < |p'.results|
    ensures p'.results[i].target in p'.conns && p'.results[i].conn == p'.conns[p'.results[i].target]
  {
    if i < |p.results| {
      assert p'.results[i] == p.results[i];
    }
  }

  lemma SpanKept(p0: Pool, p: Pool, ev: Event)
    requires SameSpan(p0, p) && !ev.CloseEv?
    ensures SameSpan(p0, Apply(p, ev))
  {
    var p' := Apply(p, ev);
    SectionStoresOne(p, ev);
    forall t ensures DialsOf(p'.dialled, t) == DialsOf(p0.dialled, t) + if t in p'.conns && t !in p0.conns then 1 else 0
    {
      DialsKept(p0, p, p', t);
    }
    forall i | |p0.results| <= i < |p'.results|
      ensures p'.results[i].target in p'.conns && p'.results[i].conn == p'.conns[p'.results[i].target]
    {
      ResultsKept(p0, p, p', i);
    }
  }

  lemma {:induction false} SpanAlways(p0: Pool, p: Pool, evs: seq<Event>)
    requires SameSpan(p0, p) && Fits(p) && forall i :: 0 <= i < |evs| ==> !evs[i].CloseEv?
    ensures SameSpan(p0, Run(p, evs)) && Fits(Run(p, evs))
    decreases |evs|
  {
    if evs != [] {
      SpanKept(p0, p, evs[0]);
      FitsKept(p, evs[0]);
      SpanAlways(p0, Apply(p, evs[0]), evs[1..]);
    }
  }

  lemma {:induction false} FitsAlways(p: Pool, evs: seq<Event>)
    requires Fits(p)
    ensures Fits(Run(p, evs))
    decreases |evs|
  {
    if evs != [] {
      FitsKept(p, evs[0]);
      FitsAlways(Apply(p, evs[0]), evs[1..]);
    }
  }

  // After any history, between two Closes and with any number of interleaved callers: all calls for one
  // target that return return the same open connection, and the target is connected at most once.
  lemma OneConnectionPerTarget(before: seq<Event>, span: seq<Event>, i: nat, j: nat)
    requires forall k :: 0 <= k < |span| ==> !span[k].CloseEv?
    requires var p0 := Run(EMPTY_POOL, before); var p := Run(p0, span);
      && |p0.results| <= i < |p.results| && |p0.results| <= j < |p.results|
    ensures var p0 := Run(EMPTY_POOL, before); var p := Run(p0, span); var target := p.results[i].target;
      && (p.results[i].conn == p.results[j].conn <==> target == p.results[j].target)
      && p.results[i].conn !in p.closed
      && DialsOf(p.dialled, target) <= DialsOf(p0.dialled, target) + 1
  {
    FitsAlways(EMPTY_POOL, before);
    SpanAlways(Run(EMPTY_POOL, before), Run(EMPTY_POOL, before), span);
  }

  // ----- every connection is accounted for -----

  // Each connection made is stored or closed.
  ghost predicate Accounted(p: Pool) {
    forall c: nat :: c < p.next ==> c in p.closed || c in p.conns.Values
  }

  lemma AccountedKept(p: Pool, ev: Event)
    requires Accounted(p) && Fits(p)
    ensures Accounted(Apply(p, ev))
  {
    var p' := Apply(p, ev);
    forall c: nat | c < p'.next ensures c in p'.closed || c in p'.conns.Values {
      if c < p.next && c !in p.closed {
        var t :| t in p.conns && p.conns[t] == c;
        assert t in p'.conns ==> p'.conns[t] == c;
      } else if c == p.next {
        assert !ev.CloseEv? && p'.conns[p.waiting[ev.caller]] == c;
      }
    }
  }

  lemma {:induction false} AccountedAlways(p: Pool, evs: seq<Event>)
    requires Accounted(p) && Fits(p)
    ensures Accounted(Run(p, evs))
    decreases |evs|
  {
    if evs != [] {
      AccountedKept(p, evs[0]);
      FitsKept(p, evs[0]);
      AccountedAlways(Apply(p, evs[0]), evs[1..]);
    }
  }

  // After any history, Close leaves no connection open that was ever made, and none stored.
  lemma CloseLeavesNoneOpen(evs: seq<Event>, c: nat)
    ensures var p := Close(Run(EMPTY_POOL, evs)); p.conns == map[] && (c in p.closed <==> c < p.next)
  {
    AccountedAlways(EMPTY_POOL, evs);
    FitsAlways(EMPTY_POOL, evs);
  }

  // ----- the pool object -----

  function ConnsOf(conns: map<string, nat>, targets: set<string>): set<nat> {
    set t | t in targets && t in conns :: conns[t]
  }

  class GrpcClientPool {
    var conns: map<string, nat>
    var next: nat
    var closed: set<nat>
    ghost var waiting: map<nat, string>
    ghost var results: seq<Return>
    ghost var dialled: seq<string>

    ghost function View(): Pool
      reads this
    {
      Pool(conns, next, closed, waiting, results, dialled)
    }

    constructor ()
      ensures View() == EMPTY_POOL
    {
      conns, next, closed := map[], 0, {};
      waiting, results, dialled := map[], [], [];
    }

    // mu.RLock(): look the target up.
    method ReadLocked(ghost caller: nat, target: string) returns (c: Option<nat>)
      requires caller !in waiting
      modifies this`waiting, this`results
      ensures View() == LookUp(old(View()), caller, target)
      ensures c.Some? <==> target in conns
      ensures c.Some? ==> c.value == conns[target]
    {
      if target in conns {
        results := results + [Return(caller, target, conns[target])];
        return Some(conns[target]);
      }
      waiting := waiting[caller := target];
      return None;
    }

    // mu.Lock(): re-check, since another caller may have won, then connect.
    method WriteLocked(ghost caller: nat, target: string, fails: bool) returns (c: Option<nat>)
      requires caller in waiting && waiting[caller] == target
      modifies this
      ensures View() == Connect(old(View()), caller, fails)
      ensures c.None? <==> fails && target !in old(conns)
      ensures c.Some? ==> target in conns && c.value == conns[target]
    {
      waiting := waiting - {caller};
      if target in conns {
        results := results + [Return(caller, target, conns[target])];
        return Some(conns[target]);
      }
      if fails {
        return None;
      }
      var made := next;
      next := next + 1;
      conns := conns[target := made];
      results := results + [Return(caller, target, made)];
      dialled := dialled + [target];
      return Some(made);
    }

    // conn, when no other caller runs between its two sections.
    method Conn(ghost caller: nat, target: string, fails: bool) returns (c: Option<nat>)
      requires caller !in waiting
      modifies this
      ensures View() == Connect(LookUp(old(View()), caller, target), caller, fails)
      ensures target in old(conns) ==> conns == old(conns) && c == Some(conns[target])
      ensures target !in old(conns) && fails ==> conns == old(conns) && c == None
      ensures target !in old(conns) && !fails ==> conns == old(conns)[target := old(next)] && c == Some(old(next))
      ensures closed == old(closed)
    {
      c := ReadLocked(caller, target);
      if c.None? {
        c := WriteLocked(caller, target, fails);
      }
    }

    method CloseAll()
      modifies this`conns, this`closed
      ensures View() == Close(old(View()))
      ensures conns == map[] && closed == old(closed) + old(conns).Values
    {
      var targets := conns.Keys;
      ghost var done: set<string> := {};
      while targets != {}
        invariant done + targets == conns.Keys && conns == old(conns)
        invariant closed == old(closed) + ConnsOf(conns, done)
        decreases |targets|
      {
        var t :| t in targets;
        assert ConnsOf(conns, done + {t}) == ConnsOf(conns, done) + {conns[t]};
        closed := closed + {conns[t]};
        targets := targets - {t};
        done := done + {t};
      }
      assert ConnsOf(conns, done) == conns.Values;
      conns := map[];
    }
  }
}
