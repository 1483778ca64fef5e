/**
 The catalog's reserve / execute / persist / release protocol. The business write and the
 completion of the claim are two separate database writes, so the guarantee depends on
 `persist` not failing after `execute` has succeeded; the exact accounting is proved here.
 */
module CatalogIdempotency {
  import opened Common
  import opened CommandIdempotency

  /** A claim row. `outcome` is null until persisted. `owner` and `executed` record, for the
      proof only, which request inserted the row and whether its write went through. */
  datatype Row = Row(id: nat, payload: string, outcome: Option<Response>, owner: nat, executed: bool)

  datatype Execution = Execution(scope: Scope, payload: string, response: Response, request: nat)

  datatype Stage =
    | Starting
    | Colliding
    | Reserved(id: nat)
    | Executed(id: nat, response: Response)
    | Failing(id: nat)
    | Done(answer: Answer)

  datatype Call = Call(scope: Scope, payload: string, at: Stage)

  datatype Store = Store(rows: map<Scope, Row>, nextId: nat, calls: map<nat, Call>, executions: seq<Execution>,
                         forgotten: seq<Scope>)

  const EMPTY_STORE := Store(map[], 0, map[], [], [])

  datatype Event =
    | Begin(r: nat, scope: Scope, payload: string)
    | Reserve(r: nat)
    | FindExisting(r: nat)
    | Execute(r: nat, response: Response)
    | ExecuteFails(r: nat)
    | Persist(r: nat)
    | PersistFails(r: nat)
    | ReleaseClaim(r: nat)
    | ReleaseClaimFails(r: nat)
    | Die(r: nat)

  predicate Possible(s: Store, e: Event) {
    match e
    case Begin(r, _, _) => r !in s.calls
    case Reserve(r) => r in s.calls && s.calls[r].at == Starting
    case FindExisting(r) => r in s.calls && s.calls[r].at == Colliding
    case Execute(r, _) => r in s.calls && s.calls[r].at.Reserved?
    case ExecuteFails(r) => r in s.calls && s.calls[r].at.Reserved?
    case Persist(r) => r in s.calls && s.calls[r].at.Executed?
    case PersistFails(r) => r in s.calls && s.calls[r].at.Executed?
    case ReleaseClaim(r) => r in s.calls && s.calls[r].at.Failing?
    case ReleaseClaimFails(r) => r in s.calls && s.calls[r].at.Failing?
    case Die(r) => r in s.calls
  }

  function Put(s: Store, r: nat, at: Stage): Store
    requires r in s.calls
  {
    s.(calls := s.calls[r := s.calls[r].(at := at)])
  }

  /** What a colliding caller is answered from the row it finds, if any. */
  function ExistingAnswer(row: Option<Row>, payload: string): Answer {
    if row.None? || row.value.payload != payload then KeyConflict
    else if row.value.outcome.None? || row.value.outcome.value.body.None? then KeyConflict
    else Replayed(row.value.outcome.value)
  }

  predicate Own(s: Store, r: nat, id: nat)
    requires r in s.calls
  {
    s.calls[r].scope in s.rows && s.rows[s.calls[r].scope].id == id
  }

  function After(s: Store, e: Event): Store
    requires Possible(s, e)
  {
    match e
    case Begin(r, scope, payload) =>
      s.(calls := s.calls[r := Call(scope, payload, if ValidKey(scope.key) then Starting else Done(BadKey))])
    case Reserve(r) =>
      var c := s.calls[r];
      if c.scope in s.rows then Put(s, r, Colliding)
      else Put(s.(rows := s.rows[c.scope := Row(s.nextId, c.payload, None, r, false)], nextId := s.nextId + 1), r, Reserved(s.nextId))
    case FindExisting(r) =>
      var c := s.calls[r];
      Put(s, r, Done(ExistingAnswer(if c.scope in s.rows then Some(s.rows[c.scope]) else None, c.payload)))
    case Execute(r, response) =>
      // the business write commits on its own; the claim row is not part of it
      var c := s.calls[r];
      var t := s.(executions := s.executions + [Execution(c.scope, c.payload, response, r)]);
      var u := if Own(s, r, c.at.id) then t.(rows := t.rows[c.scope := t.rows[c.scope].(executed := true)]) else t;
      Put(u, r, Executed(c.at.id, response))
    case ExecuteFails(r) => Put(s, r, Failing(s.calls[r].at.id))
    case Persist(r) =>
      var c := s.calls[r];
      if Own(s, r, c.at.id) then
        Put(s.(rows := s.rows[c.scope := s.rows[c.scope].(outcome := Some(c.at.response))]), r, Done(Fresh(c.at.response)))
      else Put(s, r, Failing(c.at.id))
    case PersistFails(r) => Put(s, r, Failing(s.calls[r].at.id))
    case ReleaseClaim(r) =>
      var c := s.calls[r];
      if Own(s, r, c.at.id) then
        var t := s.(rows := s.rows - {c.scope},
                    forgotten := if s.rows[c.scope].executed then s.forgotten + [c.scope] else s.forgotten);
        Put(t, r, Done(Raised))
      else Put(s, r, Done(Raised))
    case ReleaseClaimFails(r) => Put(s, r, Done(Raised))
    case Die(r) => s.(calls := s.calls - {r})
  }

  function Tick(s: Store, e: Event): Store {
    if Possible(s, e) then After(s, e) else s
  }

  function Play(s: Store, events: seq<Event>): Store
    decreases |events|
  {
    if events == [] then s else Play(Tick(s, events[0]), events[1..])
  }

  // ---- accounting ----

  function Executions(executions: seq<Execution>, scope: Scope): nat {
    if executions == [] then 0
    else
      var last := |executions| - 1;
      Executions(executions[..last], scope) + if executions[last].scope == scope then 1 else 0
  }

  function Forgotten(forgotten: seq<Scope>, scope: Scope): nat {
    if forgotten == [] then 0
    else
      var last := |forgotten| - 1;
      Forgotten(forgotten[..last], scope) + if forgotten[last] == scope then 1 else 0
  }

  /** A call between reservation and answer owns its unpersisted row. */
  ghost predicate HoldsRow(s: Store, r: nat)
    requires r in s.calls
  {
    var c := s.calls[r];
    && (c.at.Reserved? ==> c.scope in s.rows && s.rows[c.scope] == Row(c.at.id, c.payload, None, r, false))
    && (c.at.Executed? ==> c.scope in s.rows && s.rows[c.scope] == Row(c.at.id, c.payload, None, r, true))
    && (c.at.Failing? ==> && c.scope in s.rows && s.rows[c.scope].id == c.at.id && s.rows[c.scope].owner == r
                          && s.rows[c.scope].outcome.None? && s.rows[c.scope].payload == c.payload)
  }

  /** Every execution under a scope is its current row's or was forgotten with a released row. */
  ghost predicate Balanced(s: Store) {
    forall scope :: Executions(s.executions, scope)
      == Forgotten(s.forgotten, scope) + if scope in s.rows && s.rows[scope].executed then 1 else 0
  }

  ghost predicate StoreInv(s: Store) {
    && (forall scope :: scope in s.rows ==> s.rows[scope].id < s.nextId)
    && (forall scope :: scope in s.rows && s.rows[scope].outcome.Some? ==> s.rows[scope].executed)
    && (forall r :: r in s.calls ==> HoldsRow(s, r))
    && Balanced(s)
  }

  lemma ExecutionsAppend(executions: seq<Execution>, x: Execution, scope: Scope)
    ensures Executions(executions + [x], scope) == Executions(executions, scope) + if x.scope == scope then 1 else 0
  {
    assert (executions + [x])[..|executions|] == executions;
  }

  lemma ForgottenAppend(forgotten: seq<Scope>, x: Scope, scope: Scope)
    ensures Forgotten(forgotten + [x], scope) == Forgotten(forgotten, scope) + if x == scope then 1 else 0
  {
    assert (forgotten + [x])[..|forgotten|] == forgotten;
  }

  lemma ExecuteBalances(s: Store, r: nat, response: Response)
    requires Balanced(s) && Possible(s, Execute(r, response)) && HoldsRow(s, r)
    ensures Balanced(After(s, Execute(r, response)))
  {
    var t := After(s, Execute(r, response));
    var c := s.calls[r];
    forall scope ensures Executions(t.executions, scope)
      == Forgotten(t.forgotten, scope) + if scope in t.rows && t.rows[scope].executed then 1 else 0
    {
      ExecutionsAppend(s.executions, Execution(c.scope, c.payload, response, r), scope);
    }
  }

  lemma ExecuteHolds(s: Store, r: nat, response: Response, x: nat)
    requires Possible(s, Execute(r, response)) && HoldsRow(s, r) && x in s.calls && HoldsRow(s, x)
    ensures HoldsRow(After(s, Execute(r, response)), x)
  {
  }

  lemma ExecuteKeeps(s: Store, r: nat, response: Response)
    requires StoreInv(s) && Possible(s, Execute(r, response))
    ensures StoreInv(After(s, Execute(r, response)))
  {
    hide Balanced;
    var t := After(s, Execute(r, response));
    ExecuteBalances(s, r, response);
    forall x | x in t.calls ensures HoldsRow(t, x) {
      ExecuteHolds(s, r, response, x);
    }
  }

  lemma ReleaseClaimKeeps(s: Store, r: nat)
    requires StoreInv(s) && Possible(s, ReleaseClaim(r))
    ensures StoreInv(After(s, ReleaseClaim(r)))
  {
    var t := After(s, ReleaseClaim(r));
    var c := s.calls[r];
    assert HoldsRow(s, r);
    forall scope ensures Executions(t.executions, scope)
      == Forgotten(t.forgotten, scope) + if scope in t.rows && t.rows[scope].executed then 1 else 0
    {
      ForgottenAppend(s.forgotten, c.scope, scope);
    }
    forall x | x in t.calls ensures HoldsRow(t, x) {
      assert HoldsRow(s, x);
    }
  }

  lemma OtherHolds(s: Store, e: Event, x: nat)
    requires StoreInv(s) && Possible(s, e) && !e.Execute? && !e.ReleaseClaim? && x in After(s, e).calls
    ensures HoldsRow(After(s, e), x)
  {
    hide Balanced;
    assert x in s.calls ==> HoldsRow(s, x);
    if e.Persist? {
      assert HoldsRow(s, e.r);
    }
  }

  /** No other event changes which scopes stand executed, or either log. */
  lemma OtherBalances(s: Store, e: Event)
    requires StoreInv(s) && Possible(s, e) && !e.Execute? && !e.ReleaseClaim?
    ensures Balanced(After(s, e))
  {
    var t := After(s, e);
    if e.Persist? {
      assert HoldsRow(s, e.r);
    }
    forall scope ensures (scope in t.rows && t.rows[scope].executed) <==> (scope in s.rows && s.rows[scope].executed) {
    }
  }

  lemma OtherKeeps(s: Store, e: Event)
    requires StoreInv(s) && Possible(s, e) && !e.Execute? && !e.ReleaseClaim?
    ensures StoreInv(After(s, e))
  {
    hide Balanced;
    var t := After(s, e);
    forall x | x in t.calls ensures HoldsRow(t, x) {
      OtherHolds(s, e, x);
    }
    OtherBalances(s, e);
    if e.Persist? {
      assert HoldsRow(s, e.r);
    }
  }

  lemma TickKeeps(s: Store, e: Event)
    requires StoreInv(s)
    ensures StoreInv(Tick(s, e))
  {
    if Possible(s, e) {
      match e
      case Execute(r, response) => ExecuteKeeps(s, r, response);
      case ReleaseClaim(r) => ReleaseClaimKeeps(s, r);
      case _ => OtherKeeps(s, e);
    }
  }

  lemma {:induction false} PlayKeeps(s: Store, events: seq<Event>)
    requires StoreInv(s)
    ensures StoreInv(Play(s, events))
    decreases |events|
  {
    if events != [] {
      TickKeeps(s, events[0]);
      PlayKeeps(Tick(s, events[0]), events[1..]);
    }
  }

  /** Exact accounting, under any interleaving and crashes: the executions of a scope are its
      forgotten ones plus the one its current row stands for. */
  lemma ExecutionsAccounted(events: seq<Event>, scope: Scope)
    ensures var s := Play(EMPTY_STORE, events);
            Executions(s.executions, scope)
            == Forgotten(s.forgotten, scope) + if scope in s.rows && s.rows[scope].executed then 1 else 0
  {
    PlayKeeps(EMPTY_STORE, events);
  }

  // ---- when nothing is forgotten ----

  ghost predicate NoPersistFailure(events: seq<Event>) {
    forall i :: 0 <= i < |events| ==> !events[i].PersistFails?
  }

  /** While no persist has failed, only failed executions are being undone. */
  ghost predicate NothingLost(s: Store) {
    && s.forgotten == []
    && forall r :: r in s.calls && s.calls[r].at.Failing? && s.calls[r].scope in s.rows ==> !s.rows[s.calls[r].scope].executed
  }

  lemma TickLosesNothing(s: Store, e: Event)
    requires StoreInv(s) && NothingLost(s) && !e.PersistFails?
    ensures NothingLost(Tick(s, e))
  {
    if Possible(s, e) {
      var t := After(s, e);
      if !e.Begin? && !e.Die? {
        assert HoldsRow(s, e.r);
      }
      forall r | r in t.calls && t.calls[r].at.Failing? && t.calls[r].scope in t.rows
        ensures !t.rows[t.calls[r].scope].executed
      {
        assert r in s.calls ==> HoldsRow(s, r);
      }
    }
  }

  lemma {:induction false} PlayLosesNothing(s: Store, events: seq<Event>)
    requires StoreInv(s) && NothingLost(s) && NoPersistFailure(events)
    ensures NothingLost(Play(s, events))
    decreases |events|
  {
    if events != [] {
      TickLosesNothing(s, events[0]);
      TickKeeps(s, events[0]);
      PlayLosesNothing(Tick(s, events[0]), events[1..]);
    }
  }

  /** At most once, provided no persist fails: crashes, failed executions and failed releases
      included. */
  lemma AtMostOnceWithoutPersistFailure(events: seq<Event>, scope: Scope)
    requires NoPersistFailure(events)
    ensures Executions(Play(EMPTY_STORE, events).executions, scope) <= 1
  {
    PlayLosesNothing(EMPTY_STORE, events);
    ExecutionsAccounted(events, scope);
  }

  lemma {:induction false} PlayAppend(s: Store, a: seq<Event>, b: seq<Event>)
    ensures Play(s, a + b) == Play(Play(s, a), b)
    decreases |a|
  {
    if a == [] {
      assert a + b == b;
    } else {
      assert (a + b)[1..] == a[1..] + b;
      PlayAppend(Tick(s, a[0]), a[1..], b);
    }
  }

  lemma PlayThree(s: Store, a: Event, b: Event, c: Event)
    ensures Play(s, [a, b, c]) == Tick(Tick(Tick(s, a), b), c)
  {
    assert [a, b, c][1..] == [b, c] && [b, c][1..] == [c] && [c][1..] == [];
    assert Play(Tick(s, a), [b, c]) == Play(Tick(Tick(s, a), b), [c]);
    assert Play(Tick(Tick(s, a), b), [c]) == Play(Tick(Tick(Tick(s, a), b), c), []);
  }

  /** With an execution forgotten and the scope free, the next request executes the business
      write again. */
  lemma ForgottenExecutesAgain(events: seq<Event>, scope: Scope, payload: string, response: Response, r: nat)
    requires ValidKey(scope.key) && r !in Play(EMPTY_STORE, events).calls
    requires Forgotten(Play(EMPTY_STORE, events).forgotten, scope) >= 1 && scope !in Play(EMPTY_STORE, events).rows
    ensures var retry := [Begin(r, scope, payload), Reserve(r), Execute(r, response)];
            Executions(Play(EMPTY_STORE, events + retry).executions, scope) >= 2
  {
    var s := Play(EMPTY_STORE, events);
    var retry := [Begin(r, scope, payload), Reserve(r), Execute(r, response)];
    PlayAppend(EMPTY_STORE, events, retry);
    PlayThree(s, retry[0], retry[1], retry[2]);
    ExecutionsAccounted(events, scope);
    ExecutionsAppend(s.executions, Execution(scope, payload, response, r), scope);
  }

  /** The scope is free, or a live call can execute under its claim or is releasing it. */
  ghost predicate Open(s: Store, scope: Scope) {
    scope !in s.rows || exists r :: r in s.calls && MayFree(s.calls[r], scope)
  }

  predicate MayFree(call: Call, scope: Scope) {
    call.scope == scope && (call.at.Reserved? || call.at.Failing?)
  }

  /** Whether a scope can still be executed twice if no further persist fails. */
  ghost predicate CanRepeat(s: Store, scope: Scope) {
    var n := Executions(s.executions, scope);
    n >= 2 || (n == 1 && Open(s, scope))
  }

  lemma FreshCall(s: Store) returns (r: nat)
    ensures r !in s.calls
  {
    r := Above(s.calls.Keys);
  }

  lemma {:induction false} Above(ids: set<nat>) returns (r: nat)
    ensures forall x :: x in ids ==> x < r
    decreases ids
  {
    if ids == {} {
      r := 0;
    } else {
      var x :| x in ids;
      var other := Above(ids - {x});
      assert forall y :: y in ids ==> y == x || y in ids - {x};
      r := if x < other then other else x + 1;
    }
  }

  /** What cannot repeat cannot come to by any event but a persist failure. */
  lemma TickCannotRepeat(s: Store, e: Event, scope: Scope)
    requires StoreInv(s) && !CanRepeat(s, scope) && !e.PersistFails?
    ensures !CanRepeat(Tick(s, e), scope)
  {
    hide Executions, Balanced, Forgotten;
    if Possible(s, e) {
      var t := After(s, e);
      if !e.Begin? && !e.Die? {
        assert HoldsRow(s, e.r);
      }
      if e.Execute? {
        ExecutionsAppend(s.executions, Execution(s.calls[e.r].scope, s.calls[e.r].payload, e.response, e.r), scope);
      } else {
        assert t.executions == s.executions;
      }
      if Executions(t.executions, scope) == 1 {
        forall r | r in t.calls ensures !MayFree(t.calls[r], scope) {
          assert r in s.calls ==> HoldsRow(s, r);
        }
      }
    }
  }

  lemma {:induction false} PlayCannotRepeat(s: Store, events: seq<Event>, scope: Scope)
    requires StoreInv(s) && !CanRepeat(s, scope) && NoPersistFailure(events)
    ensures !CanRepeat(Play(s, events), scope)
    decreases |events|
  {
    hide CanRepeat, StoreInv, Tick;
    if events != [] {
      TickCannotRepeat(s, events[0], scope);
      TickKeeps(s, events[0]);
      PlayCannotRepeat(Tick(s, events[0]), events[1..], scope);
    }
  }

  lemma HistoryKeeps(events: seq<Event>)
    ensures StoreInv(Play(EMPTY_STORE, events))
  {
    PlayKeeps(EMPTY_STORE, events);
  }

  ghost predicate RepeatsBy(events: seq<Event>, more: seq<Event>, scope: Scope) {
    NoPersistFailure(more) && Executions(Play(EMPTY_STORE, events + more).executions, scope) >= 2
  }

  /** Executing once more, from a scope that is free with one execution forgotten. */
  lemma RetryRepeats(events: seq<Event>, scope: Scope) returns (more: seq<Event>)
    requires ValidKey(scope.key) && scope !in Play(EMPTY_STORE, events).rows
    requires Executions(Play(EMPTY_STORE, events).executions, scope) >= 1
    ensures RepeatsBy(events, more, scope)
  {
    hide Executions;
    var r := FreshCall(Play(EMPTY_STORE, events));
    ExecutionsAccounted(events, scope);
    var response := Response(200, None, map[]);
    more := [Begin(r, scope, ""), Reserve(r), Execute(r, response)];
    ForgottenExecutesAgain(events, scope, "", response, r);
  }

  lemma OpenRepeats(events: seq<Event>, scope: Scope) returns (more: seq<Event>)
    requires ValidKey(scope.key) && CanRepeat(Play(EMPTY_STORE, events), scope)
    ensures RepeatsBy(events, more, scope)
  {
    hide Executions;
    var s := Play(EMPTY_STORE, events);
    HistoryKeeps(events);
    if Executions(s.executions, scope) >= 2 {
      more := [];
      assert events + [] == events;
    } else if scope !in s.rows {
      more := RetryRepeats(events, scope);
    } else {
      var r :| r in s.calls && MayFree(s.calls[r], scope);
      assert HoldsRow(s, r);
      var e := if s.calls[r].at.Reserved? then Execute(r, Response(200, None, map[])) else ReleaseClaim(r);
      PlayAppend(EMPTY_STORE, events, [e]);
      assert [e][1..] == [];
      assert Play(EMPTY_STORE, events + [e]) == Tick(s, e);
      if e.Execute? {
        ExecutionsAppend(s.executions, Execution(scope, s.calls[r].payload, e.response, r), scope);
        more := [e];
      } else {
        var rest := RetryRepeats(events + [e], scope);
        more := [e] + rest;
        assert events + more == (events + [e]) + rest;
      }
    }
  }

  /**
   The proviso is exact. After any history a scope can be executed twice without a further persist
   failure if and only if it has been, or it has been executed once and the scope is free, or a
   live call can execute under its claim or is releasing it.
   */
  lemma RepeatsExactly(events: seq<Event>, scope: Scope)
    requires ValidKey(scope.key)
    ensures (exists more :: RepeatsBy(events, more, scope)) <==> CanRepeat(Play(EMPTY_STORE, events), scope)
  {
    hide Play, ValidKey;
    if CanRepeat(Play(EMPTY_STORE, events), scope) {
      var more := OpenRepeats(events, scope);
    } else {
      forall more ensures !RepeatsBy(events, more, scope) {
        if NoPersistFailure(more) {
          HistoryKeeps(events);
          PlayAppend(EMPTY_STORE, events, more);
          PlayCannotRepeat(Play(EMPTY_STORE, events), more, scope);
        }
      }
    }
  }

  lemma PersistFailureRow(s: Store, r: nat, scope: Scope, payload: string, response: Response)
    requires r !in s.calls && scope !in s.rows && ValidKey(scope.key)
    ensures var t := Tick(Tick(Tick(s, Begin(r, scope, payload)), Reserve(r)), Execute(r, response));
            && t.calls == s.calls[r := Call(scope, payload, Executed(s.nextId, response))]
            && t.rows == s.rows[scope := Row(s.nextId, payload, None, r, true)] && t.forgotten == s.forgotten
  {
  }

  lemma ForgetSteps(t: Store, scope: Scope, payload: string, response: Response)
    requires t.calls == map[0 := Call(scope, payload, Executed(0, response))]
    requires t.rows == map[scope := Row(0, payload, None, 0, true)] && t.forgotten == []
    ensures var u := Tick(Tick(Tick(t, PersistFails(0)), ReleaseClaim(0)), Die(0));
            u.forgotten == [scope] && u.rows == map[] && u.calls == map[]
  {
    var a := Tick(t, PersistFails(0));
    assert a.calls == map[0 := Call(scope, payload, Failing(0))] && a.rows == t.rows;
    var b := Tick(a, ReleaseClaim(0));
    assert b.rows == map[] && b.forgotten == [scope] && b.calls.Keys == {0};
  }

  /** And such a history exists for every scope: execute, fail to persist, release. */
  lemma PersistFailureForgets(scope: Scope, payload: string, response: Response)
    requires ValidKey(scope.key)
    ensures var s := Play(EMPTY_STORE, [Begin(0, scope, payload), Reserve(0), Execute(0, response)]
                                       + [PersistFails(0), ReleaseClaim(0), Die(0)]);
            Forgotten(s.forgotten, scope) == 1 && scope !in s.rows && s.calls == map[]
  {
    hide Tick;
    var a := [Begin(0, scope, payload), Reserve(0), Execute(0, response)];
    var b := [PersistFails(0), ReleaseClaim(0), Die(0)];
    PlayAppend(EMPTY_STORE, a, b);
    PlayThree(EMPTY_STORE, a[0], a[1], a[2]);
    PersistFailureRow(EMPTY_STORE, 0, scope, payload, response);
    var t := Play(EMPTY_STORE, a);
    PlayThree(t, b[0], b[1], b[2]);
    ForgetSteps(t, scope, payload, response);
    ForgottenAppend([], scope, scope);
  }

  // ---- replies ----

  /** A reply replayed to a caller was persisted by the request that executed it for the same
      payload, and no request deletes another's claim. */
  lemma OnlyOwnRowsReleased(events: seq<Event>, e: Event, scope: Scope)
    requires var s := Play(EMPTY_STORE, events); scope in s.rows && scope !in Tick(s, e).rows
    ensures var s := Play(EMPTY_STORE, events);
            e.ReleaseClaim? && e.r == s.rows[scope].owner && s.rows[scope].outcome.None?
  {
    PlayKeeps(EMPTY_STORE, events);
    assert HoldsRow(Play(EMPTY_STORE, events), e.r);
  }

  ghost predicate Recorded(executions: seq<Execution>, scope: Scope, payload: string, response: Response) {
    exists i :: 0 <= i < |executions| && executions[i].scope == scope && executions[i].payload == payload
      && executions[i].response == response
  }

  ghost predicate RepliesRecorded(s: Store) {
    && (forall scope :: scope in s.rows && s.rows[scope].outcome.Some? ==>
          Recorded(s.executions, scope, s.rows[scope].payload, s.rows[scope].outcome.value))
    && (forall r :: r in s.calls && s.calls[r].at.Executed? ==>
          Recorded(s.executions, s.calls[r].scope, s.calls[r].payload, s.calls[r].at.response))
    && (forall r :: r in s.calls && s.calls[r].at.Done? && s.calls[r].at.answer.Replayed? ==>
          Recorded(s.executions, s.calls[r].scope, s.calls[r].payload, s.calls[r].at.answer.response))
  }

  lemma RecordedExtends(executions: seq<Execution>, x: Execution, scope: Scope, payload: string, response: Response)
    requires Recorded(executions, scope, payload, response)
    ensures Recorded(executions + [x], scope, payload, response)
  {
    var i :| 0 <= i < |executions| && executions[i].scope == scope && executions[i].payload == payload
             && executions[i].response == response;
    assert (executions + [x])[i] == executions[i];
  }

  lemma ExecuteRecords(s: Store, r: nat, response: Response)
    requires StoreInv(s) && RepliesRecorded(s) && Possible(s, Execute(r, response))
    ensures RepliesRecorded(After(s, Execute(r, response)))
  {
    var t := After(s, Execute(r, response));
    var c := s.calls[r];
    assert HoldsRow(s, r);
    var x := Execution(c.scope, c.payload, response, r);
    assert t.executions == s.executions + [x] && t.executions[|s.executions|] == x;
    forall scope | scope in t.rows && t.rows[scope].outcome.Some?
      ensures Recorded(t.executions, scope, t.rows[scope].payload, t.rows[scope].outcome.value)
    {
      RecordedExtends(s.executions, x, scope, s.rows[scope].payload, s.rows[scope].outcome.value);
    }
    forall q | q in t.calls && t.calls[q].at.Executed?
      ensures Recorded(t.executions, t.calls[q].scope, t.calls[q].payload, t.calls[q].at.response)
    {
      if q != r {
        RecordedExtends(s.executions, x, s.calls[q].scope, s.calls[q].payload, s.calls[q].at.response);
      }
    }
    forall q | q in t.calls && t.calls[q].at.Done? && t.calls[q].at.answer.Replayed?
      ensures Recorded(t.executions, t.calls[q].scope, t.calls[q].payload, t.calls[q].at.answer.response)
    {
      RecordedExtends(s.executions, x, s.calls[q].scope, s.calls[q].payload, s.calls[q].at.answer.response);
    }
  }

  lemma OtherRecords(s: Store, e: Event)
    requires StoreInv(s) && RepliesRecorded(s) && Possible(s, e) && !e.Execute?
    ensures RepliesRecorded(After(s, e))
  {
    if !e.Begin? {
      assert HoldsRow(s, e.r);
    }
  }

  lemma {:induction false} PlayRecords(s: Store, events: seq<Event>)
    requires StoreInv(s) && RepliesRecorded(s)
    ensures RepliesRecorded(Play(s, events))
    decreases |events|
  {
    if events != [] {
      TickKeeps(s, events[0]);
      if Possible(s, events[0]) {
        if events[0].Execute? {
          ExecuteRecords(s, events[0].r, events[0].response);
        } else {
          OtherRecords(s, events[0]);
        }
      }
      PlayRecords(Tick(s, events[0]), events[1..]);
    }
  }

  /** A replayed answer is exactly the response of an execution of the same scope and payload. */
  lemma ReplayIsAnExecution(events: seq<Event>, r: nat)
    requires var s := Play(EMPTY_STORE, events);
             r in s.calls && s.calls[r].at.Done? && s.calls[r].at.answer.Replayed?
    ensures var s := Play(EMPTY_STORE, events);
            Recorded(s.executions, s.calls[r].scope, s.calls[r].payload, s.calls[r].at.answer.response)
  {
    PlayRecords(EMPTY_STORE, events);
  }

  /** A colliding call replays the stored response for the same payload once it has a body; it is a
      conflict for any other payload, while the row is pending, and when the row has gone. */
  lemma CollisionAnswer(s: Store, r: nat)
    requires Possible(s, FindExisting(r))
    ensures var c, t := s.calls[r], After(s, FindExisting(r));
            && t == s.(calls := s.calls[r := c.(at := t.calls[r].at)])
            && t.calls[r].at
               == if c.scope !in s.rows then Done(KeyConflict)
                  else match s.rows[c.scope]
                       case Row(_, payload, Some(response), _, _) =>
                         Done(if payload == c.payload && response.body.Some? then Replayed(response) else KeyConflict)
                       case _ => Done(KeyConflict)
  {
  }

  /** In any history, a call is refused as malformed exactly when its key is blank or longer than 255
      characters. */
  lemma {:induction false} MalformedCallsExactly(s: Store, events: seq<Event>, r: nat)
    requires forall k :: k in s.calls ==> RefusedCall(s.calls[k])
    ensures r in Play(s, events).calls ==> RefusedCall(Play(s, events).calls[r])
    decreases |events|
  {
    hide RefusedCall;
    if events != [] {
      forall k | k in Tick(s, events[0]).calls ensures RefusedCall(Tick(s, events[0]).calls[k]) {
        RefusedTick(s, events[0], k);
      }
      MalformedCallsExactly(Tick(s, events[0]), events[1..], r);
    }
  }

  ghost predicate RefusedCall(c: Call) {
    c.at == Done(BadKey) <==> BlankKey(c.scope.key) || |c.scope.key| > 255
  }

  lemma RefusedTick(s: Store, e: Event, k: nat)
    requires forall k :: k in s.calls ==> RefusedCall(s.calls[k])
    ensures k in Tick(s, e).calls ==> RefusedCall(Tick(s, e).calls[k])
  {
    hide BlankKey, ValidKey;
    if e.Begin? {
      KeysExactly(e.scope.key);
    }
    assert k in s.calls ==> RefusedCall(s.calls[k]);
  }

  // ---- the store as a class ----

  datatype Reservation = Granted(id: nat) | Existing(response: Response) | PendingClaim | Clash

  class PrismaCatalogIdempotencyStore {
    var rows: map<Scope, Row>
    var nextId: nat

    constructor ()
      ensures rows == map[] && nextId == 0
    {
      rows, nextId := map[], 0;
    }

    /** Inserts a claim, or reports what stands in its way. */
    method Reserve(scope: Scope, payload: string, owner: nat) returns (reservation: Reservation)
      modifies this
      ensures scope !in old(rows) ==>
                && reservation == Granted(old(nextId)) && nextId == old(nextId) + 1
                && rows == old(rows)[scope := Row(old(nextId), payload, None, owner, false)]
      ensures scope in old(rows) ==>
                && rows == old(rows) && nextId == old(nextId)
                && (reservation == Clash <==> old(rows)[scope].payload != payload)
                && (match ExistingAnswer(Some(old(rows)[scope]), payload)
                    case Replayed(response) => reservation == Existing(response)
                    case _ => reservation == Clash || reservation == PendingClaim)
    {
      if scope !in rows {
        rows := rows[scope := Row(nextId, payload, None, owner, false)];
        nextId := nextId + 1;
        return Granted(nextId - 1);
      }
      var existing := rows[scope];
      if existing.payload != payload { return Clash; }
      if existing.outcome.None? || existing.outcome.value.body.None? { return PendingClaim; }
      return Existing(existing.outcome.value);
    }

    /** Completes the row with this id; throws when there is none. */
    method Persist(scope: Scope, id: nat, response: Response) returns (ok: bool)
      modifies this
      ensures nextId == old(nextId)
      ensures ok <==> scope in old(rows) && old(rows)[scope].id == id
      ensures rows == if ok then old(rows)[scope := old(rows)[scope].(outcome := Some(response), executed := true)] else old(rows)
    {
      ok := scope in rows && rows[scope].id == id;
      if ok {
        rows := rows[scope := rows[scope].(outcome := Some(response), executed := true)];
      }
    }

    /** Deletes the row with this id; throws when there is none. */
    method Release(scope: Scope, id: nat) returns (ok: bool)
      modifies this
      ensures nextId == old(nextId)
      ensures ok <==> scope in old(rows) && old(rows)[scope].id == id
      ensures rows == if ok then old(rows) - {scope} else old(rows)
    {
      ok := scope in rows && rows[scope].id == id;
      if ok {
        rows := rows - {scope};
      }
    }

    /** One request, run alone with a persist that does not fail: a fresh scope executes once
        and can be replayed, a failed execution leaves no trace, and an occupied scope never
        executes. */
    method ExecuteIdempotently(scope: Scope, payload: string, owner: nat, work: Option<Response>)
      returns (answer: Answer, executed: bool)
      modifies this
      ensures executed <==> ValidKey(scope.key) && scope !in old(rows) && work.Some?
      ensures executed ==> answer == Fresh(work.value)
      ensures executed ==> rows == old(rows)[scope := Row(old(nextId), payload, work, owner, true)]
      ensures executed ==> ExistingAnswer(Some(rows[scope]), payload) == if work.value.body.Some? then Replayed(work.value) else KeyConflict
      ensures !executed ==> rows == old(rows)
      ensures ValidKey(scope.key) && scope in old(rows) ==> answer == ExistingAnswer(Some(old(rows)[scope]), payload)
    {
      executed := false;
      if !ValidKey(scope.key) { return BadKey, false; }
      var reservation := Reserve(scope, payload, owner);
      match reservation
      case Clash => answer := KeyConflict;
      case PendingClaim => answer := KeyConflict;
      case Existing(response) => answer := Replayed(response);
      case Granted(id) =>
        if work.Some? {
          var ok := Persist(scope, id, work.value);
          assert rows == old(rows)[scope := Row(old(nextId), payload, work, owner, true)];
          answer, executed := Fresh(work.value), true;
        } else {
          var ok := Release(scope, id);
          assert rows == old(rows);
          answer := Raised;
        }
    }
  }
}
