/**
 The claim / commit / release protocol around every command, as many concurrent requests
 run it. One transition per database round trip; requests interleave freely and may crash
 between any two of them. A transaction is atomic, and one that throws did not commit.
 Request bodies stand for their hashes.
 */
module CommandIdempotency {
  import opened Common
  import opened Text

  datatype Scope = Scope(subject: string, operation: string, key: string)

  /** A null body cannot be told apart from a missing one when it is read back. */
  datatype Response = Response(status: nat, body: Option<string>, headers: map<string, string>)

  /** The claim row; `outcome` is null while the row is PENDING. `owner` records, for the
      proof only, which request inserted the row. */
  datatype Claim = Claim(id: nat, payload: string, outcome: Option<Response>, owner: nat)

  /** A committed work transaction. */
  datatype Commit = Commit(scope: Scope, payload: string, response: Response, request: nat)

  datatype Answer = BadKey | KeyConflict | Replayed(response: Response) | Fresh(response: Response) | Raised

  datatype Progress = Arrived | Missed | Holding(id: nat) | Undoing(id: nat) | Answered(answer: Answer)

  datatype Request = Request(scope: Scope, payload: string, at: Progress)

  datatype State = State(claims: map<Scope, Claim>, nextId: nat, requests: map<nat, Request>, commits: seq<Commit>)

  const START := State(map[], 0, map[], [])

  predicate ValidKey(key: string) {
    Trim(key) != "" && |key| <= 255
  }

  datatype Action =
    | Arrive(r: nat, scope: Scope, payload: string)
    | Lookup(r: nat)
    | Insert(r: nat)
    | InsertFails(r: nat)
    | Work(r: nat, response: Response)
    | WorkThrows(r: nat)
    | Release(r: nat)
    | ReleaseFails(r: nat)
    | Crash(r: nat)

  function Moved(s: State, r: nat, at: Progress): State
    requires r in s.requests
  {
    s.(requests := s.requests[r := s.requests[r].(at := at)])
  }

  /** The answer a request gets from a row it finds. */
  function ReplayAnswer(claim: Claim, payload: string): Answer {
    if claim.payload != payload then KeyConflict
    else if claim.outcome.None? || claim.outcome.value.body.None? then KeyConflict
    else Replayed(claim.outcome.value)
  }

  predicate Enabled(s: State, a: Action) {
    match a
    case Arrive(r, _, _) => r !in s.requests
    case Lookup(r) => r in s.requests && s.requests[r].at == Arrived
    case Insert(r) => r in s.requests && s.requests[r].at == Missed
    case InsertFails(r) => r in s.requests && s.requests[r].at == Missed
    case Work(r, _) => r in s.requests && s.requests[r].at.Holding?
    case WorkThrows(r) => r in s.requests && s.requests[r].at.Holding?
    case Release(r) => r in s.requests && s.requests[r].at.Undoing?
    case ReleaseFails(r) => r in s.requests && s.requests[r].at.Undoing?
    case Crash(r) => r in s.requests
  }

  /** A request's own row, when it is still there. */
  predicate OwnRow(s: State, r: nat, id: nat)
    requires r in s.requests
  {
    s.requests[r].scope in s.claims && s.claims[s.requests[r].scope].id == id
  }

  function Next(s: State, a: Action): State
    requires Enabled(s, a)
  {
    match a
    case Arrive(r, scope, payload) =>
      s.(requests := s.requests[r := Request(scope, payload, if ValidKey(scope.key) then Arrived else Answered(BadKey))])
    case Lookup(r) =>
      var q := s.requests[r];
      if q.scope in s.claims then Moved(s, r, Answered(ReplayAnswer(s.claims[q.scope], q.payload)))
      else Moved(s, r, Missed)
    case Insert(r) =>
      var q := s.requests[r];
      if q.scope in s.claims then Moved(s, r, Answered(KeyConflict))
      else
        Moved(s.(claims := s.claims[q.scope := Claim(s.nextId, q.payload, None, r)], nextId := s.nextId + 1), r,
              Holding(s.nextId))
    case InsertFails(r) => Moved(s, r, Answered(Raised))
    case Work(r, response) =>
      var q := s.requests[r];
      // the row is completed in the transaction of the work; without the row nothing commits
      if OwnRow(s, r, q.at.id) then
        Moved(s.(claims := s.claims[q.scope := s.claims[q.scope].(outcome := Some(response))],
                 commits := s.commits + [Commit(q.scope, q.payload, response, r)]), r, Answered(Fresh(response)))
      else Moved(s, r, Undoing(q.at.id))
    case WorkThrows(r) => Moved(s, r, Undoing(s.requests[r].at.id))
    case Release(r) =>
      var q := s.requests[r];
      if OwnRow(s, r, q.at.id) then Moved(s.(claims := s.claims - {q.scope}), r, Answered(Raised))
      else Moved(s, r, Answered(Raised))
    case ReleaseFails(r) => Moved(s, r, Answered(Raised))
    case Crash(r) => s.(requests := s.requests - {r})
  }

  function Step(s: State, a: Action): State {
    if Enabled(s, a) then Next(s, a) else s
  }

  function Run(s: State, actions: seq<Action>): State
    decreases |actions|
  {
    if actions == [] then s else Run(Step(s, actions[0]), actions[1..])
  }

  // ---- the invariant ----

  /** A request between claim and answer owns its row, which is still pending. */
  ghost predicate Owns(s: State, r: nat)
    requires r in s.requests
  {
    var q := s.requests[r];
    q.at.Holding? || q.at.Undoing? ==>
      && q.scope in s.claims && s.claims[q.scope] == Claim(q.at.id, q.payload, None, r)
  }

  /** What a request was answered is what was committed. */
  ghost predicate AnsweredRight(s: State, r: nat)
    requires r in s.requests
  {
    var q := s.requests[r];
    && (q.at.Answered? && q.at.answer.Fresh? ==> Commit(q.scope, q.payload, q.at.answer.response, r) in s.commits)
    && (q.at.Answered? && q.at.answer.Replayed? ==> HasCommit(s.commits, q.scope, q.payload, q.at.answer.response))
  }

  ghost predicate HasCommit(commits: seq<Commit>, scope: Scope, payload: string, response: Response) {
    exists i :: 0 <= i < |commits| && commits[i].scope == scope && commits[i].payload == payload && commits[i].response == response
  }

  /** A completed row is its scope's commit; a commit's row is completed and stays. */
  ghost predicate RowsAreCommits(s: State) {
    && (forall i :: 0 <= i < |s.commits| ==>
          var c := s.commits[i];
          c.scope in s.claims && s.claims[c.scope].payload == c.payload && s.claims[c.scope].outcome == Some(c.response))
    && (forall scope :: scope in s.claims && s.claims[scope].outcome.Some? ==>
          HasCommit(s.commits, scope, s.claims[scope].payload, s.claims[scope].outcome.value))
  }

  ghost predicate OncePerScope(commits: seq<Commit>) {
    forall i, j :: 0 <= i < j < |commits| ==> commits[i].scope != commits[j].scope
  }

  ghost predicate Inv(s: State) {
    && (forall scope :: scope in s.claims ==> s.claims[scope].id < s.nextId)
    && (forall r :: r in s.requests ==> Owns(s, r) && AnsweredRight(s, r))
    && RowsAreCommits(s)
    && OncePerScope(s.commits)
  }

  lemma CommitsExtend(commits: seq<Commit>, c: Commit, scope: Scope, payload: string, response: Response)
    requires HasCommit(commits, scope, payload, response)
    ensures HasCommit(commits + [c], scope, payload, response)
  {
    var i :| 0 <= i < |commits| && commits[i].scope == scope && commits[i].payload == payload && commits[i].response == response;
    assert (commits + [c])[i] == commits[i];
  }

  /** A commit: it is the scope's first, and its row becomes its record. */
  lemma WorkKeeps(s: State, r: nat, response: Response)
    requires Inv(s) && Enabled(s, Work(r, response))
    ensures Inv(Next(s, Work(r, response)))
  {
    var t := Next(s, Work(r, response));
    var q := s.requests[r];
    assert Owns(s, r);
    var c := Commit(q.scope, q.payload, response, r);
    assert t.commits == s.commits + [c];
    assert t.commits[|s.commits|] == c;
    forall scope | scope in t.claims && t.claims[scope].outcome.Some?
      ensures HasCommit(t.commits, scope, t.claims[scope].payload, t.claims[scope].outcome.value)
    {
      if scope != q.scope {
        CommitsExtend(s.commits, c, scope, s.claims[scope].payload, s.claims[scope].outcome.value);
      }
    }
    forall x | x in t.requests ensures Owns(t, x) && AnsweredRight(t, x) {
      assert Owns(s, x) && AnsweredRight(s, x);
      if x != r && s.requests[x].at.Answered? && s.requests[x].at.answer.Replayed? {
        CommitsExtend(s.commits, c, s.requests[x].scope, s.requests[x].payload, s.requests[x].at.answer.response);
      }
    }
  }

  lemma InsertKeeps(s: State, r: nat)
    requires Inv(s) && Enabled(s, Insert(r))
    ensures Inv(Next(s, Insert(r)))
  {
    var t := Next(s, Insert(r));
    forall x | x in t.requests ensures Owns(t, x) && AnsweredRight(t, x) {
      assert Owns(s, x) && AnsweredRight(s, x);
    }
  }

  lemma ReleaseKeeps(s: State, r: nat)
    requires Inv(s) && Enabled(s, Release(r))
    ensures Inv(Next(s, Release(r)))
  {
    var t := Next(s, Release(r));
    assert Owns(s, r);
    forall x | x in t.requests ensures Owns(t, x) && AnsweredRight(t, x) {
      assert Owns(s, x) && AnsweredRight(s, x);
    }
  }

  lemma LookupKeeps(s: State, r: nat)
    requires Inv(s) && Enabled(s, Lookup(r))
    ensures Inv(Next(s, Lookup(r)))
  {
    var t := Next(s, Lookup(r));
    forall x | x in t.requests ensures Owns(t, x) && AnsweredRight(t, x) {
      assert Owns(s, x) && AnsweredRight(s, x);
    }
  }

  lemma LocalKeeps(s: State, a: Action)
    requires Inv(s) && Enabled(s, a)
    requires a.Arrive? || a.InsertFails? || a.WorkThrows? || a.ReleaseFails? || a.Crash?
    ensures Inv(Next(s, a))
  {
    var t := Next(s, a);
    forall x | x in t.requests ensures Owns(t, x) && AnsweredRight(t, x) {
      assert x in s.requests ==> Owns(s, x) && AnsweredRight(s, x);
    }
  }

  lemma StepKeeps(s: State, a: Action)
    requires Inv(s)
    ensures Inv(Step(s, a))
  {
    if Enabled(s, a) {
      match a
      case Work(r, response) => WorkKeeps(s, r, response);
      case Insert(r) => InsertKeeps(s, r);
      case Release(r) => ReleaseKeeps(s, r);
      case Lookup(r) => LookupKeeps(s, r);
      case _ => LocalKeeps(s, a);
    }
  }

  lemma {:induction false} RunKeeps(s: State, actions: seq<Action>)
    requires Inv(s)
    ensures Inv(Run(s, actions))
    decreases |actions|
  {
    if actions != [] {
      StepKeeps(s, actions[0]);
      RunKeeps(Step(s, actions[0]), actions[1..]);
    }
  }

  // ---- the guarantees ----

  /** At most once: whatever requests run, interleave, retry and crash, no two committed work
      transactions share a (subject, operation, key). */
  lemma AtMostOnce(actions: seq<Action>)
    ensures OncePerScope(Run(START, actions).commits)
  {
    RunKeeps(START, actions);
  }

  /** A replay returns exactly the response of its scope's one commit, made for the same
      payload, and only a response with a body. */
  lemma ReplayIsTheCommit(actions: seq<Action>, r: nat)
    requires var s := Run(START, actions);
             r in s.requests && s.requests[r].at.Answered? && s.requests[r].at.answer.Replayed?
    ensures var s := Run(START, actions);
            HasCommit(s.commits, s.requests[r].scope, s.requests[r].payload, s.requests[r].at.answer.response)
  {
    RunKeeps(START, actions);
    assert AnsweredRight(Run(START, actions), r);
  }

  /** Once a scope has committed, every later lookup of it answers: a replay of that response
      for the same payload when it has a body, a conflict for anything else. */
  lemma RetryAnswer(actions: seq<Action>, r: nat, c: Commit)
    requires var s := Run(START, actions);
             c in s.commits && Enabled(s, Lookup(r)) && s.requests[r].scope == c.scope
    ensures var s := Run(START, actions);
            Next(s, Lookup(r)).requests[r].at
            == Answered(if s.requests[r].payload == c.payload && c.response.body.Some? then Replayed(c.response) else KeyConflict)
  {
    RunKeeps(START, actions);
    var s := Run(START, actions);
    var i :| 0 <= i < |s.commits| && s.commits[i] == c;
  }

  /** A lookup replays the stored response for the same payload once it has a body, and is a
      conflict for any other payload and while the record is pending. */
  lemma LookupAnswer(s: State, r: nat)
    requires Enabled(s, Lookup(r))
    ensures var q, t := s.requests[r], Next(s, Lookup(r));
            && t == s.(requests := s.requests[r := q.(at := t.requests[r].at)])
            && t.requests[r].at
               == if q.scope !in s.claims then Missed
                  else match s.claims[q.scope]
                       case Claim(_, payload, Some(response), _) =>
                         Answered(if payload == q.payload && response.body.Some? then Replayed(response) else KeyConflict)
                       case _ => Answered(KeyConflict)
  {
  }

  ghost predicate BlankKey(key: string) {
    forall i :: 0 <= i < |key| ==> IsBlank(key[i])
  }

  lemma KeysExactly(key: string)
    ensures ValidKey(key) <==> !BlankKey(key) && |key| <= 255
  {
    hide Trim;
    TrimsToNothing(key);
  }

  /** In any run, a request is refused as malformed exactly when its key is blank or longer than 255
      characters, whatever else it met. */
  lemma {:induction false} MalformedExactly(s: State, actions: seq<Action>, r: nat)
    requires forall k :: k in s.requests ==> RefusedRight(s.requests[k])
    ensures r in Run(s, actions).requests ==> RefusedRight(Run(s, actions).requests[r])
    decreases |actions|
  {
    hide RefusedRight;
    if actions != [] {
      forall k | k in Step(s, actions[0]).requests ensures RefusedRight(Step(s, actions[0]).requests[k]) {
        RefusedStep(s, actions[0], k);
      }
      MalformedExactly(Step(s, actions[0]), actions[1..], r);
    }
  }

  ghost predicate RefusedRight(q: Request) {
    q.at == Answered(BadKey) <==> BlankKey(q.scope.key) || |q.scope.key| > 255
  }

  lemma RefusedStep(s: State, a: Action, k: nat)
    requires forall k :: k in s.requests ==> RefusedRight(s.requests[k])
    ensures k in Step(s, a).requests ==> RefusedRight(Step(s, a).requests[k])
  {
    hide BlankKey, ValidKey;
    if a.Arrive? {
      KeysExactly(a.scope.key);
    }
    assert k in s.requests ==> RefusedRight(s.requests[k]);
  }

  /** While a record exists, only its own payload can commit under its scope. */
  lemma OnlyTheClaimedPayload(actions: seq<Action>, a: Action, scope: Scope)
    requires var s := Run(START, actions); scope in s.claims
    ensures var s, t := Run(START, actions), Step(Run(START, actions), a);
            |t.commits| > |s.commits| && t.commits[|s.commits|].scope == scope
            ==> t.commits[|s.commits|].payload == s.claims[scope].payload && s.claims[scope].outcome.None?
  {
    RunKeeps(START, actions);
    var s := Run(START, actions);
    if a.Work? && Enabled(s, a) {
      assert Owns(s, a.r);
    }
  }

  /** No request deletes another's claim: a row disappears only by the release of the request
      that inserted it, and only while it is pending. */
  lemma OnlyOwnClaimsReleased(actions: seq<Action>, a: Action, scope: Scope)
    requires var s := Run(START, actions); scope in s.claims && scope !in Step(s, a).claims
    ensures var s := Run(START, actions);
            a.Release? && a.r == s.claims[scope].owner && s.claims[scope].outcome.None?
  {
    RunKeeps(START, actions);
    assert Owns(Run(START, actions), a.r);
  }

  // ---- the protocol as one request runs it ----

  /** The steps an undisturbed request takes; `work` is what its transaction would return, or
      nothing when it throws. */
  function Script(r: nat, scope: Scope, payload: string, work: Option<Response>): seq<Action> {
    [Arrive(r, scope, payload), Lookup(r), Insert(r)]
    + (if work.Some? then [Work(r, work.value)] else [WorkThrows(r), Release(r)])
  }

  /** What those steps come to. */
  function Alone(s: State, r: nat, scope: Scope, payload: string, work: Option<Response>): (State, Answer) {
    if !ValidKey(scope.key) then (s, BadKey)
    else if scope in s.claims then (s, ReplayAnswer(s.claims[scope], payload))
    else if work.Some? then
      (s.(claims := s.claims[scope := Claim(s.nextId, payload, work, r)], nextId := s.nextId + 1,
          commits := s.commits + [Commit(scope, payload, work.value, r)]), Fresh(work.value))
    else (s.(nextId := s.nextId + 1), Raised)
  }

  lemma RunNext(s: State, actions: seq<Action>, k: nat)
    requires k < |actions|
    ensures Run(s, actions[k..]) == Run(Step(s, actions[k]), actions[k + 1..])
  {
    assert actions[k..][1..] == actions[k + 1..];
  }

  lemma ScriptEnds(s: State, script: seq<Action>)
    requires 4 <= |script| <= 5
    ensures var t := Step(Step(Step(Step(s, script[0]), script[1]), script[2]), script[3]);
            Run(s, script) == if |script| == 4 then t else Step(t, script[4])
  {
    assert script == script[0..];
    RunNext(s, script, 0);
    RunNext(Step(s, script[0]), script, 1);
    RunNext(Step(Step(s, script[0]), script[1]), script, 2);
    var t := Step(Step(Step(s, script[0]), script[1]), script[2]);
    RunNext(t, script, 3);
    if |script| == 5 {
      RunNext(Step(t, script[3]), script, 4);
      assert script[5..] == [];
    } else {
      assert script[4..] == [];
    }
  }

  /** Its first three round trips, when it finds no row: it holds a claim. */
  function Claimed(s: State, r: nat, scope: Scope, payload: string): State {
    s.(claims := s.claims[scope := Claim(s.nextId, payload, None, r)], nextId := s.nextId + 1,
       requests := s.requests[r := Request(scope, payload, Holding(s.nextId))])
  }

  lemma ScriptClaims(s: State, r: nat, scope: Scope, payload: string)
    requires r !in s.requests && ValidKey(scope.key) && scope !in s.claims
    ensures Step(Step(Step(s, Arrive(r, scope, payload)), Lookup(r)), Insert(r)) == Claimed(s, r, scope, payload)
  {
  }

  lemma ClaimedThrows(s: State, r: nat, scope: Scope, payload: string)
    requires r !in s.requests && scope !in s.claims
    ensures Step(Step(Claimed(s, r, scope, payload), WorkThrows(r)), Release(r))
         == s.(nextId := s.nextId + 1, requests := s.requests[r := Request(scope, payload, Answered(Raised))])
  {
    assert s.claims[scope := Claim(s.nextId, payload, None, r)] - {scope} == s.claims;
  }

  lemma ClaimedWorks(s: State, r: nat, scope: Scope, payload: string, response: Response)
    requires r !in s.requests && scope !in s.claims
    ensures var t := Step(Claimed(s, r, scope, payload), Work(r, response));
            && t.requests == s.requests[r := Request(scope, payload, Answered(Fresh(response)))]
            && t.claims == s.claims[scope := Claim(s.nextId, payload, Some(response), r)] && t.nextId == s.nextId + 1
            && t.commits == s.commits + [Commit(scope, payload, response, r)]
  {
  }

  lemma ScriptAnswered(s: State, r: nat, scope: Scope, payload: string)
    requires r !in s.requests && (!ValidKey(scope.key) || scope in s.claims)
    ensures var t := Step(Step(s, Arrive(r, scope, payload)), Lookup(r));
            && t == s.(requests := t.requests)
            && t.requests == s.requests[r := Request(scope, payload,
                 Answered(if ValidKey(scope.key) then ReplayAnswer(s.claims[scope], payload) else BadKey))]
  {
  }

  lemma AnsweredStays(s: State, r: nat, a: Action)
    requires r in s.requests && s.requests[r].at.Answered?
    requires a == Insert(r) || a == WorkThrows(r) || a == Release(r) || (a.Work? && a.r == r)
    ensures Step(s, a) == s
  {
  }

  /** A request run alone is the protocol's steps in order, whatever it finds. */
  lemma AloneIsScript(s: State, r: nat, scope: Scope, payload: string, work: Option<Response>)
    requires r !in s.requests
    ensures var (t, answer) := Alone(s, r, scope, payload, work);
            Run(s, Script(r, scope, payload, work))
            == t.(requests := s.requests[r := Request(scope, payload, Answered(answer))])
  {
    hide Step;
    var script := Script(r, scope, payload, work);
    ScriptEnds(s, script);
    if ValidKey(scope.key) && scope !in s.claims {
      ScriptClaims(s, r, scope, payload);
      if work.Some? {
        ClaimedWorks(s, r, scope, payload, work.value);
      } else {
        ClaimedThrows(s, r, scope, payload);
      }
    } else {
      ScriptAnswered(s, r, scope, payload);
      var t := Step(Step(s, script[0]), script[1]);
      AnsweredStays(t, r, script[2]);
      AnsweredStays(t, r, script[3]);
      if |script| == 5 {
        AnsweredStays(t, r, script[4]);
      }
    }
  }

  /** The record table and the log of committed work. */
  class Server {
    var claims: map<Scope, Claim>
    var nextId: nat
    var commits: seq<Commit>

    function Now(): State
      reads this
    {
      State(claims, nextId, map[], commits)
    }

    constructor ()
      ensures Now() == START
    {
      claims, nextId, commits := map[], 0, [];
    }

    /** One request, run alone. */
    method ExecuteCommand(r: nat, scope: Scope, payload: string, work: Option<Response>) returns (answer: Answer)
      modifies this
      ensures (Now(), answer) == Alone(old(Now()), r, scope, payload, work)
    {
      if !ValidKey(scope.key) { return BadKey; }
      if scope in claims {
        var record := claims[scope];
        if record.payload != payload { return KeyConflict; }
        if record.outcome.None? || record.outcome.value.body.None? { return KeyConflict; }
        return Replayed(record.outcome.value);
      }
      var id := nextId;
      claims := claims[scope := Claim(id, payload, None, r)];
      nextId := nextId + 1;
      if work.Some? {
        commits := commits + [Commit(scope, payload, work.value, r)];
        claims := claims[scope := claims[scope].(outcome := work)];
        assert claims == old(claims)[scope := Claim(id, payload, work, r)];
        return Fresh(work.value);
      }
      assert claims - {scope} == old(claims);
      claims := claims - {scope};
      return Raised;
    }
  }
}
