/** CreateUser.usecase.ts and DeleteUser.usecase.ts as they are written, call by call, on the two
    tables; one call left alone does to them what the interleaved machine does. */
module UserUseCases {
  import opened Options
  import opened UserLifecycle
  import opened UserRuns

  /** A single request run to its end without another one in between. */
  function Alone(s: State, p: Pid, ids: seq<Id>): State
    decreases |ids|
  {
    if ids == [] then s else Alone(Apply(s, Step(p, ids[0])), p, ids[1..])
  }

  function StepsOf(p: Pid, ids: seq<Id>): seq<Action> {
    if ids == [] then [] else [Step(p, ids[0])] + StepsOf(p, ids[1..])
  }

  lemma ExecAdd(s: State, actions: seq<Action>, a: Action)
    ensures Exec(s, actions + [a]) == Apply(Exec(s, actions), a)
  {
    assert (actions + [a])[..|actions|] == actions;
  }

  lemma {:induction false} ExecFront(s: State, a: Action, actions: seq<Action>)
    ensures Exec(s, [a] + actions) == Exec(Apply(s, a), actions)
  {
    if actions == [] {
      assert [a][..0] == [] && [a] + [] == [a];
      assert Exec(s, []) == s;
    } else {
      var front, last := actions[..|actions| - 1], actions[|actions| - 1];
      assert actions == front + [last] && [a] + actions == ([a] + front) + [last];
      ExecAdd(s, [a] + front, last);
      ExecAdd(Apply(s, a), front, last);
      ExecFront(s, a, front);
    }
  }

  /** Such a lone run is a run of the machine, so everything proved of all runs holds of it. */
  lemma {:induction false} AloneIsExec(s: State, p: Pid, ids: seq<Id>)
    ensures Alone(s, p, ids) == Exec(s, StepsOf(p, ids))
    decreases |ids|
  {
    if ids != [] {
      AloneIsExec(Apply(s, Step(p, ids[0])), p, ids[1..]);
      ExecFront(s, Step(p, ids[0]), StepsOf(p, ids[1..]));
    }
  }

  lemma AloneFour(s: State, p: Pid, a: Id, b: Id, c: Id, d: Id)
    ensures Alone(s, p, [a, b, c, d]) == Apply(Apply(Apply(Apply(s, Step(p, a)), Step(p, b)), Step(p, c)), Step(p, d))
  {
    assert [a, b, c, d][1..] == [b, c, d] && [b, c, d][1..] == [c, d] && [c, d][1..] == [d] && [d][1..] == [];
    assert Alone(s, p, [a, b, c, d]) == Alone(Apply(s, Step(p, a)), p, [b, c, d]);
    var t := Apply(Apply(s, Step(p, a)), Step(p, b));
    assert Alone(t, p, [c, d]) == Alone(Apply(t, Step(p, c)), p, [d]);
  }

  lemma AloneFive(s: State, p: Pid, a: Id, b: Id, c: Id, d: Id, e: Id)
    ensures Alone(s, p, [a, b, c, d, e]) ==
            Apply(Apply(Apply(Apply(Apply(s, Step(p, a)), Step(p, b)), Step(p, c)), Step(p, d)), Step(p, e))
  {
    assert [a, b, c, d, e][1..] == [b, c, d, e];
    AloneFour(Apply(s, Step(p, a)), p, b, c, d, e);
  }

  lemma AloneSix(s: State, p: Pid, a: Id, b: Id, c: Id, d: Id, e: Id, f: Id)
    ensures Alone(s, p, [a, b, c, d, e, f]) ==
            var t := Apply(Apply(Apply(s, Step(p, a)), Step(p, b)), Step(p, c));
            Apply(Apply(Apply(t, Step(p, d)), Step(p, e)), Step(p, f))
  {
    assert [a, b, c, d, e, f][1..] == [b, c, d, e, f];
    AloneFive(Apply(s, Step(p, a)), p, b, c, d, e, f);
  }

  // ---------- a lone create ----------

  predicate CreateAllowed(s: State, request: Request)
    requires request.CreateLookup?
  {
    Truthy(request.agent.clientId) && request.password != "" && !EmailTaken(s, request.email, None)
  }

  ghost function CreateAlone(s: State, p: Pid, request: Request, userId: Id, prefId: Id): State {
    Alone(Goto(s, p, request), p, ["", "", userId, prefId, "", ""])
  }

  lemma EmailTakenIff(s: State, email: string)
    ensures EmailTaken(s, email, None) <==> exists u :: u in s.users && s.users[u].email == email
  {
    if u :| u in s.users && s.users[u].email == email {
      assert Some(u) != None;
    }
  }

  lemma EmailFoundIsTaken(s: State, email: string)
    ensures EmailFound(s, email) ==> EmailTaken(s, email, None)
  {
    if EmailFound(s, email) {
      var u :| u in s.users && s.users[u].email == email && !s.users[u].deleted;
      assert Some(u) != None;
    }
  }

  lemma CreateLooksUp(s: State, p: Pid, request: Request)
    requires request.CreateLookup?
    ensures Apply(Goto(s, p, request), Step(p, "")) ==
            Goto(s, p, if Truthy(request.agent.clientId) && !EmailFound(s, request.email)
              then CreateRecheck(request.email, request.password, request.theme) else Rejected)
  {}

  lemma CreateRechecks(s: State, p: Pid, email: string, password: string, theme: Option<string>)
    ensures Apply(Goto(s, p, CreateRecheck(email, password, theme)), Step(p, "")) ==
            Goto(s, p, if password != "" && !EmailFound(s, email) then CreateInsertUser(email, theme) else Rejected)
  {}

  lemma CreateCollides(s: State, p: Pid, email: string, theme: Option<string>, userId: Id)
    requires EmailTaken(s, email, None) && userId !in s.users && userId != ""
    ensures Apply(Goto(s, p, CreateInsertUser(email, theme)), Step(p, userId)) == Goto(s, p, Rejected)
  {
    assert EmailTaken(Goto(s, p, CreateInsertUser(email, theme)), email, None);
  }

  lemma RejectedStays(s: State, p: Pid, id: Id)
    ensures Apply(Goto(s, p, Rejected), Step(p, id)) == Goto(s, p, Rejected)
  {}

  lemma CreateAloneRefused(s: State, p: Pid, request: Request, userId: Id, prefId: Id)
    requires request.CreateLookup? && !CreateAllowed(s, request) && userId !in s.users && userId != ""
    ensures CreateAlone(s, p, request, userId, prefId) == Goto(s, p, Rejected)
  {
    AloneSix(Goto(s, p, request), p, "", "", userId, prefId, "", "");
    CreateLooksUp(s, p, request);
    CreateRechecks(s, p, request.email, request.password, request.theme);
    RejectedStays(s, p, "");
    RejectedStays(s, p, userId);
    RejectedStays(s, p, prefId);
    if EmailTaken(s, request.email, None) {
      CreateCollides(s, p, request.email, request.theme, userId);
    }
  }

  function Created(s: State, p: Pid, request: Request, userId: Id, prefId: Id): State
    requires request.CreateLookup?
  {
    s.(users := s.users[userId := User(request.email, false, None, p)],
       prefs := s.prefs[prefId := Preference(userId, request.theme, false, p)])
  }

  lemma CreateAnswers(s: State, p: Pid, request: Request, userId: Id, prefId: Id)
    requires request.CreateLookup?
    ensures var t := Created(s, p, request, userId, prefId);
            Apply(Apply(Goto(t, p, AnswerReadUser(userId)), Step(p, "")), Step(p, "")) == Goto(t, p, Finished)
  {
    var t := Created(s, p, request, userId, prefId);
    assert Apply(Goto(t, p, AnswerReadUser(userId)), Step(p, "")) == Goto(t, p, AnswerReadPreference(userId));
    assert LivePreference(Goto(t, p, AnswerReadPreference(userId)), prefId, userId);
  }

  lemma CreateInserts(s: State, p: Pid, request: Request, userId: Id, prefId: Id)
    requires request.CreateLookup? && userId != "" && prefId != "" && prefId !in s.prefs
    requires forall q | q in s.prefs :: s.prefs[q].userId != userId
    ensures var inserted := s.(users := s.users[userId := User(request.email, false, None, p)]);
            Apply(Goto(inserted, p, CreateInsertPreference(userId, request.theme)), Step(p, prefId)) ==
            Goto(Created(s, p, request, userId, prefId), p, AnswerReadUser(userId))
  {}

  lemma CreateAloneDone(s: State, p: Pid, request: Request, userId: Id, prefId: Id)
    requires request.CreateLookup? && CreateAllowed(s, request) && p !in s.reqs
    requires userId != "" && prefId != "" && userId !in s.users && prefId !in s.prefs
    requires forall q | q in s.prefs :: s.prefs[q].userId != userId
    ensures CreateAlone(s, p, request, userId, prefId) == Goto(Created(s, p, request, userId, prefId), p, Finished)
  {
    AloneSix(Goto(s, p, request), p, "", "", userId, prefId, "", "");
    assert Apply(s, Start(p, request)) == Goto(s, p, request);
    CreateReachesInsert(s, p, userId, request);
    CreateInserts(s, p, request, userId, prefId);
    CreateAnswers(s, p, request, userId, prefId);
  }

  // ---------- a lone delete ----------

  ghost predicate DeleteAllowed(s: State, id: Id, agent: Agent) {
    LiveUser(s, id) && HasLivePreference(s, id) && id != "" && IsAllowedToManageUser(agent, id, s.users[id].email)
  }

  lemma DeleteAllowedIff(s: State, id: Id, agent: Agent)
    ensures DeleteAllowed(s, id, agent) <==>
            && id != "" && agent.clientId == Some(id) && id in s.users && !s.users[id].deleted
            && agent.username == Some(s.users[id].email)
            && exists q | q in s.prefs :: s.prefs[q].userId == id && !s.prefs[q].deleted
  {
    assert forall q | q in s.prefs :: LivePreference(s, q, id) <==> s.prefs[q].userId == id && !s.prefs[q].deleted;
  }

  ghost function DeleteAlone(s: State, id: Id, agent: Agent, pref: Id): State {
    Alone(Goto(s, 0, DeleteReadUser(id, agent)), 0, ["", pref, "", "", ""])
  }

  lemma DeleteAloneRefused(s: State, id: Id, agent: Agent, pref: Id)
    requires !DeleteAllowed(s, id, agent) && s.reqs == map[]
    requires HasLivePreference(s, id) ==> LivePreference(s, pref, id)
    ensures DeleteAlone(s, id, agent, pref) == s.(reqs := map[0 := Rejected])
  {
    AloneFive(Goto(s, 0, DeleteReadUser(id, agent)), 0, "", pref, "", "", "");
    DeleteReadsUser(s, id, agent);
    if Truthy(agent.clientId) && LiveUser(s, id) {
      DeleteReadsPreference(s, id, agent, pref);
    }
  }

  lemma DeleteReadsUser(s: State, id: Id, agent: Agent)
    requires s.reqs == map[]
    ensures Apply(Goto(s, 0, DeleteReadUser(id, agent)), Step(0, "")) ==
            Goto(s, 0, if Truthy(agent.clientId) && LiveUser(s, id)
              then DeleteReadPreference(id, agent, s.users[id].email) else Rejected)
  {}

  lemma DeleteReadsPreference(s: State, id: Id, agent: Agent, pref: Id)
    requires s.reqs == map[] && id in s.users && (HasLivePreference(s, id) ==> LivePreference(s, pref, id))
    ensures Apply(Goto(s, 0, DeleteReadPreference(id, agent, s.users[id].email)), Step(0, pref)) ==
            Goto(s, 0, if HasLivePreference(s, id) && IsAllowedToManageUser(agent, id, s.users[id].email)
              then DeletePreference(id, pref, agent.clientId.value) else Rejected)
  {
    var t := Goto(s, 0, DeleteReadPreference(id, agent, s.users[id].email));
    assert forall q | q in s.prefs :: LivePreference(t, q, id) <==> LivePreference(s, q, id);
    assert HasLivePreference(t, id) <==> HasLivePreference(s, id);
  }

  lemma DeleteAloneDone(s: State, id: Id, agent: Agent, pref: Id)
    requires DeleteAllowed(s, id, agent) && LivePreference(s, pref, id) && s.reqs == map[]
    ensures DeleteAlone(s, id, agent, pref) ==
            State(s.users[id := s.users[id].(deletedBy := Some(id), deleted := true)],
                  s.prefs[pref := s.prefs[pref].(deleted := true)], map[0 := Finished])
  {
    AloneFive(Goto(s, 0, DeleteReadUser(id, agent)), 0, "", pref, "", "", "");
    DeleteReadsUser(s, id, agent);
    DeleteReadsPreference(s, id, agent, pref);
    DeleteWrites(s, id, pref);
  }

  lemma DeleteWrites(s: State, id: Id, pref: Id)
    requires s.reqs == map[] && id in s.users && pref in s.prefs
    ensures Apply(Apply(Apply(Goto(s, 0, DeletePreference(id, pref, id)), Step(0, "")), Step(0, "")), Step(0, "")) ==
            State(s.users[id := s.users[id].(deletedBy := Some(id), deleted := true)],
                  s.prefs[pref := s.prefs[pref].(deleted := true)], map[0 := Finished])
  {
    var t := s.(prefs := s.prefs[pref := s.prefs[pref].(deleted := true)]);
    assert Apply(Goto(s, 0, DeletePreference(id, pref, id)), Step(0, "")) == Goto(t, 0, DeleteStamp(id, pref, id));
    var u := t.(users := t.users[id := t.users[id].(deletedBy := Some(id))]);
    assert Apply(Goto(t, 0, DeleteStamp(id, pref, id)), Step(0, "")) == Goto(u, 0, DeleteUser(id, pref));
  }

  /** UserService, UserPreferenceService and their repositories over the two tables. */
  class UserTables {
    var users: map<Id, User>
    var prefs: map<Id, Preference>

    constructor ()
      ensures users == map[] && prefs == map[]
    {
      users, prefs := map[], map[];
    }

    function Tables(): State
      reads this
    {
      State(users, prefs, map[])
    }

    method InsertUser(id: Id, row: User) returns (ok: bool)
      requires id !in users
      modifies this`users
      ensures ok <==> forall u | u in old(users) :: old(users)[u].email != row.email
      ensures users == if ok then old(users)[id := row] else old(users)
    {
      ok := forall u | u in users :: users[u].email != row.email;
      if ok {
        users := users[id := row];
      }
    }

    method InsertPreference(id: Id, row: Preference) returns (ok: bool)
      requires id !in prefs
      modifies this`prefs
      ensures ok <==> row.userId in users && forall q | q in old(prefs) :: old(prefs)[q].userId != row.userId
      ensures prefs == if ok then old(prefs)[id := row] else old(prefs)
    {
      ok := row.userId in users && forall q | q in prefs :: prefs[q].userId != row.userId;
      if ok {
        prefs := prefs[id := row];
      }
    }

    /** UserService.create: the password check, the second look for the e-mail, and the insert. */
    method CreateInService(email: string, password: string, userId: Id, p: Pid) returns (ok: bool)
      requires userId !in users
      modifies this`users
      ensures ok <==> password != "" && forall u | u in old(users) :: old(users)[u].email != email
      ensures users == if ok then old(users)[userId := User(email, false, None, p)] else old(users)
    {
      if password == "" || EmailFound(Tables(), email) {
        return false;
      }
      ok := InsertUser(userId, User(email, false, None, p));
    }

    /** CreateUser.usecase.ts; userId and prefId stand for the keys the database generates. The
        answer holds the two rows as they are read back. */
    method CreateUser(email: string, password: string, theme: Option<string>, agent: Agent,
                      userId: Id, prefId: Id, p: Pid)
      returns (ok: bool, answer: Option<(User, Preference)>)
      requires userId != "" && prefId != "" && userId !in users && prefId !in prefs
      requires forall q | q in prefs :: prefs[q].userId in users
      modifies this
      ensures ok <==>
              && agent.clientId.Some? && agent.clientId.value != "" && password != ""
              && forall u | u in old(users) :: old(users)[u].email != email
      ensures users == if ok then old(users)[userId := User(email, false, None, p)] else old(users)
      ensures prefs == if ok then old(prefs)[prefId := Preference(userId, theme, false, p)] else old(prefs)
      ensures answer == if ok then Some((User(email, false, None, p), Preference(userId, theme, false, p))) else None
      ensures CreateAlone(old(Tables()), p, CreateLookup(email, password, theme, agent), userId, prefId) ==
              State(users, prefs, map[p := if ok then Finished else Rejected])
    {
      ghost var s, request := Tables(), CreateLookup(email, password, theme, agent);
      EmailTakenIff(s, email);
      EmailFoundIsTaken(s, email);
      if CreateAllowed(s, request) {
        CreateAloneDone(s, p, request, userId, prefId);
      } else {
        CreateAloneRefused(s, p, request, userId, prefId);
      }
      ok, answer := false, None;
      if !Truthy(agent.clientId) || EmailFound(Tables(), email) {
        return;
      }
      ok := CreateInService(email, password, userId, p);
      if !ok {
        return;
      }
      ok := InsertPreference(prefId, Preference(userId, theme, false, p));
      answer := Answer(userId, prefId);
    }

    /** The reads at the end; they find what they look for unless it was soft-deleted. */
    method Answer(userId: Id, prefId: Id) returns (answer: Option<(User, Preference)>)
      ensures answer.Some? <==>
              && userId in users && !users[userId].deleted
              && prefId in prefs && !prefs[prefId].deleted && prefs[prefId].userId == userId
      ensures answer.Some? ==> answer.value == (users[userId], prefs[prefId])
    {
      if LiveUser(Tables(), userId) && LivePreference(Tables(), prefId, userId) {
        answer := Some((users[userId], prefs[prefId]));
      } else {
        answer := None;
      }
    }

    /** UserRepository.deleteOne with softDelete: the stamp is written before the soft-delete. */
    method DeleteOne(id: Id, agentId: Id) returns (affected: bool)
      modifies this`users
      ensures affected <==> id in old(users)
      ensures users ==
              if id !in old(users) then old(users)
              else old(users)[id := old(users)[id].(deletedBy := Some(agentId), deleted := true)]
    {
      if id in users {
        users := users[id := users[id].(deletedBy := Some(agentId))];
      }
      affected := id in users;
      if affected {
        users := users[id := users[id].(deleted := true)];
      }
    }

    /** DeleteUser.usecase.ts; pref is the preference found for the user. */
    method DeleteUser(id: Id, agent: Agent) returns (ok: bool, pref: Id)
      modifies this
      ensures ok <==>
              && id != "" && agent.clientId == Some(id) && id in old(users) && !old(users)[id].deleted
              && agent.username == Some(old(users)[id].email)
              && exists q | q in old(prefs) :: old(prefs)[q].userId == id && !old(prefs)[q].deleted
      ensures ok ==> pref in old(prefs) && old(prefs)[pref].userId == id && !old(prefs)[pref].deleted
      ensures users ==
              if ok then old(users)[id := old(users)[id].(deletedBy := Some(id), deleted := true)] else old(users)
      ensures prefs == if ok then old(prefs)[pref := old(prefs)[pref].(deleted := true)] else old(prefs)
      ensures DeleteAlone(old(Tables()), id, agent, pref) ==
              State(users, prefs, map[0 := if ok then Finished else Rejected])
    {
      ghost var s := Tables();
      DeleteAllowedIff(s, id, agent);
      ok, pref := false, "";
      if HasLivePreference(Tables(), id) {
        pref :| pref in prefs && LivePreference(Tables(), pref, id);
      }
      if !Truthy(agent.clientId) || !LiveUser(Tables(), id) {
        DeleteAloneRefused(s, id, agent, pref);
        return;
      }
      var user := users[id];
      if !HasLivePreference(Tables(), id) || !IsAllowedToManageUser(agent, id, user.email) {
        DeleteAloneRefused(s, id, agent, pref);
        return;
      }
      DeleteAloneDone(s, id, agent, pref);
      prefs := prefs[pref := prefs[pref].(deleted := true)];
      ok := DeleteOne(id, agent.clientId.value);
    }
  }
}
