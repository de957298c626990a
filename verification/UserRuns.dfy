/** What holds over whole runs of interleaved user requests. */
module UserRuns {
  import opened Options
  import opened UserLifecycle

  lemma RunKeepsInv(actions: seq<Action>)
    ensures Inv(Run(actions))
  {
    ExecKeepsInv(INIT, actions);
  }

  /** In every reachable state a live preference belongs to a live user, a soft-deleted user was
      deleted by itself, and no two rows share an e-mail or an owner. */
  lemma RunsAreConsistent(actions: seq<Action>)
    ensures var s := Run(actions);
            && (forall q | q in s.prefs && !s.prefs[q].deleted ::
                  s.prefs[q].userId in s.users && !s.users[s.prefs[q].userId].deleted)
            && (forall u | u in s.users && s.users[u].deleted :: s.users[u].deletedBy == Some(u))
            && (forall u, v | u in s.users && v in s.users && u != v :: s.users[u].email != s.users[v].email)
            && (forall q, r | q in s.prefs && r in s.prefs && q != r :: s.prefs[q].userId != s.prefs[r].userId)
  {
    RunKeepsInv(actions);
  }

  /** A request that was turned down, a create that lost an e-mail race among them, left no row. */
  lemma RejectedLeavesNothing(actions: seq<Action>, p: Pid)
    requires p in Run(actions).reqs && Run(actions).reqs[p].Rejected?
    ensures var s := Run(actions);
            && (forall u | u in s.users :: s.users[u].creator != p)
            && (forall q | q in s.prefs :: s.prefs[q].creator != p)
  {
    RunKeepsInv(actions);
    assert RequestOk(Run(actions), p, Rejected);
  }

  /** The insert of a user is refused exactly when a row, live or soft-deleted, has that very e-mail. */
  lemma InsertRefusedIff(s: State, p: Pid, id: Id, email: string, theme: Option<string>)
    requires p in s.reqs && s.reqs[p] == CreateInsertUser(email, theme) && id !in s.users && id != ""
    ensures var t := Apply(s, Step(p, id));
            && (t.reqs[p] == Rejected <==> exists u :: u in s.users && s.users[u].email == email)
            && (t.reqs[p] == Rejected ==> t == Goto(s, p, Rejected))
            && (t.reqs[p] != Rejected ==>
                  t == Goto(s.(users := s.users[id := User(email, false, None, p)]), p,
                    CreateInsertPreference(id, theme)))
  {
    if u :| u in s.users && s.users[u].email == email {
      assert Some(u) != None;
    }
  }

  /** So is the write of a changed e-mail, when another row has it. */
  lemma EmailWriteRefusedIff(s: State, p: Pid, id: Id, uid: Id, pref: Id, email: string, theme: Option<string>)
    requires p in s.reqs && s.reqs[p] == UpdateUser(uid, pref, Some(email), theme) && uid in s.users && id != ""
    ensures var t := Apply(s, Step(p, id));
            && (t.reqs[p] == Rejected <==> exists u :: u in s.users && u != uid && s.users[u].email == email)
            && (t.reqs[p] == Rejected ==> t == Goto(s, p, Rejected))
            && (t.reqs[p] != Rejected ==>
                  t == Goto(s.(users := s.users[uid := s.users[uid].(email := email)]), p,
                    UpdateReadBack(uid, pref, theme)))
  {
    if u :| u in s.users && u != uid && s.users[u].email == email {
      assert Some(u) != Some(uid);
    }
  }

  /** A create gets past its reads exactly when it has an agent, a password and no live row with the
      e-mail at either look. */
  lemma LookupRefusedIff(s: State, p: Pid, request: Request)
    requires p in s.reqs && request.CreateLookup? && s.reqs[p] == request
    ensures Apply(s, Step(p, "")).reqs[p] == Rejected <==>
            || request.agent.clientId == None || request.agent.clientId == Some("")
            || exists u :: u in s.users && s.users[u].email == request.email && !s.users[u].deleted
  {}

  lemma RecheckRefusedIff(s: State, p: Pid, email: string, password: string, theme: Option<string>)
    requires p in s.reqs && s.reqs[p] == CreateRecheck(email, password, theme)
    ensures Apply(s, Step(p, "")).reqs[p] == Rejected <==>
            password == "" || exists u :: u in s.users && s.users[u].email == email && !s.users[u].deleted
  {}

  /** A read-back ends a request in an error exactly when the row it looks for is gone or soft-deleted. */
  lemma ReadBackFailsIff(s: State, p: Pid)
    requires p in s.reqs
    ensures var t, r := Apply(s, Step(p, "")), s.reqs[p];
            && (r.AnswerReadUser? || r.UpdateReadBack? ==>
                  (t.reqs[p] == Failed <==> r.uid !in s.users || s.users[r.uid].deleted))
            && (r.UpdatePreferenceReadBack? ==>
                  (t.reqs[p] == Failed <==> r.pref !in s.prefs || s.prefs[r.pref].deleted))
            && (r.AnswerReadPreference? ==>
                  (t.reqs[p] == Failed <==> forall q | q in s.prefs
                    && s.prefs[q].userId == r.uid :: s.prefs[q].deleted))
  {
    if s.reqs[p].AnswerReadPreference? {
      var uid := s.reqs[p].uid;
      assert forall q | q in s.prefs :: LivePreference(s, q, uid) <==> s.prefs[q].userId == uid && !s.prefs[q].deleted;
    }
  }

  /** A delete writes in its order: the preference, the stamp, the user; only a user that is not there
      makes it fail. */
  lemma DeleteGoesOn(s: State, p: Pid, id: Id)
    requires p in s.reqs
    ensures var t, r := Apply(s, Step(p, id)), s.reqs[p];
            && (r.DeletePreference? ==> t.reqs[p] == DeleteStamp(r.uid, r.pref, r.agentId) && t.users == s.users)
            && (r.DeleteStamp? ==> t.reqs[p] == DeleteUser(r.uid, r.pref) && t.prefs == s.prefs)
            && (r.DeleteUser? ==> t.reqs[p] == (if r.uid in s.users then Finished else Failed) && t.prefs == s.prefs)
  {}

  /** No row is ever removed, no soft-delete is ever cleared, and no row changes hands. */
  ghost predicate Later(s: State, t: State) {
    && (forall u | u in s.users :: u in t.users && t.users[u].creator == s.users[u].creator
                                   && (s.users[u].deleted ==> t.users[u].deleted))
    && (forall q | q in s.prefs :: q in t.prefs && t.prefs[q].userId == s.prefs[q].userId
                                   && (s.prefs[q].deleted ==> t.prefs[q].deleted))
  }

  lemma CreateIsLater(s: State, p: Pid, id: Id)
    requires p in s.reqs
    ensures Later(s, CreateStep(s, p, id))
  {}

  lemma DeleteIsLater(s: State, p: Pid, id: Id)
    requires p in s.reqs
    ensures Later(s, DeleteStep(s, p, id))
  {}

  lemma UpdateIsLater(s: State, p: Pid, id: Id)
    requires p in s.reqs
    ensures Later(s, UpdateStep(s, p, id))
  {}

  lemma AnswerIsLater(s: State, p: Pid)
    requires p in s.reqs
    ensures Later(s, AnswerStep(s, p))
  {}

  lemma ApplyIsLater(s: State, a: Action)
    ensures Later(s, Apply(s, a))
  {
    if a.Step? && a.p in s.reqs {
      AnswerIsLater(s, a.p);
      CreateIsLater(s, a.p, a.id);
      DeleteIsLater(s, a.p, a.id);
      UpdateIsLater(s, a.p, a.id);
      StepKinds(s, a.p, a.id);
    }
  }

  lemma {:induction false} SoftDeleteIsForGood(s: State, actions: seq<Action>)
    ensures Later(s, Exec(s, actions))
  {
    if actions != [] {
      SoftDeleteIsForGood(s, actions[..|actions| - 1]);
      ApplyIsLater(Exec(s, actions[..|actions| - 1]), actions[|actions| - 1]);
    }
  }

  // ---------- users left without a preference ----------

  /** A request past its reads that will still give u a preference or delete u. */
  predicate Carries(r: Request, u: Id) {
    match r
    case CreateInsertPreference(uid, _) => uid == u
    case DeleteStamp(uid, _, _) => uid == u
    case DeleteUser(uid, _) => uid == u
    case _ => false
  }

  ghost predicate Served(s: State, u: Id) {
    HasLivePreference(s, u) || exists p :: p in s.reqs && Carries(s.reqs[p], u)
  }

  ghost predicate AllServed(s: State) {
    forall u | LiveUser(s, u) :: Served(s, u)
  }

  /** All that one step of request p can do to the tables, and where it leaves p. */
  ghost predicate Effect(s: State, p: Pid, t: State)
    requires p in s.reqs
  {
    var r := s.reqs[p];
    && p in t.reqs && t.reqs == s.reqs[p := t.reqs[p]]
    && (forall u | u in t.users && u !in s.users :: r.CreateInsertUser? && Carries(t.reqs[p], u))
    && (forall u | u in s.users && u in t.users && !s.users[u].deleted && t.users[u].deleted ::
          r.DeleteUser? && r.uid == u)
    && (forall q | q in t.prefs && q !in s.prefs :: r.CreateInsertPreference? && LivePreference(t, q, r.uid))
    && (forall q | q in s.prefs :: q in t.prefs && t.prefs[q].userId == s.prefs[q].userId)
    && (forall q | q in s.prefs && s.prefs[q].deleted :: t.prefs[q].deleted)
    && (forall q | q in s.prefs && !s.prefs[q].deleted && t.prefs[q].deleted ::
          r.DeletePreference? && r.pref == q && Carries(t.reqs[p], r.uid))
  }

  lemma CreateEffect(s: State, p: Pid, id: Id)
    requires p in s.reqs && RequestOk(s, p, s.reqs[p])
    ensures Effect(s, p, CreateStep(s, p, id))
    ensures forall u | Carries(s.reqs[p], u) ::
              Carries(CreateStep(s, p, id).reqs[p], u) || HasLivePreference(CreateStep(s, p, id), u)
                || !s.reqs[p].CreateInsertPreference?
  {
    var t := CreateStep(s, p, id);
    if s.reqs[p].CreateInsertPreference? && t != s {
      assert LivePreference(t, id, s.reqs[p].uid);
    }
  }

  /** A step that leaves the tables alone. */
  lemma MoveEffect(s: State, p: Pid, t: State)
    requires p in s.reqs && p in t.reqs && t == Goto(s, p, t.reqs[p])
    requires s.reqs[p].DeletePreference? ==> Carries(t.reqs[p], s.reqs[p].uid)
    ensures Effect(s, p, t)
  {}

  lemma SameEffect(s: State, p: Pid)
    requires p in s.reqs
    ensures Effect(s, p, s)
  {
    assert s.reqs[p := s.reqs[p]] == s.reqs;
  }

  lemma UserWriteEffect(s: State, p: Pid, uid: Id, row: User, r: Request)
    requires p in s.reqs && uid in s.users && row.deleted == s.users[uid].deleted
    ensures Effect(s, p, Goto(s.(users := s.users[uid := row]), p, r))
  {}

  lemma FlagUserEffect(s: State, p: Pid, r: Request)
    requires p in s.reqs && s.reqs[p].DeleteUser? && s.reqs[p].uid in s.users
    ensures var uid := s.reqs[p].uid;
            Effect(s, p, Goto(s.(users := s.users[uid := s.users[uid].(deleted := true)]), p, r))
  {}

  lemma PreferenceWriteEffect(s: State, p: Pid, pref: Id, row: Preference, r: Request)
    requires p in s.reqs && pref in s.prefs
    requires row.userId == s.prefs[pref].userId && row.deleted == s.prefs[pref].deleted
    ensures Effect(s, p, Goto(s.(prefs := s.prefs[pref := row]), p, r))
  {}

  lemma FlagPreferenceEffect(s: State, p: Pid, r: Request)
    requires p in s.reqs && s.reqs[p].DeletePreference? && s.reqs[p].pref in s.prefs && Carries(r, s.reqs[p].uid)
    ensures var pref := s.reqs[p].pref;
            Effect(s, p, Goto(s.(prefs := s.prefs[pref := s.prefs[pref].(deleted := true)]), p, r))
  {}

  lemma DeleteEffect(s: State, p: Pid, id: Id)
    requires p in s.reqs
    ensures Effect(s, p, DeleteStep(s, p, id))
  {
    var t := DeleteStep(s, p, id);
    SameEffect(s, p);
    match s.reqs[p]
    case DeletePreference(uid, pref, agentId) =>
      if pref in s.prefs {
        FlagPreferenceEffect(s, p, DeleteStamp(uid, pref, agentId));
      } else {
        MoveEffect(s, p, t);
      }
    case DeleteStamp(uid, pref, agentId) =>
      if uid in s.users {
        UserWriteEffect(s, p, uid, s.users[uid].(deletedBy := Some(agentId)), DeleteUser(uid, pref));
      } else {
        MoveEffect(s, p, t);
      }
    case DeleteUser(uid, _) =>
      if uid in s.users {
        FlagUserEffect(s, p, Finished);
      } else {
        MoveEffect(s, p, t);
      }
    case _ =>
      if t != s {
        MoveEffect(s, p, t);
      }
  }

  lemma UpdateEffect(s: State, p: Pid, id: Id)
    requires p in s.reqs
    ensures Effect(s, p, UpdateStep(s, p, id))
  {
    var t := UpdateStep(s, p, id);
    SameEffect(s, p);
    match s.reqs[p]
    case UpdateUser(uid, pref, newEmail, newTheme) =>
      if t.users != s.users {
        UserWriteEffect(s, p, uid, s.users[uid].(email := newEmail.value), UpdateReadBack(uid, pref, newTheme));
      } else {
        MoveEffect(s, p, Goto(s, p, t.reqs[p]));
      }
    case UpdatePreference(uid, pref, newTheme) =>
      if t.prefs != s.prefs {
        PreferenceWriteEffect(s, p, pref, s.prefs[pref].(theme := newTheme), UpdatePreferenceReadBack(uid, pref));
      } else {
        MoveEffect(s, p, Goto(s, p, t.reqs[p]));
      }
    case _ =>
      if t != s {
        MoveEffect(s, p, t);
      }
  }

  lemma AnswerEffect(s: State, p: Pid)
    requires p in s.reqs
    ensures Effect(s, p, AnswerStep(s, p))
  {}

  lemma StepEffect(s: State, p: Pid, id: Id)
    requires p in s.reqs && RequestOk(s, p, s.reqs[p])
    ensures var t := Apply(s, Step(p, id));
            && Effect(s, p, t)
            && forall u | Carries(s.reqs[p], u) && LiveUser(t, u) :: Carries(t.reqs[p], u) || HasLivePreference(t, u)
  {
    CreateEffect(s, p, id);
    DeleteEffect(s, p, id);
    UpdateEffect(s, p, id);
    AnswerEffect(s, p);
    StepKinds(s, p, id);
  }

  lemma EffectKeepsServed(s: State, p: Pid, t: State, u: Id)
    requires p in s.reqs && Effect(s, p, t) && RequestOk(s, p, s.reqs[p]) && Served(s, u)
    requires Carries(s.reqs[p], u) ==> Carries(t.reqs[p], u) || HasLivePreference(t, u)
    ensures Served(t, u)
  {
    if q :| q in s.prefs && LivePreference(s, q, u) {
      assert LivePreference(t, q, u) || Carries(t.reqs[p], u);
    } else {
      var q :| q in s.reqs && Carries(s.reqs[q], u);
      if q != p {
        assert q in t.reqs && Carries(t.reqs[q], u);
      }
    }
  }

  lemma StepKeepsServed(s: State, p: Pid, id: Id)
    requires p in s.reqs && RequestOk(s, p, s.reqs[p]) && AllServed(s)
    ensures AllServed(Apply(s, Step(p, id)))
  {
    var t := Apply(s, Step(p, id));
    StepEffect(s, p, id);
    ApplyIsLater(s, Step(p, id));
    forall u | LiveUser(t, u) ensures Served(t, u) {
      if u in s.users {
        assert LiveUser(s, u);
        EffectKeepsServed(s, p, t, u);
      } else {
        assert Carries(t.reqs[p], u);
      }
    }
  }

  lemma StartKeepsServed(s: State, p: Pid, r: Request)
    requires AllServed(s)
    ensures AllServed(Apply(s, Start(p, r)))
  {
    var t := Apply(s, Start(p, r));
    forall u | LiveUser(t, u) ensures Served(t, u) {
      assert LiveUser(s, u);
      if q :| q in s.prefs && LivePreference(s, q, u) {
        assert LivePreference(t, q, u);
      } else {
        var q :| q in s.reqs && Carries(s.reqs[q], u);
        assert q in t.reqs && Carries(t.reqs[q], u);
      }
    }
  }

  lemma ApplyKeepsServed(s: State, a: Action)
    requires Inv(s) && AllServed(s) && !a.Crash?
    ensures AllServed(Apply(s, a))
  {
    match a
    case Start(p, r) => StartKeepsServed(s, p, r);
    case Step(p, id) =>
      if p in s.reqs {
        assert RequestOk(s, p, s.reqs[p]);
        StepKeepsServed(s, p, id);
      }
  }

  /** Another request carries every live user that p carries. */
  ghost predicate SafeToCrash(s: State, p: Pid)
    requires p in s.reqs
  {
    forall u | LiveUser(s, u) && Carries(s.reqs[p], u) ::
      exists q :: q in s.reqs && q != p && Carries(s.reqs[q], u)
  }

  /** A user some request carries has no live preference: it is not inserted yet, or flagged already. */
  lemma CarriedIsUnserved(s: State, p: Pid, u: Id)
    requires Inv(s) && p in s.reqs && Carries(s.reqs[p], u)
    ensures !HasLivePreference(s, u)
  {
    assert RequestOk(s, p, s.reqs[p]);
  }

  /** Two states with the same tables. */
  lemma SameTables(s: State, t: State, u: Id)
    requires s.users == t.users && s.prefs == t.prefs
    ensures LiveUser(t, u) <==> LiveUser(s, u)
    ensures HasLivePreference(t, u) <==> HasLivePreference(s, u)
  {
    if q :| q in s.prefs && LivePreference(s, q, u) {
      assert LivePreference(t, q, u);
    }
    if q :| q in t.prefs && LivePreference(t, q, u) {
      assert LivePreference(s, q, u);
    }
  }

  lemma CrashChanges(s: State, p: Pid, u: Id)
    requires p in s.reqs
    ensures var t := Apply(s, Crash(p));
            && t.users == s.users && t.prefs == s.prefs && t.reqs.Keys == s.reqs.Keys
            && (forall q | q in s.reqs && q != p :: t.reqs[q] == s.reqs[q]) && !Carries(t.reqs[p], u)
  {}

  lemma CrashShowsSafe(s: State, p: Pid, u: Id)
    requires Inv(s) && p in s.reqs && Carries(s.reqs[p], u) && Served(Apply(s, Crash(p)), u)
    ensures exists q :: q in s.reqs && q != p && Carries(s.reqs[q], u)
  {
    var t := Apply(s, Crash(p));
    CarriedIsUnserved(s, p, u);
    CrashChanges(s, p, u);
    SameTables(s, t, u);
    var q :| q in t.reqs && Carries(t.reqs[q], u);
    assert q in s.reqs && q != p && Carries(s.reqs[q], u);
  }

  lemma CrashKeepsServed(s: State, p: Pid, u: Id)
    requires p in s.reqs && SafeToCrash(s, p) && LiveUser(s, u) && Served(s, u)
    ensures Served(Apply(s, Crash(p)), u)
  {
    var t := Apply(s, Crash(p));
    CrashChanges(s, p, u);
    SameTables(s, t, u);
    if !HasLivePreference(s, u) {
      var q :| q in s.reqs && Carries(s.reqs[q], u);
      if q == p {
        q :| q in s.reqs && q != p && Carries(s.reqs[q], u);
      }
      assert q in t.reqs && Carries(t.reqs[q], u);
    }
  }

  /** A crash leaves every live user served exactly when no live user hung on the crashed request. */
  lemma CrashServesIff(s: State, p: Pid)
    requires Inv(s) && AllServed(s) && p in s.reqs
    ensures AllServed(Apply(s, Crash(p))) <==> SafeToCrash(s, p)
  {
    var t := Apply(s, Crash(p));
    if AllServed(t) {
      forall u | LiveUser(s, u) && Carries(s.reqs[p], u)
        ensures exists q :: q in s.reqs && q != p && Carries(s.reqs[q], u)
      {
        CrashChanges(s, p, u);
        assert LiveUser(t, u);
        CrashShowsSafe(s, p, u);
      }
    }
    if SafeToCrash(s, p) {
      forall u | LiveUser(t, u) ensures Served(t, u) {
        CrashChanges(s, p, u);
        CrashKeepsServed(s, p, u);
      }
    }
  }

  /** All served after the run and at every moment before. */
  ghost predicate AlwaysServed(actions: seq<Action>) {
    forall k | 0 <= k <= |actions| :: AllServed(Run(actions[..k]))
  }

  /** Whether the i-th action crashes a request that some live user hangs on. */
  ghost predicate CrashesSafelyAt(actions: seq<Action>, i: nat)
    requires i < |actions|
  {
    var s := Run(actions[..i]);
    actions[i].Crash? && actions[i].p in s.reqs ==> SafeToCrash(s, actions[i].p)
  }

  ghost predicate CrashesSafely(actions: seq<Action>) {
    forall i | 0 <= i < |actions| :: CrashesSafelyAt(actions, i)
  }

  lemma AlwaysServedSnoc(before: seq<Action>, a: Action)
    ensures AlwaysServed(before + [a]) <==> AlwaysServed(before) && AllServed(Run(before + [a]))
  {
    var actions := before + [a];
    assert forall k | 0 <= k <= |before| :: actions[..k] == before[..k];
    assert actions[..|actions|] == actions;
    if AlwaysServed(actions) {
      forall k | 0 <= k <= |before| ensures AllServed(Run(before[..k])) {
        assert AllServed(Run(actions[..k]));
      }
      assert AllServed(Run(actions[..|actions|]));
    }
  }

  lemma CrashesSafelySnoc(before: seq<Action>, a: Action)
    ensures CrashesSafely(before + [a]) <==>
            CrashesSafely(before) && (a.Crash? && a.p in Run(before).reqs ==> SafeToCrash(Run(before), a.p))
  {
    var actions := before + [a];
    assert forall i | 0 <= i < |before| :: actions[..i] == before[..i];
    assert actions[..|before|] == before;
    if CrashesSafely(actions) {
      forall i | 0 <= i < |before| ensures CrashesSafelyAt(before, i) {
        assert CrashesSafelyAt(actions, i);
      }
      assert CrashesSafelyAt(actions, |before|);
    } else {
      var i :| 0 <= i < |actions| && !CrashesSafelyAt(actions, i);
      assert i < |before| ==> !CrashesSafelyAt(before, i);
    }
  }

  /** Over a whole run every live user is served at every moment, that is, has a live preference or
      a request still about to insert it or to delete the user, exactly when no request crashes that
      some live user hangs on. */
  lemma {:induction false} RunsServeIff(actions: seq<Action>)
    ensures AlwaysServed(actions) <==> CrashesSafely(actions)
  {
    if actions == [] {
      assert actions[..0] == [];
    } else {
      var before, a := actions[..|actions| - 1], actions[|actions| - 1];
      assert actions == before + [a];
      RunsServeIff(before);
      AlwaysServedSnoc(before, a);
      CrashesSafelySnoc(before, a);
      RunKeepsInv(before);
      if AlwaysServed(before) {
        assert AllServed(Run(before[..|before|])) && before[..|before|] == before;
        if a.Crash? {
          if a.p in Run(before).reqs {
            CrashServesIff(Run(before), a.p);
          }
        } else {
          ApplyKeepsServed(Run(before), a);
        }
      }
    }
  }

  /** In particular a run without crashes serves everyone. */
  lemma CrashFreeRunsServeAll(actions: seq<Action>)
    requires forall a | a in actions :: !a.Crash?
    ensures AllServed(Run(actions))
  {
    RunsServeIff(actions);
    assert AllServed(Run(actions[..|actions|])) && actions[..|actions|] == actions;
  }

  /** Past its reads on behalf of u. */
  predicate WorksOn(r: Request, u: Id) {
    Carries(r, u) || (r.DeletePreference? && r.uid == u)
  }

  /** No request is past its reads on behalf of u. */
  ghost predicate Untouched(s: State, u: Id) {
    forall p | p in s.reqs :: !WorksOn(s.reqs[p], u)
  }

  /** Live, without a live preference, and with no request left that will change either. */
  ghost predicate Stranded(s: State, u: Id) {
    LiveUser(s, u) && !HasLivePreference(s, u) && Untouched(s, u)
  }

  lemma StepKeepsStranded(s: State, p: Pid, id: Id, u: Id)
    requires p in s.reqs && RequestOk(s, p, s.reqs[p]) && Stranded(s, u)
    ensures Stranded(Apply(s, Step(p, id)), u)
  {
    var t := Apply(s, Step(p, id));
    StepEffect(s, p, id);
    ApplyIsLater(s, Step(p, id));
    NotTakenUp(s, p, id, u);
    forall q | q in t.prefs ensures !LivePreference(t, q, u) {
      if q in s.prefs {
        assert !LivePreference(s, q, u);
      }
    }
  }

  lemma CreateTakesNoneUp(s: State, p: Pid, id: Id, u: Id)
    requires p in s.reqs && LiveUser(s, u) && !WorksOn(s.reqs[p], u)
    ensures !WorksOn(CreateStep(s, p, id).reqs[p], u)
  {}

  lemma DeleteTakesNoneUp(s: State, p: Pid, id: Id, u: Id)
    requires p in s.reqs && !HasLivePreference(s, u) && !WorksOn(s.reqs[p], u)
    ensures !WorksOn(DeleteStep(s, p, id).reqs[p], u)
  {}

  lemma UpdateReadTakesNoneUp(s: State, p: Pid, id: Id, u: Id)
    requires p in s.reqs && !WorksOn(s.reqs[p], u) && !s.reqs[p].UpdateUser? && !s.reqs[p].UpdatePreference?
    ensures !WorksOn(UpdateStep(s, p, id).reqs[p], u)
  {}

  lemma UpdateUserTakesNoneUp(s: State, p: Pid, id: Id, u: Id)
    requires p in s.reqs && s.reqs[p].UpdateUser?
    ensures !WorksOn(UpdateStep(s, p, id).reqs[p], u)
  {}

  lemma UpdatePreferenceTakesNoneUp(s: State, p: Pid, id: Id, u: Id)
    requires p in s.reqs && s.reqs[p].UpdatePreference?
    ensures !WorksOn(UpdateStep(s, p, id).reqs[p], u)
  {}

  lemma UpdateTakesNoneUp(s: State, p: Pid, id: Id, u: Id)
    requires p in s.reqs && !WorksOn(s.reqs[p], u)
    ensures !WorksOn(UpdateStep(s, p, id).reqs[p], u)
  {
    if s.reqs[p].UpdateUser? {
      UpdateUserTakesNoneUp(s, p, id, u);
    } else if s.reqs[p].UpdatePreference? {
      UpdatePreferenceTakesNoneUp(s, p, id, u);
    } else {
      UpdateReadTakesNoneUp(s, p, id, u);
    }
  }

  lemma AnswerTakesNoneUp(s: State, p: Pid, u: Id)
    requires p in s.reqs && !WorksOn(s.reqs[p], u)
    ensures !WorksOn(AnswerStep(s, p).reqs[p], u)
  {}

  /** A request takes a user up only by inserting the row or by finding its live preference. */
  lemma NotTakenUp(s: State, p: Pid, id: Id, u: Id)
    requires p in s.reqs && LiveUser(s, u) && !HasLivePreference(s, u) && !WorksOn(s.reqs[p], u)
    ensures !WorksOn(Apply(s, Step(p, id)).reqs[p], u)
  {
    CreateTakesNoneUp(s, p, id, u);
    DeleteTakesNoneUp(s, p, id, u);
    UpdateTakesNoneUp(s, p, id, u);
    AnswerTakesNoneUp(s, p, u);
    StepKinds(s, p, id);
  }

  lemma StartOrCrashKeepsStranded(s: State, a: Action, u: Id)
    requires Stranded(s, u) && !a.Step?
    ensures Stranded(Apply(s, a), u)
  {
    SameTables(s, Apply(s, a), u);
  }

  lemma ApplyKeepsStranded(s: State, a: Action, u: Id)
    requires Inv(s) && Stranded(s, u)
    ensures Stranded(Apply(s, a), u)
  {
    if !a.Step? {
      StartOrCrashKeepsStranded(s, a, u);
    } else if a.p in s.reqs {
      assert RequestOk(s, a.p, s.reqs[a.p]);
      StepKeepsStranded(s, a.p, a.id, u);
    }
  }

  /** Every later delete or update of a stranded user is refused at its reads: it stays so for good. */
  lemma {:induction false} StrandedForGood(s: State, actions: seq<Action>, u: Id)
    requires Inv(s) && Stranded(s, u)
    ensures Stranded(Exec(s, actions), u)
  {
    if actions != [] {
      var before := actions[..|actions| - 1];
      StrandedForGood(s, before, u);
      ExecKeepsInv(s, before);
      ApplyKeepsStranded(Exec(s, before), actions[|actions| - 1], u);
    }
  }

  lemma ExecFive(s: State, a: Action, b: Action, c: Action, d: Action, e: Action)
    ensures Exec(s, [a, b, c, d, e]) == Apply(Apply(Apply(Apply(Apply(s, a), b), c), d), e)
  {
    assert [a, b, c, d, e][..4] == [a, b, c, d] && [a, b, c, d][..3] == [a, b, c];
    assert [a, b, c][..2] == [a, b] && [a, b][..1] == [a] && [a][..0] == [];
    assert Exec(s, [a]) == Apply(Exec(s, []), a);
    assert Exec(s, [a, b, c]) == Apply(Apply(Apply(s, a), b), c);
  }

  lemma FreshIdIsUntouched(s: State, u: Id)
    requires Inv(s) && u !in s.users
    ensures Untouched(s, u)
  {
    forall p | p in s.reqs ensures !WorksOn(s.reqs[p], u) {
      assert RequestOk(s, p, s.reqs[p]);
    }
  }

  lemma CreateReachesInsert(s: State, p: Pid, uid: Id, request: Request)
    requires p !in s.reqs && request.CreateLookup? && Truthy(request.agent.clientId) && request.password != ""
    requires uid !in s.users && uid != "" && !EmailTaken(s, request.email, None)
    ensures Apply(Apply(Apply(Apply(s, Start(p, request)), Step(p, "")), Step(p, "")), Step(p, uid)) ==
            Goto(s.(users := s.users[uid := User(request.email, false, None, p)]), p,
                 CreateInsertPreference(uid, request.theme))
  {
    var CreateLookup(email, password, theme, agent) := request;
    assert !EmailFound(s, email) by {
      assert forall u | u in s.users :: Some(u) != None;
    }
    var s1 := Apply(s, Start(p, request));
    assert s1 == Goto(s, p, request);
    var s2 := Apply(s1, Step(p, ""));
    assert s2 == Goto(s, p, CreateRecheck(email, password, theme));
    var s3 := Apply(s2, Step(p, ""));
    assert s3 == Goto(s, p, CreateInsertUser(email, theme));
    assert !EmailTaken(s3, email, None);
  }

  /** In any consistent state, a create that crashes between its two inserts strands its user. */
  lemma CrashedCreateStrands(s: State, p: Pid, uid: Id, request: Request)
    requires Inv(s) && p !in s.reqs && request.CreateLookup? && Truthy(request.agent.clientId) && request.password != ""
    requires uid !in s.users && uid != "" && !EmailTaken(s, request.email, None)
    ensures Stranded(Exec(s, [Start(p, request), Step(p, ""), Step(p, ""), Step(p, uid), Crash(p)]), uid)
  {
    ExecFive(s, Start(p, request), Step(p, ""), Step(p, ""), Step(p, uid), Crash(p));
    CreateReachesInsert(s, p, uid, request);
    InsertedStrands(s, p, uid, request.email);
    CrashAfter(s.(users := s.users[uid := User(request.email, false, None, p)]), p,
               CreateInsertPreference(uid, request.theme));
  }

  lemma InsertedStrands(s: State, p: Pid, uid: Id, email: string)
    requires Inv(s) && p !in s.reqs && uid !in s.users
    ensures Stranded(Goto(s.(users := s.users[uid := User(email, false, None, p)]), p, Crashed), uid)
  {
    FreshIdIsUntouched(s, uid);
    assert forall q | q in s.prefs :: s.prefs[q].userId != uid;
  }

  lemma DeleteReachesStamp(s: State, p: Pid, uid: Id, pref: Id, agent: Agent)
    requires p !in s.reqs && LiveUser(s, uid) && LivePreference(s, pref, uid)
    requires Truthy(agent.clientId) && IsAllowedToManageUser(agent, uid, s.users[uid].email)
    ensures var read := Apply(Apply(Apply(s, Start(p, DeleteReadUser(uid, agent))), Step(p, "")), Step(p, pref));
            Apply(read, Step(p, "")) ==
            Goto(s.(prefs := s.prefs[pref := s.prefs[pref].(deleted := true)]), p, DeleteStamp(uid, pref, uid))
  {
    var s1 := Apply(s, Start(p, DeleteReadUser(uid, agent)));
    var s2 := Apply(s1, Step(p, ""));
    assert s2 == Goto(s, p, DeleteReadPreference(uid, agent, s.users[uid].email));
    assert LivePreference(s2, pref, uid);
    var s3 := Apply(s2, Step(p, pref));
    assert s3 == Goto(s, p, DeletePreference(uid, pref, uid));
  }

  /** In any consistent state, a permitted delete that crashes after flagging the preference strands
      its user, unless another request is at work on that user. */
  lemma CrashedDeleteStrands(s: State, p: Pid, uid: Id, pref: Id, agent: Agent)
    requires Inv(s) && p !in s.reqs && LiveUser(s, uid) && LivePreference(s, pref, uid) && Untouched(s, uid)
    requires Truthy(agent.clientId) && IsAllowedToManageUser(agent, uid, s.users[uid].email)
    ensures var actions := [Start(p, DeleteReadUser(uid, agent)), Step(p, ""), Step(p, pref), Step(p, ""), Crash(p)];
            Stranded(Exec(s, actions), uid)
  {
    ExecFive(s, Start(p, DeleteReadUser(uid, agent)), Step(p, ""), Step(p, pref), Step(p, ""), Crash(p));
    DeleteReachesStamp(s, p, uid, pref, agent);
    FlaggedStrands(s, p, uid, pref);
    var flagged := s.(prefs := s.prefs[pref := s.prefs[pref].(deleted := true)]);
    CrashAfter(flagged, p, DeleteStamp(uid, pref, uid));
  }

  lemma CrashAfter(s: State, p: Pid, r: Request)
    requires !IsOver(r)
    ensures Apply(Goto(s, p, r), Crash(p)) == Goto(s, p, Crashed)
  {}

  lemma FlaggedStrands(s: State, p: Pid, uid: Id, pref: Id)
    requires TablesOk(s) && p !in s.reqs && LiveUser(s, uid) && IsPreferenceOf(s, pref, uid) && Untouched(s, uid)
    ensures Stranded(Goto(s.(prefs := s.prefs[pref := s.prefs[pref].(deleted := true)]), p, Crashed), uid)
  {}
}
