/** Creating, deleting and updating users as interleaved requests over two tables. Each request is
    a program counter with the values it has read so far; every store call is one atomic step, and
    a request may stop for good between any two of them. */
module UserLifecycle {
  import opened Options

  type Id = string
  type Pid = nat

  /** deletedAt is kept as a flag; creator is the request that inserted the row. */
  datatype User = User(email: string, deleted: bool, deletedBy: Option<Id>, creator: Pid)
  datatype Preference = Preference(userId: Id, theme: Option<string>, deleted: bool, creator: Pid)

  datatype Agent = Agent(clientId: Option<Id>, username: Option<string>)

  /** Rejected requests were turned down before they inserted anything; Failed ones answer with an
      error after a write, as when a row they read back was soft-deleted meanwhile. */
  datatype Request =
    | CreateLookup(email: string, password: string, theme: Option<string>, agent: Agent)
    | CreateRecheck(email: string, password: string, theme: Option<string>)
    | CreateInsertUser(email: string, theme: Option<string>)
    | CreateInsertPreference(uid: Id, theme: Option<string>)
    | DeleteReadUser(id: Id, agent: Agent)
    | DeleteReadPreference(id: Id, agent: Agent, email: string)
    | DeletePreference(uid: Id, pref: Id, agentId: Id)
    | DeleteStamp(uid: Id, pref: Id, agentId: Id)
    | DeleteUser(uid: Id, pref: Id)
    | UpdateReadUser(id: Id, agent: Agent, newEmail: Option<string>, newTheme: Option<string>)
    | UpdateReadPreference(id: Id, agent: Agent, email: string, newEmail: Option<string>, newTheme: Option<string>)
    | UpdateUser(uid: Id, pref: Id, newEmail: Option<string>, newTheme: Option<string>)
    | UpdateReadBack(uid: Id, pref: Id, newTheme: Option<string>)
    | UpdatePreference(uid: Id, pref: Id, newTheme: Option<string>)
    | UpdatePreferenceReadBack(uid: Id, pref: Id)
    | AnswerReadUser(uid: Id)
    | AnswerReadPreference(uid: Id)
    | Finished | Rejected | Failed | Crashed

  predicate IsStart(r: Request) {
    r.CreateLookup? || r.DeleteReadUser? || r.UpdateReadUser?
  }

  predicate IsOver(r: Request) {
    r.Finished? || r.Rejected? || r.Failed?
  }

  datatype State = State(users: map<Id, User>, prefs: map<Id, Preference>, reqs: map<Pid, Request>)

  /** id is what the step finds or draws from outside: the generated key of an insert, the row a
      lookup by user returns, or, for an update, empty when the comparison found nothing to write. */
  datatype Action =
    | Start(p: Pid, request: Request)
    | Step(p: Pid, id: Id)
    | Crash(p: Pid)

  const INIT := State(map[], map[], map[])

  // ---------- what the steps read ----------

  predicate Truthy(o: Option<string>) {
    o.Some? && o.value != ""
  }

  predicate LiveUser(s: State, uid: Id) {
    uid in s.users && !s.users[uid].deleted
  }

  predicate IsPreferenceOf(s: State, pref: Id, uid: Id) {
    pref in s.prefs && s.prefs[pref].userId == uid
  }

  predicate LivePreference(s: State, pref: Id, uid: Id) {
    IsPreferenceOf(s, pref, uid) && !s.prefs[pref].deleted
  }

  predicate HasLivePreference(s: State, uid: Id) {
    exists pref | pref in s.prefs :: LivePreference(s, pref, uid)
  }

  /** A find by e-mail skips soft-deleted rows; the unique column does not. */
  predicate EmailFound(s: State, email: string) {
    exists u | u in s.users :: s.users[u].email == email && !s.users[u].deleted
  }

  predicate EmailTaken(s: State, email: string, except: Option<Id>) {
    exists u | u in s.users :: s.users[u].email == email && Some(u) != except
  }

  predicate IsAllowedToManageUser(agent: Agent, uid: Id, email: string) {
    agent.username == Some(email) && agent.clientId == Some(uid)
  }

  // ---------- the steps ----------

  function Goto(s: State, p: Pid, r: Request): State {
    s.(reqs := s.reqs[p := r])
  }

  function CreateStep(s: State, p: Pid, id: Id): State
    requires p in s.reqs
  {
    match s.reqs[p]
    case CreateLookup(email, password, theme, agent) =>
      Goto(s, p, if !Truthy(agent.clientId) || EmailFound(s, email) then Rejected
        else CreateRecheck(email, password, theme))
    case CreateRecheck(email, password, theme) =>
      Goto(s, p, if password == "" || EmailFound(s, email) then Rejected else CreateInsertUser(email, theme))
    case CreateInsertUser(email, theme) =>
      if id in s.users || id == "" then s
      else if EmailTaken(s, email, None) then Goto(s, p, Rejected)
      else Goto(s.(users := s.users[id := User(email, false, None, p)]), p, CreateInsertPreference(id, theme))
    case CreateInsertPreference(uid, theme) =>
      if id in s.prefs || id == "" then s
      else if uid !in s.users || (exists q | q in s.prefs :: IsPreferenceOf(s, q, uid)) then Goto(s, p, Failed)
      else Goto(s.(prefs := s.prefs[id := Preference(uid, theme, false, p)]), p, AnswerReadUser(uid))
    case _ => s
  }

  function DeleteStep(s: State, p: Pid, id: Id): State
    requires p in s.reqs
  {
    match s.reqs[p]
    case DeleteReadUser(uid, agent) =>
      Goto(s, p, if Truthy(agent.clientId) && LiveUser(s, uid)
        then DeleteReadPreference(uid, agent, s.users[uid].email) else Rejected)
    case DeleteReadPreference(uid, agent, email) =>
      if !HasLivePreference(s, uid) then Goto(s, p, Rejected)
      else if !LivePreference(s, id, uid) then s
      else Goto(s, p, if IsAllowedToManageUser(agent, uid, email)
        then DeletePreference(uid, id, agent.clientId.value) else Rejected)
    case DeletePreference(uid, pref, agentId) =>
      if pref !in s.prefs then Goto(s, p, DeleteStamp(uid, pref, agentId))
      else Goto(s.(prefs := s.prefs[pref := s.prefs[pref].(deleted := true)]), p, DeleteStamp(uid, pref, agentId))
    case DeleteStamp(uid, pref, agentId) =>
      if uid !in s.users then Goto(s, p, DeleteUser(uid, pref))
      else Goto(s.(users := s.users[uid := s.users[uid].(deletedBy := Some(agentId))]), p, DeleteUser(uid, pref))
    case DeleteUser(uid, pref) =>
      if uid !in s.users then Goto(s, p, Failed)
      else Goto(s.(users := s.users[uid := s.users[uid].(deleted := true)]), p, Finished)
    case _ => s
  }

  function UpdateStep(s: State, p: Pid, id: Id): State
    requires p in s.reqs
  {
    match s.reqs[p]
    case UpdateReadUser(uid, agent, newEmail, newTheme) =>
      Goto(s, p, if Truthy(agent.clientId) && LiveUser(s, uid)
        then UpdateReadPreference(uid, agent, s.users[uid].email, newEmail, newTheme) else Rejected)
    case UpdateReadPreference(uid, agent, email, newEmail, newTheme) =>
      if !HasLivePreference(s, uid) then Goto(s, p, Rejected)
      else if !LivePreference(s, id, uid) then s
      else Goto(s, p, if IsAllowedToManageUser(agent, uid, email)
        then UpdateUser(uid, id, newEmail, newTheme) else Rejected)
    case UpdateUser(uid, pref, newEmail, newTheme) =>
      if id == "" then Goto(s, p, UpdatePreference(uid, pref, newTheme))
      else if newEmail.None? || uid !in s.users then Goto(s, p, UpdateReadBack(uid, pref, newTheme))
      else if EmailTaken(s, newEmail.value, Some(uid)) then Goto(s, p, Rejected)
      else Goto(s.(users := s.users[uid := s.users[uid].(email := newEmail.value)]), p,
        UpdateReadBack(uid, pref, newTheme))
    case UpdateReadBack(uid, pref, newTheme) =>
      Goto(s, p, if LiveUser(s, uid) then UpdatePreference(uid, pref, newTheme) else Failed)
    case UpdatePreference(uid, pref, newTheme) =>
      if id == "" then Goto(s, p, AnswerReadUser(uid))
      else if newTheme.None? || pref !in s.prefs then Goto(s, p, UpdatePreferenceReadBack(uid, pref))
      else Goto(s.(prefs := s.prefs[pref := s.prefs[pref].(theme := newTheme)]), p,
        UpdatePreferenceReadBack(uid, pref))
    case UpdatePreferenceReadBack(uid, pref) =>
      Goto(s, p, if pref in s.prefs && !s.prefs[pref].deleted then AnswerReadUser(uid) else Failed)
    case _ => s
  }

  /** The two reads of the rows to answer with, at the end of a create and of an update. */
  function AnswerStep(s: State, p: Pid): State
    requires p in s.reqs
  {
    match s.reqs[p]
    case AnswerReadUser(uid) => Goto(s, p, if LiveUser(s, uid) then AnswerReadPreference(uid) else Failed)
    case AnswerReadPreference(uid) => Goto(s, p, if HasLivePreference(s, uid) then Finished else Failed)
    case _ => s
  }

  function Apply(s: State, a: Action): State {
    match a
    case Start(p, r) => if p in s.reqs || !IsStart(r) then s else Goto(s, p, r)
    case Crash(p) => if p in s.reqs && !IsOver(s.reqs[p]) then Goto(s, p, Crashed) else s
    case Step(p, id) =>
      if p !in s.reqs then s
      else match s.reqs[p]
        case CreateLookup(_, _, _, _) | CreateRecheck(_, _, _) | CreateInsertUser(_, _)
             | CreateInsertPreference(_, _) =>
          CreateStep(s, p, id)
        case DeleteReadUser(_, _) | DeleteReadPreference(_, _, _) | DeletePreference(_, _, _)
             | DeleteStamp(_, _, _) | DeleteUser(_, _) =>
          DeleteStep(s, p, id)
        case UpdateReadUser(_, _, _, _) | UpdateReadPreference(_, _, _, _, _) | UpdateUser(_, _, _, _)
             | UpdateReadBack(_, _, _) | UpdatePreference(_, _, _) | UpdatePreferenceReadBack(_, _) =>
          UpdateStep(s, p, id)
        case AnswerReadUser(_) | AnswerReadPreference(_) => AnswerStep(s, p)
        case _ => s
  }

  function Exec(s: State, actions: seq<Action>): State {
    if actions == [] then s else Apply(Exec(s, actions[..|actions| - 1]), actions[|actions| - 1])
  }

  function Run(actions: seq<Action>): State {
    Exec(INIT, actions)
  }

  // ---------- the invariant ----------

  ghost predicate TablesOk(s: State) {
    && (forall u, v | u in s.users && v in s.users && s.users[u].email == s.users[v].email :: u == v)
    && (forall q, r | q in s.prefs && r in s.prefs && s.prefs[q].userId == s.prefs[r].userId :: q == r)
    && (forall u | u in s.users :: s.users[u].creator in s.reqs)
    && (forall q | q in s.prefs ::
          s.prefs[q].userId in s.users && s.users[s.prefs[q].userId].creator == s.prefs[q].creator)
  }

  /** The two properties the write order is for. */
  ghost predicate Audited(s: State) {
    forall u | u in s.users && s.users[u].deleted :: s.users[u].deletedBy == Some(u)
  }

  ghost predicate Referential(s: State) {
    forall q | q in s.prefs && !s.prefs[q].deleted :: LiveUser(s, s.prefs[q].userId)
  }

  predicate HasInsertedNothing(r: Request) {
    && !r.CreateInsertPreference? && !r.AnswerReadUser? && !r.AnswerReadPreference?
    && !r.Finished? && !r.Failed? && !r.Crashed?
  }

  /** What a request relies on between two of its steps. */
  ghost predicate RequestOk(s: State, p: Pid, r: Request) {
    && (HasInsertedNothing(r) ==> NoRowBy(s, p))
    && match r
       case CreateInsertPreference(uid, _) =>
         LiveUser(s, uid) && s.users[uid].creator == p && forall q | q in s.prefs :: s.prefs[q].userId != uid
       case DeletePreference(uid, pref, agentId) => IsPreferenceOf(s, pref, uid) && agentId == uid
       case DeleteStamp(uid, pref, agentId) => IsPreferenceOf(s, pref, uid) && s.prefs[pref].deleted && agentId == uid
       case DeleteUser(uid, pref) =>
         IsPreferenceOf(s, pref, uid) && s.prefs[pref].deleted && uid in s.users && s.users[uid].deletedBy == Some(uid)
       case UpdateUser(uid, pref, _, _) => IsPreferenceOf(s, pref, uid)
       case _ => true
  }

  ghost predicate NoRowBy(s: State, p: Pid) {
    forall u | u in s.users :: s.users[u].creator != p
  }

  ghost predicate OthersOk(s: State, p: Pid) {
    forall q | q in s.reqs && q != p :: RequestOk(s, q, s.reqs[q])
  }

  ghost predicate Inv(s: State) {
    && TablesOk(s) && Audited(s) && Referential(s)
    && forall p | p in s.reqs :: RequestOk(s, p, s.reqs[p])
  }

  // ---------- every step keeps it ----------

  /** A step writes to the tables on behalf of p and then moves p on. */
  lemma GotoKeepsInv(s: State, p: Pid, r: Request)
    requires p in s.reqs && TablesOk(s) && Audited(s) && Referential(s) && OthersOk(s, p) && RequestOk(s, p, r)
    ensures Inv(Goto(s, p, r))
  {
    var t := Goto(s, p, r);
    forall q | q in t.reqs ensures RequestOk(t, q, t.reqs[q]) {
      assert RequestOk(s, q, t.reqs[q]);
      RequestOkByTables(s, t, q, t.reqs[q]);
    }
  }

  lemma RequestOkByTables(s: State, t: State, p: Pid, r: Request)
    requires s.users == t.users && s.prefs == t.prefs && RequestOk(s, p, r)
    ensures RequestOk(t, p, r)
  {}

  lemma InsertUserKeepsInv(s: State, p: Pid, id: Id, email: string, theme: Option<string>)
    requires Inv(s) && p in s.reqs && s.reqs[p] == CreateInsertUser(email, theme)
    requires id !in s.users && !EmailTaken(s, email, None)
    ensures Inv(Goto(s.(users := s.users[id := User(email, false, None, p)]), p, CreateInsertPreference(id, theme)))
  {
    var t := s.(users := s.users[id := User(email, false, None, p)]);
    InsertUserKeepsTables(s, p, id, email);
    forall q | q in t.reqs && q != p ensures RequestOk(t, q, t.reqs[q]) {
      InsertUserKeepsRequest(s, p, id, email, q, s.reqs[q]);
    }
    GotoKeepsInv(t, p, CreateInsertPreference(id, theme));
  }

  lemma InsertUserKeepsTables(s: State, p: Pid, id: Id, email: string)
    requires TablesOk(s) && Audited(s) && Referential(s) && p in s.reqs && id !in s.users && !EmailTaken(s, email, None)
    ensures var t := s.(users := s.users[id := User(email, false, None, p)]);
            TablesOk(t) && Audited(t) && Referential(t) && forall q | q in t.prefs :: t.prefs[q].userId != id
  {
    var t := s.(users := s.users[id := User(email, false, None, p)]);
    forall w | w in s.users ensures s.users[w].email != email {
      assert Some(w) != None;
    }
  }

  lemma InsertUserKeepsRequest(s: State, p: Pid, id: Id, email: string, q: Pid, r: Request)
    requires RequestOk(s, q, r) && q != p && id !in s.users
    ensures RequestOk(s.(users := s.users[id := User(email, false, None, p)]), q, r)
  {}

  lemma InsertPreferenceKeepsInv(s: State, p: Pid, id: Id, uid: Id, theme: Option<string>)
    requires Inv(s) && p in s.reqs && s.reqs[p] == CreateInsertPreference(uid, theme) && id !in s.prefs
    ensures Inv(Goto(s.(prefs := s.prefs[id := Preference(uid, theme, false, p)]), p, AnswerReadUser(uid)))
  {
    var t := s.(prefs := s.prefs[id := Preference(uid, theme, false, p)]);
    assert RequestOk(s, p, s.reqs[p]);
    forall q | q in t.reqs && q != p ensures RequestOk(t, q, t.reqs[q]) {
      InsertPreferenceKeepsRequest(s, p, id, uid, theme, q, s.reqs[q]);
    }
    InsertPreferenceKeepsTables(s, p, id, uid, theme);
    GotoKeepsInv(t, p, AnswerReadUser(uid));
  }

  lemma InsertPreferenceKeepsTables(s: State, p: Pid, id: Id, uid: Id, theme: Option<string>)
    requires TablesOk(s) && Audited(s) && Referential(s) && id !in s.prefs
    requires LiveUser(s, uid) && s.users[uid].creator == p && forall q | q in s.prefs :: s.prefs[q].userId != uid
    ensures var t := s.(prefs := s.prefs[id := Preference(uid, theme, false, p)]);
            TablesOk(t) && Audited(t) && Referential(t)
  {}

  lemma InsertPreferenceKeepsRequest(s: State, p: Pid, id: Id, uid: Id, theme: Option<string>, q: Pid, r: Request)
    requires RequestOk(s, q, r) && q != p && id !in s.prefs && uid in s.users && s.users[uid].creator == p
    ensures RequestOk(s.(prefs := s.prefs[id := Preference(uid, theme, false, p)]), q, r)
  {}

  lemma FlagPreferenceKeepsTables(s: State, pref: Id)
    requires TablesOk(s) && Audited(s) && Referential(s) && pref in s.prefs
    ensures var t := s.(prefs := s.prefs[pref := s.prefs[pref].(deleted := true)]);
            TablesOk(t) && Audited(t) && Referential(t)
  {}

  lemma FlagPreferenceKeepsOthers(s: State, p: Pid, pref: Id)
    requires OthersOk(s, p) && pref in s.prefs
    ensures OthersOk(s.(prefs := s.prefs[pref := s.prefs[pref].(deleted := true)]), p)
  {
    forall q | q in s.reqs && q != p
      ensures RequestOk(s.(prefs := s.prefs[pref := s.prefs[pref].(deleted := true)]), q, s.reqs[q])
    {
      FlagPreferenceKeepsRequest(s, pref, q, s.reqs[q]);
    }
  }

  lemma FlagPreferenceKeepsInv(s: State, p: Pid, uid: Id, pref: Id, agentId: Id)
    requires Inv(s) && p in s.reqs && s.reqs[p] == DeletePreference(uid, pref, agentId)
    ensures pref in s.prefs
    ensures Inv(Goto(s.(prefs := s.prefs[pref := s.prefs[pref].(deleted := true)]), p, DeleteStamp(uid, pref, agentId)))
  {
    assert RequestOk(s, p, s.reqs[p]);
    FlagPreferenceKeepsTables(s, pref);
    FlagPreferenceKeepsOthers(s, p, pref);
    GotoKeepsInv(s.(prefs := s.prefs[pref := s.prefs[pref].(deleted := true)]), p, DeleteStamp(uid, pref, agentId));
  }

  lemma FlagPreferenceKeepsRequest(s: State, pref: Id, q: Pid, r: Request)
    requires RequestOk(s, q, r) && pref in s.prefs
    ensures RequestOk(s.(prefs := s.prefs[pref := s.prefs[pref].(deleted := true)]), q, r)
  {}

  lemma StampUserKeepsTables(s: State, uid: Id)
    requires TablesOk(s) && Audited(s) && Referential(s) && uid in s.users
    ensures var t := s.(users := s.users[uid := s.users[uid].(deletedBy := Some(uid))]);
            TablesOk(t) && Audited(t) && Referential(t)
  {}

  lemma StampUserKeepsOthers(s: State, p: Pid, uid: Id)
    requires OthersOk(s, p) && uid in s.users
    ensures OthersOk(s.(users := s.users[uid := s.users[uid].(deletedBy := Some(uid))]), p)
  {
    forall q | q in s.reqs && q != p
      ensures RequestOk(s.(users := s.users[uid := s.users[uid].(deletedBy := Some(uid))]), q, s.reqs[q])
    {
      StampUserKeepsRequest(s, uid, q, s.reqs[q]);
    }
  }

  lemma StampUserKeepsInv(s: State, p: Pid, uid: Id, pref: Id, agentId: Id)
    requires Inv(s) && p in s.reqs && s.reqs[p] == DeleteStamp(uid, pref, agentId)
    ensures uid in s.users
    ensures Inv(Goto(s.(users := s.users[uid := s.users[uid].(deletedBy := Some(agentId))]), p, DeleteUser(uid, pref)))
  {
    assert RequestOk(s, p, s.reqs[p]);
    StampUserKeepsTables(s, uid);
    StampUserKeepsOthers(s, p, uid);
    GotoKeepsInv(s.(users := s.users[uid := s.users[uid].(deletedBy := Some(uid))]), p, DeleteUser(uid, pref));
  }

  lemma StampUserKeepsRequest(s: State, uid: Id, q: Pid, r: Request)
    requires RequestOk(s, q, r) && uid in s.users
    ensures RequestOk(s.(users := s.users[uid := s.users[uid].(deletedBy := Some(uid))]), q, r)
  {}

  lemma FlagUserKeepsTables(s: State, uid: Id, pref: Id)
    requires TablesOk(s) && Audited(s) && Referential(s)
    requires IsPreferenceOf(s, pref, uid) && s.prefs[pref].deleted
    requires uid in s.users && s.users[uid].deletedBy == Some(uid)
    ensures var t := s.(users := s.users[uid := s.users[uid].(deleted := true)]);
            TablesOk(t) && Audited(t) && Referential(t)
  {}

  lemma FlagUserKeepsOthers(s: State, p: Pid, uid: Id, pref: Id)
    requires OthersOk(s, p) && uid in s.users && IsPreferenceOf(s, pref, uid)
    ensures OthersOk(s.(users := s.users[uid := s.users[uid].(deleted := true)]), p)
  {
    forall q | q in s.reqs && q != p
      ensures RequestOk(s.(users := s.users[uid := s.users[uid].(deleted := true)]), q, s.reqs[q])
    {
      FlagUserKeepsRequest(s, uid, pref, q, s.reqs[q]);
    }
  }

  lemma FlagUserKeepsInv(s: State, p: Pid, uid: Id, pref: Id)
    requires Inv(s) && p in s.reqs && s.reqs[p] == DeleteUser(uid, pref)
    ensures uid in s.users
    ensures Inv(Goto(s.(users := s.users[uid := s.users[uid].(deleted := true)]), p, Finished))
  {
    assert RequestOk(s, p, s.reqs[p]);
    FlagUserKeepsTables(s, uid, pref);
    FlagUserKeepsOthers(s, p, uid, pref);
    GotoKeepsInv(s.(users := s.users[uid := s.users[uid].(deleted := true)]), p, Finished);
  }

  lemma FlagUserKeepsRequest(s: State, uid: Id, pref: Id, q: Pid, r: Request)
    requires RequestOk(s, q, r) && uid in s.users && IsPreferenceOf(s, pref, uid)
    ensures RequestOk(s.(users := s.users[uid := s.users[uid].(deleted := true)]), q, r)
  {}

  /** Two states that differ in e-mails and themes only. */
  ghost predicate SameFlags(s: State, t: State) {
    && s.users.Keys == t.users.Keys && s.prefs.Keys == t.prefs.Keys && s.reqs == t.reqs
    && (forall u | u in s.users :: t.users[u] == s.users[u].(email := t.users[u].email))
    && (forall q | q in s.prefs :: t.prefs[q] == s.prefs[q].(theme := t.prefs[q].theme))
  }

  lemma SameFlagsRequest(s: State, t: State, p: Pid, r: Request)
    requires SameFlags(s, t) && RequestOk(s, p, r)
    ensures RequestOk(t, p, r)
  {}

  lemma SameFlagsKeepInv(s: State, t: State, p: Pid, r: Request)
    requires Inv(s) && SameFlags(s, t) && p in s.reqs && RequestOk(s, p, r)
    requires forall u, v | u in t.users && v in t.users && t.users[u].email == t.users[v].email :: u == v
    ensures Inv(Goto(t, p, r))
  {
    forall q | q in t.reqs ensures RequestOk(t, q, t.reqs[q]) {
      assert RequestOk(s, q, s.reqs[q]);
      SameFlagsRequest(s, t, q, s.reqs[q]);
    }
    SameFlagsRequest(s, t, p, r);
    assert forall u | u in t.users :: s.users[u].deleted == t.users[u].deleted;
    GotoKeepsInv(t, p, r);
  }

  lemma SetEmailKeepsInv(s: State, p: Pid, uid: Id, email: string, r: Request)
    requires Inv(s) && p in s.reqs && RequestOk(s, p, r) && uid in s.users && !EmailTaken(s, email, Some(uid))
    ensures Inv(Goto(s.(users := s.users[uid := s.users[uid].(email := email)]), p, r))
  {
    var t := s.(users := s.users[uid := s.users[uid].(email := email)]);
    forall w | w in s.users && w != uid ensures s.users[w].email != email {
      assert Some(w) != Some(uid);
    }
    SameFlagsKeepInv(s, t, p, r);
  }

  lemma SetThemeKeepsInv(s: State, p: Pid, pref: Id, theme: Option<string>, r: Request)
    requires Inv(s) && p in s.reqs && RequestOk(s, p, r) && pref in s.prefs
    ensures Inv(Goto(s.(prefs := s.prefs[pref := s.prefs[pref].(theme := theme)]), p, r))
  {
    SameFlagsKeepInv(s, s.(prefs := s.prefs[pref := s.prefs[pref].(theme := theme)]), p, r);
  }

  /** A step that only reads moves p to a request that may be where it is. */
  lemma MoveKeepsInv(s: State, p: Pid, t: State)
    requires Inv(s) && p in s.reqs && Moves(s, p, t)
    ensures Inv(t)
  {
    if t != s {
      GotoKeepsInv(s, p, t.reqs[p]);
    }
  }

  /** The steps that only read. */
  ghost predicate Moves(s: State, p: Pid, t: State) {
    p in t.reqs && (t == s || (t == Goto(s, p, t.reqs[p]) && RequestOk(s, p, t.reqs[p])))
  }

  lemma DeleteReadsMove(s: State, p: Pid, id: Id)
    requires p in s.reqs && RequestOk(s, p, s.reqs[p])
    requires !s.reqs[p].DeletePreference? && !s.reqs[p].DeleteStamp? && !s.reqs[p].DeleteUser?
    ensures Moves(s, p, DeleteStep(s, p, id))
  {}

  lemma UpdateReadsMove(s: State, p: Pid, id: Id)
    requires p in s.reqs && RequestOk(s, p, s.reqs[p])
    requires !s.reqs[p].UpdateUser? && !s.reqs[p].UpdatePreference?
    ensures Moves(s, p, UpdateStep(s, p, id))
  {}

  predicate InsertsUser(s: State, p: Pid, id: Id)
    requires p in s.reqs
  {
    s.reqs[p].CreateInsertUser? && id !in s.users && id != "" && !EmailTaken(s, s.reqs[p].email, None)
  }

  lemma CreateReadsMove(s: State, p: Pid, id: Id)
    requires p in s.reqs && RequestOk(s, p, s.reqs[p])
    requires !InsertsUser(s, p, id) && !s.reqs[p].CreateInsertPreference?
    ensures Moves(s, p, CreateStep(s, p, id))
  {}

  lemma CreateKeepsInv(s: State, p: Pid, id: Id)
    requires Inv(s) && p in s.reqs
    ensures Inv(CreateStep(s, p, id))
  {
    assert RequestOk(s, p, s.reqs[p]);
    var t := CreateStep(s, p, id);
    if InsertsUser(s, p, id) {
      InsertUserKeepsInv(s, p, id, s.reqs[p].email, s.reqs[p].theme);
    } else if s.reqs[p].CreateInsertPreference? {
      if t != s {
        InsertPreferenceKeepsInv(s, p, id, s.reqs[p].uid, s.reqs[p].theme);
      }
    } else {
      CreateReadsMove(s, p, id);
      MoveKeepsInv(s, p, t);
    }
  }

  lemma DeleteKeepsInv(s: State, p: Pid, id: Id)
    requires Inv(s) && p in s.reqs
    ensures Inv(DeleteStep(s, p, id))
  {
    assert RequestOk(s, p, s.reqs[p]);
    match s.reqs[p]
    case DeletePreference(uid, pref, agentId) => FlagPreferenceKeepsInv(s, p, uid, pref, agentId);
    case DeleteStamp(uid, pref, agentId) => StampUserKeepsInv(s, p, uid, pref, agentId);
    case DeleteUser(uid, pref) => FlagUserKeepsInv(s, p, uid, pref);
    case _ =>
      DeleteReadsMove(s, p, id);
      MoveKeepsInv(s, p, DeleteStep(s, p, id));
  }

  /** The step writes a new e-mail. */
  predicate WritesEmail(s: State, p: Pid, id: Id)
    requires p in s.reqs && s.reqs[p].UpdateUser?
  {
    var UpdateUser(uid, _, newEmail, _) := s.reqs[p];
    id != "" && newEmail.Some? && uid in s.users && !EmailTaken(s, newEmail.value, Some(uid))
  }

  lemma UpdateUserMoves(s: State, p: Pid, id: Id)
    requires p in s.reqs && RequestOk(s, p, s.reqs[p]) && s.reqs[p].UpdateUser? && !WritesEmail(s, p, id)
    ensures Moves(s, p, UpdateStep(s, p, id))
  {}

  lemma UpdateUserKeepsInv(s: State, p: Pid, id: Id)
    requires Inv(s) && p in s.reqs && s.reqs[p].UpdateUser?
    ensures Inv(UpdateStep(s, p, id))
  {
    var UpdateUser(uid, pref, newEmail, newTheme) := s.reqs[p];
    assert RequestOk(s, p, s.reqs[p]);
    if WritesEmail(s, p, id) {
      SetEmailKeepsInv(s, p, uid, newEmail.value, UpdateReadBack(uid, pref, newTheme));
    } else {
      UpdateUserMoves(s, p, id);
      MoveKeepsInv(s, p, UpdateStep(s, p, id));
    }
  }

  lemma UpdatePreferenceKeepsInv(s: State, p: Pid, id: Id)
    requires Inv(s) && p in s.reqs && s.reqs[p].UpdatePreference?
    ensures Inv(UpdateStep(s, p, id))
  {
    var UpdatePreference(uid, pref, newTheme) := s.reqs[p];
    assert RequestOk(s, p, s.reqs[p]);
    if id != "" && newTheme.Some? && pref in s.prefs {
      SetThemeKeepsInv(s, p, pref, newTheme, UpdatePreferenceReadBack(uid, pref));
    } else {
      MoveKeepsInv(s, p, UpdateStep(s, p, id));
    }
  }

  lemma UpdateKeepsInv(s: State, p: Pid, id: Id)
    requires Inv(s) && p in s.reqs
    ensures Inv(UpdateStep(s, p, id))
  {
    assert RequestOk(s, p, s.reqs[p]);
    match s.reqs[p]
    case UpdateUser(_, _, _, _) => UpdateUserKeepsInv(s, p, id);
    case UpdatePreference(_, _, _) => UpdatePreferenceKeepsInv(s, p, id);
    case _ =>
      UpdateReadsMove(s, p, id);
      MoveKeepsInv(s, p, UpdateStep(s, p, id));
  }

  lemma AnswerReadsMove(s: State, p: Pid)
    requires p in s.reqs && RequestOk(s, p, s.reqs[p])
    ensures Moves(s, p, AnswerStep(s, p))
  {}

  lemma AnswerKeepsInv(s: State, p: Pid)
    requires Inv(s) && p in s.reqs
    ensures Inv(AnswerStep(s, p))
  {
    assert RequestOk(s, p, s.reqs[p]);
    AnswerReadsMove(s, p);
    MoveKeepsInv(s, p, AnswerStep(s, p));
  }

  /** A step is a step of one of the four kinds. */
  lemma StepKinds(s: State, p: Pid, id: Id)
    requires p in s.reqs
    ensures var t := Apply(s, Step(p, id));
            t == CreateStep(s, p, id) || t == DeleteStep(s, p, id) || t == UpdateStep(s, p, id) || t == AnswerStep(s, p)
  {}

  lemma CrashKeepsInv(s: State, p: Pid)
    requires Inv(s) && p in s.reqs
    ensures Inv(Apply(s, Crash(p)))
  {
    assert RequestOk(s, p, s.reqs[p]);
    if !IsOver(s.reqs[p]) {
      GotoKeepsInv(s, p, Crashed);
    }
  }

  lemma ApplyKeepsInv(s: State, a: Action)
    requires Inv(s)
    ensures Inv(Apply(s, a))
  {
    match a
    case Start(p, r) => StartKeepsInv(s, p, r);
    case Crash(p) =>
      if p in s.reqs {
        CrashKeepsInv(s, p);
      }
    case Step(p, id) =>
      if p in s.reqs {
        StepKinds(s, p, id);
        CreateKeepsInv(s, p, id);
        DeleteKeepsInv(s, p, id);
        UpdateKeepsInv(s, p, id);
        AnswerKeepsInv(s, p);
      }
  }

  lemma StartKeepsInv(s: State, p: Pid, r: Request)
    requires Inv(s)
    ensures Inv(Apply(s, Start(p, r)))
  {
    if p !in s.reqs && IsStart(r) {
      var t := Goto(s, p, r);
      forall q | q in t.reqs ensures RequestOk(t, q, t.reqs[q]) {
        if q != p {
          assert RequestOk(s, q, s.reqs[q]);
        }
      }
    }
  }

  lemma {:induction false} ExecKeepsInv(s: State, actions: seq<Action>)
    requires Inv(s)
    ensures Inv(Exec(s, actions))
  {
    if actions != [] {
      ExecKeepsInv(s, actions[..|actions| - 1]);
      ApplyKeepsInv(Exec(s, actions[..|actions| - 1]), actions[|actions| - 1]);
    }
  }
}
