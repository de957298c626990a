/** The PATCH of UserPatch is what the interleaved machine does with one update request left alone,
    its gates' answers being the ids of the two write steps. */
module UserPatchRuns {
  import opened Options
  import opened UserLifecycle
  import opened UserUseCases
  import opened UserPatch
  import UserStrategy

  /** One user's part of the tables, and the e-mails of the others. */
  datatype Rows = Rows(id: Id, live: bool, user: UserRow, preferenceLive: bool, preference: PreferenceRow,
                       otherEmails: set<string>)

  function RowsOf(r: UserRecord): Rows
    reads r
  {
    Rows(r.id, r.live, r.user, r.preferenceLive, r.preference, r.otherEmails)
  }

  /** The tables hold those rows, as far as the machine knows their columns. */
  ghost predicate Stores(s: State, pref: Id, rows: Rows) {
    && rows.id in s.users && s.users[rows.id].email == rows.user.email && (s.users[rows.id].deleted <==> !rows.live)
    && IsPreferenceOf(s, pref, rows.id) && s.prefs[pref].theme == rows.preference.defaultTheme
    && (s.prefs[pref].deleted <==> !rows.preferenceLive)
    && (forall q | q in s.prefs && s.prefs[q].userId == rows.id :: q == pref)
    && (forall e :: EmailTaken(s, e, Some(rows.id)) <==> e in rows.otherEmails)
  }

  predicate Permits(rows: Rows, agent: Agent) {
    && rows.live && rows.preferenceLive
    && agent.clientId == Some(rows.id) && rows.id != "" && agent.username == Some(rows.user.email)
  }

  function SentTheme(d: Patch): Option<string> {
    if d.preference.None? then None else d.preference.value.defaultTheme
  }

  predicate ChangesPreference(rows: Rows, d: Patch) {
    d.preference.Some? && PreferenceChanges(rows.preference, d.preference.value)
  }

  /** The reads find the preference; a write step, followed by its read-back, has an id exactly when
      the comparison before it said yes. */
  function PatchIds(rows: Rows, pref: Id, d: Patch): seq<Id> {
    ["", pref]
    + ((if UserChanges(rows.user, rows.preference, d) then [rows.id, ""] else [""])
       + ((if ChangesPreference(rows, d) then [rows.id, ""] else [""])
          + ["", ""]))
  }

  ghost function PatchAlone(s: State, p: Pid, pref: Id, rows: Rows, agent: Agent, d: Patch): State {
    Alone(Goto(s, p, UpdateReadUser(rows.id, agent, d.email, SentTheme(d))), p, PatchIds(rows, pref, d))
  }

  function WithEmail(s: State, uid: Id, email: string): State
    requires uid in s.users
  {
    s.(users := s.users[uid := s.users[uid].(email := email)])
  }

  function WithTheme(s: State, pref: Id, theme: Option<string>): State
    requires pref in s.prefs
  {
    s.(prefs := s.prefs[pref := s.prefs[pref].(theme := theme)])
  }

  // ---------- lone runs in parts ----------

  lemma {:induction false} AloneConcat(s: State, p: Pid, first: seq<Id>, second: seq<Id>)
    ensures Alone(s, p, first + second) == Alone(Alone(s, p, first), p, second)
    decreases |first|
  {
    if first == [] {
      assert first + second == second;
    } else {
      assert (first + second)[0] == first[0] && (first + second)[1..] == first[1..] + second;
      AloneConcat(Apply(s, Step(p, first[0])), p, first[1..], second);
    }
  }

  lemma AloneOne(s: State, p: Pid, a: Id)
    ensures Alone(s, p, [a]) == Apply(s, Step(p, a))
  {
    assert [a][1..] == [];
    assert Alone(Apply(s, Step(p, a)), p, []) == Apply(s, Step(p, a));
  }

  lemma AloneTwo(s: State, p: Pid, a: Id, b: Id)
    ensures Alone(s, p, [a, b]) == Apply(Apply(s, Step(p, a)), Step(p, b))
  {
    assert [a, b][1..] == [b];
    AloneOne(Apply(s, Step(p, a)), p, b);
  }

  lemma {:induction false} RejectedRests(s: State, p: Pid, ids: seq<Id>)
    ensures Alone(Goto(s, p, Rejected), p, ids) == Goto(s, p, Rejected)
    decreases |ids|
  {
    if ids != [] {
      RejectedStays(s, p, ids[0]);
      RejectedRests(s, p, ids[1..]);
    }
  }

  // ---------- the parts of a patch ----------

  lemma ReadsUser(s: State, p: Pid, uid: Id, agent: Agent, newEmail: Option<string>, newTheme: Option<string>)
    ensures Apply(Goto(s, p, UpdateReadUser(uid, agent, newEmail, newTheme)), Step(p, "")) ==
            Goto(s, p, if Truthy(agent.clientId) && LiveUser(s, uid)
              then UpdateReadPreference(uid, agent, s.users[uid].email, newEmail, newTheme) else Rejected)
  {}

  lemma ReadsPreference(s: State, p: Pid, pref: Id, rows: Rows, agent: Agent, newEmail: Option<string>,
                        newTheme: Option<string>)
    requires Stores(s, pref, rows)
    ensures var t := Goto(s, p, UpdateReadPreference(rows.id, agent, rows.user.email, newEmail, newTheme));
            Apply(t, Step(p, pref)) ==
            Goto(s, p, if rows.preferenceLive && IsAllowedToManageUser(agent, rows.id, rows.user.email)
              then UpdateUser(rows.id, pref, newEmail, newTheme) else Rejected)
  {
    var t := Goto(s, p, UpdateReadPreference(rows.id, agent, rows.user.email, newEmail, newTheme));
    assert LivePreference(t, pref, rows.id) <==> rows.preferenceLive;
    assert HasLivePreference(t, rows.id) <==> rows.preferenceLive;
  }

  lemma PatchReads(s: State, p: Pid, pref: Id, rows: Rows, agent: Agent, newEmail: Option<string>,
                   newTheme: Option<string>)
    requires Stores(s, pref, rows)
    ensures Alone(Goto(s, p, UpdateReadUser(rows.id, agent, newEmail, newTheme)), p, ["", pref]) ==
            Goto(s, p, if Permits(rows, agent) then UpdateUser(rows.id, pref, newEmail, newTheme) else Rejected)
  {
    AloneTwo(Goto(s, p, UpdateReadUser(rows.id, agent, newEmail, newTheme)), p, "", pref);
    ReadsUser(s, p, rows.id, agent, newEmail, newTheme);
    if Truthy(agent.clientId) && rows.live {
      ReadsPreference(s, p, pref, rows, agent, newEmail, newTheme);
    } else {
      RejectedStays(s, p, pref);
    }
  }

  lemma SkipsUser(s: State, p: Pid, uid: Id, pref: Id, newEmail: Option<string>, newTheme: Option<string>)
    ensures Alone(Goto(s, p, UpdateUser(uid, pref, newEmail, newTheme)), p, [""]) ==
            Goto(s, p, UpdatePreference(uid, pref, newTheme))
  {
    AloneOne(Goto(s, p, UpdateUser(uid, pref, newEmail, newTheme)), p, "");
  }

  lemma WritesUserRow(s: State, p: Pid, uid: Id, pref: Id, newEmail: Option<string>, newTheme: Option<string>)
    requires uid != "" && uid in s.users
    ensures Apply(Goto(s, p, UpdateUser(uid, pref, newEmail, newTheme)), Step(p, uid)) ==
            if newEmail.None? then Goto(s, p, UpdateReadBack(uid, pref, newTheme))
            else if EmailTaken(s, newEmail.value, Some(uid)) then Goto(s, p, Rejected)
            else Goto(WithEmail(s, uid, newEmail.value), p, UpdateReadBack(uid, pref, newTheme))
  {
    if newEmail.Some? {
      assert EmailTaken(Goto(s, p, UpdateUser(uid, pref, newEmail, newTheme)), newEmail.value, Some(uid)) <==>
             EmailTaken(s, newEmail.value, Some(uid));
    }
  }

  lemma ReadsUserBack(s: State, p: Pid, uid: Id, pref: Id, newTheme: Option<string>)
    requires LiveUser(s, uid)
    ensures Apply(Goto(s, p, UpdateReadBack(uid, pref, newTheme)), Step(p, "")) ==
            Goto(s, p, UpdatePreference(uid, pref, newTheme))
  {}

  lemma WritesUser(s: State, p: Pid, uid: Id, pref: Id, newEmail: Option<string>, newTheme: Option<string>)
    requires uid != "" && LiveUser(s, uid)
    ensures Alone(Goto(s, p, UpdateUser(uid, pref, newEmail, newTheme)), p, [uid, ""]) ==
            if newEmail.None? then Goto(s, p, UpdatePreference(uid, pref, newTheme))
            else if EmailTaken(s, newEmail.value, Some(uid)) then Goto(s, p, Rejected)
            else Goto(WithEmail(s, uid, newEmail.value), p, UpdatePreference(uid, pref, newTheme))
  {
    AloneTwo(Goto(s, p, UpdateUser(uid, pref, newEmail, newTheme)), p, uid, "");
    WritesUserRow(s, p, uid, pref, newEmail, newTheme);
    ReadsUserBack(s, p, uid, pref, newTheme);
    RejectedStays(s, p, "");
    if newEmail.Some? {
      ReadsUserBack(WithEmail(s, uid, newEmail.value), p, uid, pref, newTheme);
    }
  }

  lemma SkipsPreference(s: State, p: Pid, uid: Id, pref: Id, newTheme: Option<string>)
    ensures Alone(Goto(s, p, UpdatePreference(uid, pref, newTheme)), p, [""]) == Goto(s, p, AnswerReadUser(uid))
  {
    AloneOne(Goto(s, p, UpdatePreference(uid, pref, newTheme)), p, "");
  }

  lemma WritesPreference(s: State, p: Pid, uid: Id, pref: Id, newTheme: Option<string>)
    requires uid != "" && LivePreference(s, pref, uid)
    ensures Alone(Goto(s, p, UpdatePreference(uid, pref, newTheme)), p, [uid, ""]) ==
            Goto(if newTheme.None? then s else WithTheme(s, pref, newTheme), p, AnswerReadUser(uid))
  {
    AloneTwo(Goto(s, p, UpdatePreference(uid, pref, newTheme)), p, uid, "");
    var t := if newTheme.None? then s else WithTheme(s, pref, newTheme);
    assert Apply(Goto(s, p, UpdatePreference(uid, pref, newTheme)), Step(p, uid)) ==
           Goto(t, p, UpdatePreferenceReadBack(uid, pref));
    assert Apply(Goto(t, p, UpdatePreferenceReadBack(uid, pref)), Step(p, "")) == Goto(t, p, AnswerReadUser(uid));
  }

  lemma Answers(s: State, p: Pid, uid: Id, pref: Id)
    requires LiveUser(s, uid) && LivePreference(s, pref, uid)
    ensures Alone(Goto(s, p, AnswerReadUser(uid)), p, ["", ""]) == Goto(s, p, Finished)
  {
    AloneTwo(Goto(s, p, AnswerReadUser(uid)), p, "", "");
    assert Apply(Goto(s, p, AnswerReadUser(uid)), Step(p, "")) == Goto(s, p, AnswerReadPreference(uid));
    assert LivePreference(Goto(s, p, AnswerReadPreference(uid)), pref, uid);
  }

  // ---------- the whole patch ----------

  predicate Succeeds(rows: Rows, agent: Agent, d: Patch) {
    Permits(rows, agent) && (d.email.Some? ==> d.email.value !in rows.otherEmails)
  }

  function Written(rows: Rows, d: Patch, hashed: string): Rows {
    rows.(user := OverlayUser(rows.user, d, hashed), preference := OverlayPreference(rows.preference, d.preference))
  }

  /** The tables with the columns of rows, and p at r. */
  function Holding(s: State, p: Pid, pref: Id, rows: Rows, r: Request): State
    requires rows.id in s.users && pref in s.prefs
  {
    Goto(WithTheme(WithEmail(s, rows.id, rows.user.email), pref, rows.preference.defaultTheme), p, r)
  }

  lemma UserPart(s: State, p: Pid, pref: Id, rows: Rows, agent: Agent, d: Patch, hashed: string)
    requires Stores(s, pref, rows) && rows.user.email !in rows.otherEmails && Permits(rows, agent)
    ensures Alone(Goto(s, p, UpdateUser(rows.id, pref, d.email, SentTheme(d))), p,
                  if UserChanges(rows.user, rows.preference, d) then [rows.id, ""] else [""]) ==
            if Succeeds(rows, agent, d)
            then Goto(WithEmail(s, rows.id, OverlayUser(rows.user, d, hashed).email), p,
                      UpdatePreference(rows.id, pref, SentTheme(d)))
            else Goto(s, p, Rejected)
  {
    SkipsUser(s, p, rows.id, pref, d.email, SentTheme(d));
    WritesUser(s, p, rows.id, pref, d.email, SentTheme(d));
    SameEmail(s, rows.id);
  }

  lemma SameEmail(s: State, uid: Id)
    requires uid in s.users
    ensures WithEmail(s, uid, s.users[uid].email) == s
  {
    assert s.users[uid := s.users[uid]] == s.users;
  }

  lemma SameTheme(s: State, pref: Id)
    requires pref in s.prefs
    ensures WithTheme(s, pref, s.prefs[pref].theme) == s
  {
    assert s.prefs[pref := s.prefs[pref]] == s.prefs;
  }

  lemma PreferencePart(s: State, p: Pid, pref: Id, rows: Rows, d: Patch)
    requires LivePreference(s, pref, rows.id) && s.prefs[pref].theme == rows.preference.defaultTheme && rows.id != ""
    ensures Alone(Goto(s, p, UpdatePreference(rows.id, pref, SentTheme(d))), p,
                  if ChangesPreference(rows, d) then [rows.id, ""] else [""]) ==
            Goto(WithTheme(s, pref, OverlayPreference(rows.preference, d.preference).defaultTheme), p,
                 AnswerReadUser(rows.id))
  {
    SkipsPreference(s, p, rows.id, pref, SentTheme(d));
    WritesPreference(s, p, rows.id, pref, SentTheme(d));
    SameTheme(s, pref);
  }

  /** The parts after the reads, for a patch that gets there. */
  lemma PatchWrites(s: State, p: Pid, pref: Id, rows: Rows, agent: Agent, d: Patch, hashed: string)
    requires Stores(s, pref, rows) && rows.user.email !in rows.otherEmails && Permits(rows, agent)
    ensures var users := if UserChanges(rows.user, rows.preference, d) then [rows.id, ""] else [""];
            var prefs := if ChangesPreference(rows, d) then [rows.id, ""] else [""];
            Alone(Goto(s, p, UpdateUser(rows.id, pref, d.email, SentTheme(d))), p, users + (prefs + ["", ""])) ==
            if Succeeds(rows, agent, d) then Holding(s, p, pref, Written(rows, d, hashed), Finished)
            else Goto(s, p, Rejected)
  {
    var users := if UserChanges(rows.user, rows.preference, d) then [rows.id, ""] else [""];
    var prefs := if ChangesPreference(rows, d) then [rows.id, ""] else [""];
    AloneConcat(Goto(s, p, UpdateUser(rows.id, pref, d.email, SentTheme(d))), p, users, prefs + ["", ""]);
    UserPart(s, p, pref, rows, agent, d, hashed);
    if Succeeds(rows, agent, d) {
      var t := WithEmail(s, rows.id, OverlayUser(rows.user, d, hashed).email);
      AloneConcat(Goto(t, p, UpdatePreference(rows.id, pref, SentTheme(d))), p, prefs, ["", ""]);
      PreferencePart(t, p, pref, rows, d);
      Answers(WithTheme(t, pref, OverlayPreference(rows.preference, d.preference).defaultTheme), p, rows.id, pref);
    } else {
      RejectedRests(s, p, prefs + ["", ""]);
    }
  }

  lemma PatchIsLoneRun(s: State, p: Pid, pref: Id, rows: Rows, agent: Agent, d: Patch, hashed: string)
    requires Stores(s, pref, rows) && rows.user.email !in rows.otherEmails
    ensures PatchAlone(s, p, pref, rows, agent, d) ==
            if Succeeds(rows, agent, d) then Holding(s, p, pref, Written(rows, d, hashed), Finished)
            else Goto(s, p, Rejected)
  {
    var ids := PatchIds(rows, pref, d);
    var start := Goto(s, p, UpdateReadUser(rows.id, agent, d.email, SentTheme(d)));
    AloneConcat(start, p, ["", pref], ids[2..]);
    assert ids == ["", pref] + ids[2..];
    PatchReads(s, p, pref, rows, agent, d.email, SentTheme(d));
    if Permits(rows, agent) {
      PatchWrites(s, p, pref, rows, agent, d, hashed);
    } else {
      RejectedRests(s, p, ids[2..]);
    }
  }

  lemma UnchangedIsHeld(s: State, p: Pid, pref: Id, rows: Rows, r: Request)
    requires Stores(s, pref, rows)
    ensures Holding(s, p, pref, rows, r) == Goto(s, p, r)
  {
    SameEmail(s, rows.id);
    SameTheme(s, pref);
  }

  /** UpdateUser.usecase.ts on a record that the tables store: what it leaves in the record is what
      the lone run leaves in the tables. */
  method UpdateStored(r: UserRecord, agent: Agent, d: Patch, hashed: string, now: int,
                      ghost s: State, ghost p: Pid, ghost pref: Id)
    returns (ok: bool, answer: Option<UserStrategy.Attr>)
    requires r.Valid() && Stores(s, pref, RowsOf(r))
    modifies r
    ensures r.Valid() && (ok <==> Succeeds(old(RowsOf(r)), agent, d))
    ensures RowsOf(r) == if ok then Written(old(RowsOf(r)), d, hashed) else old(RowsOf(r))
    ensures PatchAlone(s, p, pref, old(RowsOf(r)), agent, d) ==
            Holding(s, p, pref, RowsOf(r), if ok then Finished else Rejected)
  {
    PatchIsLoneRun(s, p, pref, RowsOf(r), agent, d, hashed);
    UnchangedIsHeld(s, p, pref, RowsOf(r), Rejected);
    ok, answer := r.UpdateUser(agent, d, hashed, now);
  }
}
