/** UpdateUser.usecase.ts with the writes of User.service.ts and UserPreference.service.ts: what a
    PATCH leaves in the two rows of one user, and when it writes at all. */
module UserPatch {
  import opened Options
  import opened UserStrategy
  import Lifecycle = UserLifecycle

  /** The columns a PATCH can set. */
  datatype UserRow = UserRow(fullName: string, email: string, password: string, phone: Option<string>,
                             docType: Option<string>, document: Option<string>, fu: Option<string>)
  datatype PreferenceRow = PreferenceRow(imagePath: Option<string>, defaultTheme: Option<string>)

  /** A validated input; None is a field that was not sent. */
  datatype Patch = Patch(fullName: Option<string>, email: Option<string>, password: Option<string>,
                         phone: Option<string>, docType: Option<string>, document: Option<string>, fu: Option<string>,
                         preference: Option<PreferencePatch>)
  datatype PreferencePatch = PreferencePatch(imagePath: Option<string>, defaultTheme: Option<string>)

  // ---------- attributes, as getAttributes and the input object give them ----------

  function OptionAttr(o: Option<string>): Attr {
    match o
    case None => Undefined
    case Some(s) => Str(s)
  }

  function PreferenceAttributes(p: PreferenceRow): Attr {
    Obj(map["imagePath" := OptionAttr(p.imagePath), "defaultTheme" := OptionAttr(p.defaultTheme)])
  }

  /** Read without the password column, and with the preference joined in. */
  function UserAttributes(u: UserRow, p: PreferenceRow): Attr {
    Obj(map["fullName" := Str(u.fullName), "email" := Str(u.email), "password" := Undefined,
            "phone" := OptionAttr(u.phone), "docType" := OptionAttr(u.docType),
            "document" := OptionAttr(u.document), "fu" := OptionAttr(u.fu),
            "preference" := PreferenceAttributes(p)])
  }

  function PreferenceInput(p: PreferencePatch): Attr {
    Obj(map["imagePath" := OptionAttr(p.imagePath), "defaultTheme" := OptionAttr(p.defaultTheme)])
  }

  function UserInput(d: Patch): Attr {
    Obj(map["fullName" := OptionAttr(d.fullName), "email" := OptionAttr(d.email), "password" := OptionAttr(d.password),
            "phone" := OptionAttr(d.phone), "docType" := OptionAttr(d.docType),
            "document" := OptionAttr(d.document), "fu" := OptionAttr(d.fu),
            "preference" := if d.preference.None? then Undefined else PreferenceInput(d.preference.value)])
  }

  // ---------- what the request means for the rows ----------

  function Or<T>(o: Option<T>, default: T): T {
    if o.Some? then o.value else default
  }

  function OrElse(o: Option<string>, default: Option<string>): Option<string> {
    if o.Some? then o else default
  }

  /** Every field that was sent, written over the row; hashed is the protected form of a non-empty password. */
  function OverlayUser(u: UserRow, d: Patch, hashed: string): (r: UserRow)
    ensures HoldsSent(u, d, hashed, r)
  {
    UserRow(Or(d.fullName, u.fullName), Or(d.email, u.email),
            if d.password.None? then u.password else if d.password.value == "" then "" else hashed,
            OrElse(d.phone, u.phone), OrElse(d.docType, u.docType), OrElse(d.document, u.document), OrElse(d.fu, u.fu))
  }

  function OverlayPreference(p: PreferenceRow, d: Option<PreferencePatch>): (r: PreferenceRow)
    ensures HoldsSentPreference(p, d, r)
  {
    if d.None? then p
    else PreferenceRow(OrElse(d.value.imagePath, p.imagePath), OrElse(d.value.defaultTheme, p.defaultTheme))
  }

  /** Column by column: what was sent is stored, a password in its protected form, and the rest stays. */
  predicate HoldsSent(before: UserRow, d: Patch, hashed: string, after: UserRow) {
    && (d.fullName.Some? ==> after.fullName == d.fullName.value)
       && (d.fullName.None? ==> after.fullName == before.fullName)
    && (d.email.Some? ==> after.email == d.email.value) && (d.email.None? ==> after.email == before.email)
    && (d.password == Some("") ==> after.password == "") && (d.password.None? ==> after.password == before.password)
    && (d.password.Some? && d.password.value != "" ==> after.password == hashed)
    && (d.phone.Some? ==> after.phone == d.phone) && (d.phone.None? ==> after.phone == before.phone)
    && (d.docType.Some? ==> after.docType == d.docType) && (d.docType.None? ==> after.docType == before.docType)
    && (d.document.Some? ==> after.document == d.document) && (d.document.None? ==> after.document == before.document)
    && (d.fu.Some? ==> after.fu == d.fu) && (d.fu.None? ==> after.fu == before.fu)
  }

  predicate HoldsSentPreference(before: PreferenceRow, d: Option<PreferencePatch>, after: PreferenceRow) {
    && (d.None? ==> after == before)
    && (d.Some? ==>
          && (d.value.imagePath.Some? ==> after.imagePath == d.value.imagePath)
          && (d.value.imagePath.None? ==> after.imagePath == before.imagePath)
          && (d.value.defaultTheme.Some? ==> after.defaultTheme == d.value.defaultTheme)
          && (d.value.defaultTheme.None? ==> after.defaultTheme == before.defaultTheme))
  }

  predicate Sent(o: Option<string>, stored: Option<string>) {
    o.Some? && o != stored
  }

  predicate PreferenceChanges(p: PreferenceRow, d: PreferencePatch) {
    Sent(d.imagePath, p.imagePath) || Sent(d.defaultTheme, p.defaultTheme)
  }

  /** The user row is written for a change in either row, and for every password. */
  predicate UserChanges(u: UserRow, p: PreferenceRow, d: Patch) {
    || Sent(d.fullName, Some(u.fullName)) || Sent(d.email, Some(u.email)) || d.password.Some?
    || Sent(d.phone, u.phone) || Sent(d.docType, u.docType) || Sent(d.document, u.document) || Sent(d.fu, u.fu)
    || (d.preference.Some? && PreferenceChanges(p, d.preference.value))
  }

  lemma PreferenceGate(p: PreferenceRow, d: PreferencePatch)
    ensures Differs(PreferenceAttributes(p), PreferenceInput(d)) <==> PreferenceChanges(p, d)
  {
    var e, i := PreferenceAttributes(p), PreferenceInput(d);
    DiffersByKey(e, i);
    if PreferenceChanges(p, d) {
      var key := if Sent(d.imagePath, p.imagePath) then "imagePath" else "defaultTheme";
      assert key in i.fields && ValueChanged(Lookup(e, key), i.fields[key]);
    }
  }

  lemma AttributeFields(u: UserRow, p: PreferenceRow)
    ensures var e := UserAttributes(u, p);
            && Lookup(e, "fullName") == Str(u.fullName) && Lookup(e, "email") == Str(u.email)
            && Lookup(e, "password") == Undefined && Lookup(e, "phone") == OptionAttr(u.phone)
            && Lookup(e, "docType") == OptionAttr(u.docType) && Lookup(e, "document") == OptionAttr(u.document)
            && Lookup(e, "fu") == OptionAttr(u.fu) && Lookup(e, "preference") == PreferenceAttributes(p)
  {}

  lemma InputFields(d: Patch)
    ensures var i := UserInput(d);
            && i.fields.Keys == {"fullName", "email", "password", "phone", "docType", "document", "fu", "preference"}
            && i.fields["fullName"] == OptionAttr(d.fullName) && i.fields["email"] == OptionAttr(d.email)
            && i.fields["password"] == OptionAttr(d.password) && i.fields["phone"] == OptionAttr(d.phone)
            && i.fields["docType"] == OptionAttr(d.docType) && i.fields["document"] == OptionAttr(d.document)
            && i.fields["fu"] == OptionAttr(d.fu)
            && i.fields["preference"] == if d.preference.None? then Undefined else PreferenceInput(d.preference.value)
  {}

  lemma SomeKeyChanges(e: Attr, i: Attr, u: UserRow, p: PreferenceRow, d: Patch)
    requires i.Obj? && i.fields.Keys ==
             {"fullName", "email", "password", "phone", "docType", "document", "fu", "preference"}
    requires ValueChanged(Lookup(e, "fullName"), i.fields["fullName"]) <==> Sent(d.fullName, Some(u.fullName))
    requires ValueChanged(Lookup(e, "email"), i.fields["email"]) <==> Sent(d.email, Some(u.email))
    requires ValueChanged(Lookup(e, "password"), i.fields["password"]) <==> d.password.Some?
    requires ValueChanged(Lookup(e, "phone"), i.fields["phone"]) <==> Sent(d.phone, u.phone)
    requires ValueChanged(Lookup(e, "docType"), i.fields["docType"]) <==> Sent(d.docType, u.docType)
    requires ValueChanged(Lookup(e, "document"), i.fields["document"]) <==> Sent(d.document, u.document)
    requires ValueChanged(Lookup(e, "fu"), i.fields["fu"]) <==> Sent(d.fu, u.fu)
    requires ValueChanged(Lookup(e, "preference"), i.fields["preference"]) <==>
             d.preference.Some? && PreferenceChanges(p, d.preference.value)
    ensures (exists key :: key in i.fields && ValueChanged(Lookup(e, key), i.fields[key])) <==> UserChanges(u, p, d)
  {
    if key :| key in i.fields && ValueChanged(Lookup(e, key), i.fields[key]) {
      assert key in {"fullName", "email", "password", "phone", "docType", "document", "fu", "preference"};
    }
  }

  lemma FieldGate(stored: Option<string>, sent: Option<string>)
    ensures ValueChanged(OptionAttr(stored), OptionAttr(sent)) <==> Sent(sent, stored)
  {}

  lemma UserGate(u: UserRow, p: PreferenceRow, d: Patch)
    ensures Differs(UserAttributes(u, p), UserInput(d)) <==> UserChanges(u, p, d)
  {
    var e, i := UserAttributes(u, p), UserInput(d);
    AttributeFields(u, p);
    InputFields(d);
    FieldsGate(e, i, u, p, d);
    DiffersByKey(e, i);
  }

  lemma FieldsGate(e: Attr, i: Attr, u: UserRow, p: PreferenceRow, d: Patch)
    requires Lookup(e, "fullName") == Str(u.fullName) && Lookup(e, "email") == Str(u.email)
    requires Lookup(e, "password") == Undefined && Lookup(e, "phone") == OptionAttr(u.phone)
    requires Lookup(e, "docType") == OptionAttr(u.docType) && Lookup(e, "document") == OptionAttr(u.document)
    requires Lookup(e, "fu") == OptionAttr(u.fu) && Lookup(e, "preference") == PreferenceAttributes(p)
    requires i.Obj? && i.fields.Keys ==
             {"fullName", "email", "password", "phone", "docType", "document", "fu", "preference"}
    requires i.fields["fullName"] == OptionAttr(d.fullName) && i.fields["email"] == OptionAttr(d.email)
    requires i.fields["password"] == OptionAttr(d.password) && i.fields["phone"] == OptionAttr(d.phone)
    requires i.fields["docType"] == OptionAttr(d.docType) && i.fields["document"] == OptionAttr(d.document)
    requires i.fields["fu"] == OptionAttr(d.fu)
    requires i.fields["preference"] == if d.preference.None? then Undefined else PreferenceInput(d.preference.value)
    ensures (exists key :: key in i.fields && ValueChanged(Lookup(e, key), i.fields[key])) <==> UserChanges(u, p, d)
  {
    FieldGate(Some(u.fullName), d.fullName);
    FieldGate(Some(u.email), d.email);
    FieldGate(None, d.password);
    FieldGate(u.phone, d.phone);
    FieldGate(u.docType, d.docType);
    FieldGate(u.document, d.document);
    FieldGate(u.fu, d.fu);
    if d.preference.Some? {
      PreferenceGate(p, d.preference.value);
    }
    SomeKeyChanges(e, i, u, p, d);
  }

  /** The gate keeps back only writes that would leave both rows as they are. */
  lemma GateLosesNothing(u: UserRow, p: PreferenceRow, d: Patch, hashed: string)
    ensures !UserChanges(u, p, d) ==> OverlayUser(u, d, hashed) == u
    ensures d.preference.Some? && !PreferenceChanges(p, d.preference.value) ==> OverlayPreference(p, d.preference) == p
  {}

  lemma PreferenceOverlay(p: PreferenceRow, d: PreferencePatch)
    ensures Overlay(PreferenceAttributes(p), PreferenceInput(d)) == PreferenceAttributes(OverlayPreference(p, Some(d)))
  {
    var e, i := PreferenceAttributes(p), PreferenceInput(d);
    assert i.fields["imagePath"] == OptionAttr(d.imagePath) && i.fields["defaultTheme"] == OptionAttr(d.defaultTheme);
    if HasLeaf(i) {
      assert Overlay(e, i).fields == PreferenceAttributes(OverlayPreference(p, Some(d))).fields;
    } else {
      assert !HasLeaf(i.fields["imagePath"]) && !HasLeaf(i.fields["defaultTheme"]);
    }
  }

  lemma FieldOverlay(stored: Option<string>, sent: Option<string>)
    ensures Overlay(OptionAttr(stored), OptionAttr(sent)) == OptionAttr(OrElse(sent, stored))
  {}

  /** The writes to the rows are the overlay that the comparison is exact for, the password aside. */
  lemma RowsOverlay(u: UserRow, p: PreferenceRow, d: Patch, hashed: string)
    requires d.password.None?
    ensures UserAttributes(OverlayUser(u, d, hashed), OverlayPreference(p, d.preference)) ==
            Overlay(UserAttributes(u, p), UserInput(d))
  {
    var e, i := UserAttributes(u, p), UserInput(d);
    var after := UserAttributes(OverlayUser(u, d, hashed), OverlayPreference(p, d.preference));
    SameKeys(u, p, d);
    SameKeys(OverlayUser(u, d, hashed), OverlayPreference(p, d.preference), d);
    OverlayKeys(e, i);
    forall key | key in after.fields ensures after.fields[key] == Overlay(e, i).fields[key] {
      OverlayEntry(e, i, key);
      RowsOverlayAt(u, p, d, hashed, key);
    }
    SameFields(after, Overlay(e, i));
  }

  lemma RowsOverlayAt(u: UserRow, p: PreferenceRow, d: Patch, hashed: string, key: string)
    requires d.password.None?
    requires key in {"fullName", "email", "password", "phone", "docType", "document", "fu", "preference"}
    ensures Overlay(Lookup(UserAttributes(u, p), key), Lookup(UserInput(d), key)) ==
            Lookup(UserAttributes(OverlayUser(u, d, hashed), OverlayPreference(p, d.preference)), key)
  {
    AttributeFields(u, p);
    InputFields(d);
    AttributeFields(OverlayUser(u, d, hashed), OverlayPreference(p, d.preference));
    FieldOverlay(Some(u.fullName), d.fullName);
    FieldOverlay(Some(u.email), d.email);
    FieldOverlay(u.phone, d.phone);
    FieldOverlay(u.docType, d.docType);
    FieldOverlay(u.document, d.document);
    FieldOverlay(u.fu, d.fu);
    if d.preference.Some? {
      PreferenceOverlay(p, d.preference.value);
    }
  }

  lemma SameKeys(u: UserRow, p: PreferenceRow, d: Patch)
    ensures UserAttributes(u, p).fields.Keys == UserInput(d).fields.Keys ==
            {"fullName", "email", "password", "phone", "docType", "document", "fu", "preference"}
  {}

  /** The comparison's gap does not exist for these two rows: only the preference is nested, and it
      is always there. */
  lemma RowsNeverBlocked(u: UserRow, p: PreferenceRow, d: Patch)
    ensures !Blocked(UserAttributes(u, p), UserInput(d))
  {
    var e, i := UserAttributes(u, p), UserInput(d);
    forall path | IsLeaf(At(i, path)) ensures TruthyAlong(e, path) {
      if path != [] && path[1..] != [] {
        var rest := path[1..];
        LeafBelowObject(Lookup(i, path[0]), rest);
        assert path[0] == "preference";
        AttributeFields(u, p);
        if rest[1..] != [] {
          LeafBelowObject(Lookup(Lookup(i, path[0]), rest[0]), rest[1..]);
        }
        assert TruthyAlong(Lookup(e, path[0]), rest);
      }
    }
  }

  /** Once written, the same request finds nothing to write, unless it carries a password. */
  lemma RepeatedPatch(u: UserRow, p: PreferenceRow, d: Patch, hashed: string)
    ensures var u', p' := OverlayUser(u, d, hashed), OverlayPreference(p, d.preference);
            && (UserChanges(u', p', d) <==> d.password.Some?)
            && (d.preference.Some? ==> !PreferenceChanges(p', d.preference.value))
  {}

  /** One user's rows, with the e-mails the unique column holds for the others. */
  class UserRecord {
    const id: string
    var live: bool
    var user: UserRow
    var preferenceLive: bool
    var preference: PreferenceRow
    var otherEmails: set<string>
    var userUpdatedAt: int
    var preferenceUpdatedAt: int
    var userWrites: nat
    var preferenceWrites: nat

    constructor (id: string, user: UserRow, preference: PreferenceRow, otherEmails: set<string>, now: int)
      requires user.email !in otherEmails
      ensures Valid() && this.id == id && this.user == user && this.preference == preference
      ensures this.otherEmails == otherEmails && userUpdatedAt == preferenceUpdatedAt == now
      ensures live && preferenceLive && userWrites == 0 && preferenceWrites == 0
    {
      this.id, this.user, this.preference, this.otherEmails := id, user, preference, otherEmails;
      live, preferenceLive, userWrites, preferenceWrites := true, true, 0, 0;
      userUpdatedAt, preferenceUpdatedAt := now, now;
    }

    ghost predicate Valid()
      reads this
    {
      user.email !in otherEmails
    }

    predicate Permitted(agent: Lifecycle.Agent)
      reads this
    {
      && live && preferenceLive
      && agent.clientId == Some(id) && id != "" && agent.username == Some(user.email)
    }

    predicate EmailFree(d: Patch)
      reads this
    {
      d.email.Some? ==> d.email.value !in otherEmails
    }

    /** UserService.update: one UPDATE of the sent columns, refused by the unique column. */
    method WriteUser(d: Patch, hashed: string, now: int) returns (ok: bool)
      modifies this`user, this`userUpdatedAt, this`userWrites
      ensures ok <==> EmailFree(d)
      ensures user == if ok then OverlayUser(old(user), d, hashed) else old(user)
      ensures userUpdatedAt == if ok then now else old(userUpdatedAt)
      ensures userWrites == old(userWrites) + if ok then 1 else 0
    {
      ok := EmailFree(d);
      if ok {
        user, userUpdatedAt, userWrites := OverlayUser(user, d, hashed), now, userWrites + 1;
      }
    }

    method WritePreference(d: Option<PreferencePatch>, now: int)
      modifies this`preference, this`preferenceUpdatedAt, this`preferenceWrites
      ensures preference == OverlayPreference(old(preference), d)
      ensures preferenceUpdatedAt == now && preferenceWrites == old(preferenceWrites) + 1
    {
      preference, preferenceUpdatedAt := OverlayPreference(preference, d), now;
      preferenceWrites := preferenceWrites + 1;
    }

    predicate PreferenceWritten(d: Patch)
      reads this
    {
      d.preference.Some? && PreferenceChanges(preference, d.preference.value)
    }

    /** The answer holds the attributes of the rows as they are read back. */
    method UpdateUser(agent: Lifecycle.Agent, d: Patch, hashed: string, now: int)
      returns (ok: bool, answer: Option<Attr>)
      requires Valid()
      modifies this
      ensures Valid() && live == old(live) && preferenceLive == old(preferenceLive) && otherEmails == old(otherEmails)
      ensures ok <==>
              && live && preferenceLive && id != "" && agent.clientId == Some(id)
              && agent.username == Some(old(user).email) && (d.email.Some? ==> d.email.value !in otherEmails)
      ensures ok && d.password.None? ==> user.password == old(user).password
      ensures ok && d.password == Some("") ==> user.password == ""
      ensures ok && d.password.Some? && d.password.value != "" ==> user.password == hashed
      ensures ok ==> HoldsSent(old(user), d, hashed, user)
      ensures ok ==> HoldsSentPreference(old(preference), d.preference, preference)
      ensures user == if ok then OverlayUser(old(user), d, hashed) else old(user)
      ensures preference == if ok then OverlayPreference(old(preference), d.preference) else old(preference)
      ensures var wrote := ok && UserChanges(old(user), old(preference), d);
              && userUpdatedAt == (if wrote then now else old(userUpdatedAt))
              && userWrites == old(userWrites) + if wrote then 1 else 0
      ensures var wrote := ok && old(PreferenceWritten(d));
              && preferenceUpdatedAt == (if wrote then now else old(preferenceUpdatedAt))
              && preferenceWrites == old(preferenceWrites) + if wrote then 1 else 0
      ensures answer == if ok then Some(UserAttributes(user, preference)) else None
    {
      ok, answer := false, None;
      if agent.clientId.None? || agent.clientId.value == "" || !live || !preferenceLive {
        return;
      }
      if agent.username != Some(user.email) || agent.clientId != Some(id) {
        return;
      }
      var mustUpdateUser := MustUpdate(UserAttributes(user, preference), UserInput(d));
      UserGate(user, preference, d);
      var mustUpdatePreference := false;
      if d.preference.Some? {
        mustUpdatePreference := MustUpdate(PreferenceAttributes(preference), PreferenceInput(d.preference.value));
        PreferenceGate(preference, d.preference.value);
      }
      GateLosesNothing(user, preference, d, hashed);
      if mustUpdateUser {
        ok := WriteUser(d, hashed, now);
        if !ok {
          return;
        }
      }
      if mustUpdatePreference {
        WritePreference(d.preference, now);
      }
      ok := live && preferenceLive;
      if ok {
        answer := Some(UserAttributes(user, preference));
      }
    }
  }
}
