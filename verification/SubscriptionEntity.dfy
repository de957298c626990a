/** src/modules/domain/entities/Subscription.entity.ts: the constructor's normalisation of raw data,
    getAttributes, and what the two stores make of the attributes. */
module SubscriptionEntity {
  import opened Options

  /** A raw value. A number is known by its text, a date by its instant, if it has one; IsoText is
      a string that reads as an ISO date, and Str is any other. Arrays are objects too. */
  datatype Raw =
    | Undefined | Null | Bool(b: bool) | Num(text: string) | Str(s: string) | IsoText(t: int)
    | Date(t: int) | InvalidDate | ObjectId(hex: string) | Obj(fields: map<string, Raw>)

  predicate Nullish(v: Raw) {
    v.Undefined? || v.Null?
  }

  predicate Truthy(v: Raw) {
    match v
    case Undefined => false
    case Null => false
    case Bool(b) => b
    case Num(text) => text != "0" && text != "NaN"
    case Str(s) => s != ""
    case _ => true
  }

  function Fields(v: Raw): map<string, Raw> {
    if v.Obj? then v.fields else map[]
  }

  function Field(m: map<string, Raw>, key: string): Raw {
    if key in m then m[key] else Undefined
  }

  /** String(v); no _id is a date. */
  function StringOf(v: Raw): Raw {
    match v
    case ObjectId(hex) => Str(hex)
    case Num(text) => Str(text)
    case Bool(b) => Str(if b then "true" else "false")
    case Obj(_) => Str("[object Object]")
    case _ => v
  }

  /** databaseId is Undefined and clientId Null until they are set; createdAt is None for a text
      that is no date. */
  datatype Entity = Entity(databaseId: Raw, subscriptionId: Raw, clientId: Raw, createdAt: Option<int>,
                           updatedAt: Raw, newConnectionsListen: bool)

  /** The spread of the data, of its listen part and of its dataValues part, later ones winning. */
  function Values(data: Raw): map<string, Raw> {
    var top := Fields(data);
    top + Fields(Field(top, "listen")) + Fields(Field(top, "dataValues"))
  }

  function GetDate(v: Raw, now: int): Option<int> {
    match v
    case Date(t) => Some(t)
    case IsoText(t) => Some(t)
    case InvalidDate => None
    case Str(_) => None
    case _ => Some(now)
  }

  function DateOf(createdAt: Option<int>): Raw {
    if createdAt.Some? then Date(createdAt.value) else InvalidDate
  }

  function Build(data: Raw, now: int): Entity {
    var values := Values(data);
    var id := Field(Fields(data), "_id");
    var flag := Field(values, "newConnections");
    Entity(
      if !Nullish(Field(values, "id")) then values["id"] else if Truthy(id) then StringOf(id) else Undefined,
      if !Nullish(Field(values, "subscriptionId")) then values["subscriptionId"] else Str(""),
      if !Nullish(Field(values, "clientId")) then values["clientId"] else Null,
      GetDate(Field(values, "createdAt"), now),
      if !Nullish(Field(values, "updatedAt")) then values["updatedAt"] else Null,
      Truthy(if Nullish(flag) then Field(Fields(Field(values, "listen")), "newConnections") else flag))
  }

  /** The value a key has after the spread: the nested data's, or else the listen part's, or else the
      data's own. */
  function Spread(data: Raw, key: string): Raw {
    if !data.Obj? then Undefined
    else
      var nested := if "dataValues" in data.fields then Fields(data.fields["dataValues"]) else map[];
      var listen := if "listen" in data.fields then Fields(data.fields["listen"]) else map[];
      if key in nested then nested[key] else if key in listen then listen[key]
      else if key in data.fields then data.fields[key] else Undefined
  }

  /** What the constructor makes of raw data, field by field. */
  lemma BuildMeans(data: Raw, now: int)
    ensures var e, sid, cid := Build(data, now), Spread(data, "subscriptionId"), Spread(data, "clientId");
            var created, updated := Spread(data, "createdAt"), Spread(data, "updatedAt");
            && e.subscriptionId == (if sid == Undefined || sid == Null then Str("") else sid)
            && e.clientId == (if cid == Undefined || cid == Null then Null else cid)
            && e.updatedAt == (if updated == Undefined || updated == Null then Null else updated)
            && (created.Date? || created.IsoText? ==> e.createdAt == Some(created.t))
            && (created.Str? || created.InvalidDate? ==> e.createdAt == None)
            && (created.Date? || created.IsoText? || created.Str? || created.InvalidDate? || e.createdAt == Some(now))
  {
    SpreadIsField(data, "subscriptionId");
    SpreadIsField(data, "clientId");
    SpreadIsField(data, "createdAt");
    SpreadIsField(data, "updatedAt");
  }

  lemma SpreadIsField(data: Raw, key: string)
    ensures Field(Values(data), key) == Spread(data, key)
  {}

  /** Its own id wins over the document's, and the flag is looked for at the top of the spread and then
      in its listen part. */
  lemma BuildMeansIdAndFlag(data: Raw, now: int)
    ensures var e, id := Build(data, now), Spread(data, "id");
            && (id != Undefined && id != Null ==> e.databaseId == id)
            && (id == Undefined || id == Null ==>
                  && (forall oid | "_id" in Fields(data) && Fields(data)["_id"] == ObjectId(oid) ::
                        e.databaseId == Str(oid))
                  && ("_id" !in Fields(data) ==> e.databaseId == Undefined))
    ensures var flag, listen := Spread(data, "newConnections"), Fields(Spread(data, "listen"));
            var asked := if flag != Undefined && flag != Null then flag
                         else if "newConnections" in listen then listen["newConnections"] else Undefined;
            Build(data, now).newConnectionsListen <==>
            asked !in {Undefined, Null, Bool(false), Num("0"), Num("NaN"), Str("")}
  {
    SpreadIsField(data, "id");
    SpreadIsField(data, "newConnections");
    SpreadIsField(data, "listen");
  }

  function OrUndefined(v: Raw): Raw {
    if Nullish(v) then Undefined else v
  }

  function DateFields(e: Entity): map<string, Raw> {
    map["clientId" := OrUndefined(e.clientId), "createdAt" := DateOf(e.createdAt),
        "updatedAt" := OrUndefined(e.updatedAt)]
  }

  function ListenFields(e: Entity): map<string, Raw> {
    map["newConnections" := Bool(e.newConnectionsListen)]
  }

  function Attributes(e: Entity): Raw {
    Obj(map["id" := e.databaseId, "subscriptionId" := e.subscriptionId,
            "dataValues" := Obj(DateFields(e)), "listen" := Obj(ListenFields(e))])
  }

  // ---------- what comes back from the stores ----------

  /** Text in the cache and back: undefined slots are dropped, dates become strings, or null when
      they are invalid. */
  function Json(v: Raw): Raw {
    match v
    case InvalidDate => Null
    case Date(t) => IsoText(t)
    case Obj(fields) => Obj(map k | k in fields && !fields[k].Undefined? :: Json(fields[k]))
    case _ => v
  }

  /** The instant the document store keeps for an invalid date. */
  const EPOCH := 0

  /** A document and back: undefined slots are stored as null. */
  function Bson(v: Raw): Raw {
    match v
    case InvalidDate => Date(EPOCH)
    case Undefined => Null
    case Obj(fields) => Obj(map k | k in fields :: Bson(fields[k]))
    case _ => v
  }

  function Document(e: Entity, oid: string): Raw {
    Obj(Fields(Bson(Attributes(e)))["_id" := ObjectId(oid)])
  }

  /** A value that JSON text can carry; what a client sends is one. */
  predicate IsJson(v: Raw) {
    match v
    case Undefined => false
    case Date(_) => false
    case InvalidDate => false
    case ObjectId(_) => false
    case Obj(fields) => forall k | k in fields :: IsJson(fields[k])
    case _ => true
  }

  predicate IsEntity(e: Entity) {
    && (e.databaseId.Undefined? || (IsJson(e.databaseId) && !e.databaseId.Null?))
    && IsJson(e.subscriptionId) && !e.subscriptionId.Null?
    && IsJson(e.clientId) && IsJson(e.updatedAt)
  }

  lemma {:induction false} JsonIdentity(v: Raw)
    requires IsJson(v)
    ensures Json(v) == v && Bson(v) == v
  {
    if v.Obj? {
      forall k | k in v.fields ensures Json(v.fields[k]) == v.fields[k] && Bson(v.fields[k]) == v.fields[k] {
        JsonIdentity(v.fields[k]);
      }
      assert Json(v).fields == v.fields && Bson(v).fields == v.fields;
    }
  }

  lemma FieldIsJson(m: map<string, Raw>, key: string)
    requires forall k | k in m :: IsJson(m[k])
    ensures Field(m, key).Undefined? || IsJson(Field(m, key))
    ensures forall k | k in Fields(Field(m, key)) :: IsJson(Fields(Field(m, key))[k])
  {}

  lemma ValuesAreJson(data: Raw)
    requires IsJson(data)
    ensures forall k | k in Values(data) :: IsJson(Values(data)[k])
  {
    FieldIsJson(Fields(data), "listen");
    FieldIsJson(Fields(data), "dataValues");
  }

  lemma BuiltIdIsJson(data: Raw, now: int)
    requires IsJson(data)
    ensures var id := Build(data, now).databaseId; id.Undefined? || (IsJson(id) && !id.Null?)
  {
    ValuesAreJson(data);
    FieldIsJson(Values(data), "id");
    FieldIsJson(Fields(data), "_id");
  }

  lemma BuildIsEntity(data: Raw, now: int)
    requires IsJson(data)
    ensures IsEntity(Build(data, now))
  {
    var values := Values(data);
    BuiltIdIsJson(data, now);
    ValuesAreJson(data);
    FieldIsJson(values, "subscriptionId");
    FieldIsJson(values, "clientId");
    FieldIsJson(values, "updatedAt");
  }

  /** Raw data laid out like the attributes. */
  predicate IsLaidOut(top: map<string, Raw>, dates: map<string, Raw>, listen: map<string, Raw>) {
    && top.Keys <= {"_id", "id", "subscriptionId", "dataValues", "listen"}
    && dates.Keys <= {"clientId", "createdAt", "updatedAt"} && listen.Keys == {"newConnections"}
    && "dataValues" in top && top["dataValues"] == Obj(dates)
    && "listen" in top && top["listen"] == Obj(listen) && listen["newConnections"].Bool?
  }

  lemma LaidOutValues(top: map<string, Raw>, dates: map<string, Raw>, listen: map<string, Raw>)
    requires IsLaidOut(top, dates, listen)
    ensures var values := Values(Obj(top));
            && Field(values, "id") == Field(top, "id")
            && Field(values, "subscriptionId") == Field(top, "subscriptionId")
            && Field(values, "clientId") == Field(dates, "clientId")
            && Field(values, "createdAt") == Field(dates, "createdAt")
            && Field(values, "updatedAt") == Field(dates, "updatedAt")
            && Field(values, "newConnections") == listen["newConnections"]
  {
    assert Values(Obj(top)) == top + listen + dates;
    assert "id" !in dates.Keys + listen.Keys && "subscriptionId" !in dates.Keys + listen.Keys;
    assert "clientId" !in top.Keys + listen.Keys;
    assert "createdAt" !in top.Keys + listen.Keys && "updatedAt" !in top.Keys + listen.Keys;
    assert "newConnections" !in dates;
  }

  lemma BuildLaidOut(top: map<string, Raw>, dates: map<string, Raw>, listen: map<string, Raw>, now: int, e: Entity)
    requires IsLaidOut(top, dates, listen)
    requires e.databaseId == if !Nullish(Field(top, "id")) then Field(top, "id")
               else if Truthy(Field(top, "_id")) then StringOf(Field(top, "_id")) else Undefined
    requires !Nullish(e.subscriptionId) && Field(top, "subscriptionId") == e.subscriptionId
    requires e.clientId == if Nullish(Field(dates, "clientId")) then Null else Field(dates, "clientId")
    requires e.updatedAt == if Nullish(Field(dates, "updatedAt")) then Null else Field(dates, "updatedAt")
    requires GetDate(Field(dates, "createdAt"), now) == e.createdAt
    requires Field(listen, "newConnections") == Bool(e.newConnectionsListen)
    ensures Build(Obj(top), now) == e
  {
    LaidOutValues(top, dates, listen);
  }

  /** An entity rebuilt from its attributes is the entity. */
  lemma AttributesRoundTrip(e: Entity, now: int)
    requires IsEntity(e)
    ensures Build(Attributes(e), now) == e
  {
    BuildLaidOut(Attributes(e).fields, DateFields(e), ListenFields(e), now, e);
  }

  lemma JsonField(m: map<string, Raw>, k: string)
    ensures Field(Fields(Json(Obj(m))), k) == Json(Field(m, k)) && Fields(Json(Obj(m))).Keys <= m.Keys
  {}

  lemma BsonField(m: map<string, Raw>, k: string)
    ensures Field(Fields(Bson(Obj(m))), k) == (if k in m then Bson(m[k]) else Undefined)
    ensures Fields(Bson(Obj(m))).Keys == m.Keys
  {}

  lemma CachedDates(e: Entity)
    requires IsEntity(e)
    ensures var dates := Fields(Json(Obj(DateFields(e))));
            && dates.Keys <= {"clientId", "createdAt", "updatedAt"}
            && Field(dates, "clientId") == OrUndefined(e.clientId)
               && Field(dates, "updatedAt") == OrUndefined(e.updatedAt)
            && Field(dates, "createdAt") == if e.createdAt.Some? then IsoText(e.createdAt.value) else Null
  {
    JsonField(DateFields(e), "clientId");
    JsonField(DateFields(e), "createdAt");
    JsonField(DateFields(e), "updatedAt");
    JsonIdentity(e.clientId);
    JsonIdentity(e.updatedAt);
  }

  lemma DocumentDates(e: Entity)
    requires IsEntity(e)
    ensures var dates := Fields(Bson(Obj(DateFields(e))));
            && dates.Keys == {"clientId", "createdAt", "updatedAt"}
            && Field(dates, "clientId") == e.clientId && Field(dates, "updatedAt") == e.updatedAt
            && Field(dates, "createdAt") == Date(if e.createdAt.Some? then e.createdAt.value else EPOCH)
  {
    BsonField(DateFields(e), "clientId");
    BsonField(DateFields(e), "createdAt");
    BsonField(DateFields(e), "updatedAt");
    JsonIdentity(e.clientId);
    JsonIdentity(e.updatedAt);
  }

  lemma StoredListen(e: Entity)
    ensures Json(Obj(ListenFields(e))) == Obj(ListenFields(e)) && Bson(Obj(ListenFields(e))) == Obj(ListenFields(e))
  {
    JsonIdentity(Obj(ListenFields(e)));
  }

  /** The cached text, slot by slot. */
  lemma CachedFields(e: Entity)
    requires IsEntity(e)
    ensures var top := Fields(Json(Attributes(e)));
            && top.Keys <= {"id", "subscriptionId", "dataValues", "listen"}
            && Field(top, "id") == e.databaseId && Field(top, "subscriptionId") == e.subscriptionId
            && Field(top, "dataValues") == Json(Obj(DateFields(e))) && Field(top, "listen") == Obj(ListenFields(e))
  {
    var top := Attributes(e).fields;
    JsonField(top, "id");
    JsonField(top, "subscriptionId");
    JsonField(top, "dataValues");
    JsonField(top, "listen");
    if !e.databaseId.Undefined? { JsonIdentity(e.databaseId); }
    JsonIdentity(e.subscriptionId);
    StoredListen(e);
  }

  /** The document, slot by slot. */
  lemma DocumentFields(e: Entity, oid: string)
    requires IsEntity(e)
    ensures var top := Fields(Document(e, oid));
            && top.Keys == {"_id", "id", "subscriptionId", "dataValues", "listen"} && Field(top, "_id") == ObjectId(oid)
            && Field(top, "id") == (if e.databaseId.Undefined? then Null else e.databaseId)
            && Field(top, "subscriptionId") == e.subscriptionId
            && Field(top, "dataValues") == Bson(Obj(DateFields(e))) && Field(top, "listen") == Obj(ListenFields(e))
  {
    var top := Attributes(e).fields;
    BsonField(top, "id");
    BsonField(top, "subscriptionId");
    BsonField(top, "dataValues");
    BsonField(top, "listen");
    if !e.databaseId.Undefined? { JsonIdentity(e.databaseId); }
    JsonIdentity(e.subscriptionId);
    StoredListen(e);
  }

  /** Rebuilt from the text the cache kept of its attributes, an entity is the same exactly when its
      date is valid; an invalid one becomes the present. */
  lemma CacheRoundTrip(e: Entity, now: int)
    requires IsEntity(e)
    ensures Build(Json(Attributes(e)), now) == e.(createdAt := if e.createdAt.Some? then e.createdAt else Some(now))
    ensures Build(Json(Attributes(e)), now) == e <==> e.createdAt.Some?
  {
    CachedFields(e);
    CachedDates(e);
    BuildLaidOut(Fields(Json(Attributes(e))), Fields(Json(Obj(DateFields(e)))), ListenFields(e), now,
                 e.(createdAt := if e.createdAt.Some? then e.createdAt else Some(now)));
  }

  /** What a document gives back of an entity: its own id when there was none, and a valid date. */
  function AsStored(e: Entity, oid: string): Entity {
    e.(databaseId := if e.databaseId.Undefined? then Str(oid) else e.databaseId,
       createdAt := Some(if e.createdAt.Some? then e.createdAt.value else EPOCH))
  }

  lemma DocumentRoundTrip(e: Entity, oid: string, now: int)
    requires IsEntity(e)
    ensures Build(Document(e, oid), now) == AsStored(e, oid)
  {
    DocumentFields(e, oid);
    DocumentDates(e);
    BuildLaidOut(Fields(Document(e, oid)), Fields(Bson(Obj(DateFields(e)))), ListenFields(e), now, AsStored(e, oid));
  }
}
