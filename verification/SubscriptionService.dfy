/** src/modules/app/subscription/services/Subscription.service.ts: documents with a cache in front,
    each service call taken as one atomic step. */
module SubscriptionService {
  import opened Options
  import opened CacheKeys
  import opened SubscriptionEntity

  /** docs gives for each document id the entity whose attributes the document stores. */
  datatype Store = Store(docs: map<string, Entity>, cache: map<string, Raw>)

  /** What is cached for a document. */
  function NormalForm(e: Entity, oid: string): Raw {
    Json(Attributes(AsStored(e, oid)))
  }

  predicate IsDocOf(s: Store, o: string, sid: string) {
    o in s.docs && s.docs[o].subscriptionId == Str(sid)
  }

  predicate HasDoc(s: Store, sid: string) {
    exists o | o in s.docs :: IsDocOf(s, o, sid)
  }

  function Key(sid: string): string {
    GenerateKey(sid, SUBSCRIPTIONS)
  }

  lemma KeyText(sid: string)
    ensures Key(sid) == "subscriptions:" + sid
  {
    assert "subscriptions" + ":" == "subscriptions:";
  }

  ghost predicate IsCacheOf(s: Store, key: string, o: string)
    requires key in s.cache
  {
    && o in s.docs && s.docs[o].subscriptionId.Str? && key == Key(s.docs[o].subscriptionId.s)
    && s.cache[key] == NormalForm(s.docs[o], o)
  }

  ghost predicate DocsOk(s: Store) {
    && (forall o | o in s.docs :: IsEntity(s.docs[o]))
    && (forall o, p | o in s.docs && p in s.docs && s.docs[o].subscriptionId == s.docs[p].subscriptionId :: o == p)
  }

  ghost predicate HasSource(s: Store, key: string)
    requires key in s.cache
  {
    exists o :: IsCacheOf(s, key, o)
  }

  ghost predicate CacheOk(s: Store) {
    forall key | key in s.cache :: HasSource(s, key)
  }

  /** One document per subscription, and every cached text is the normal form of its document. */
  ghost predicate Coherent(s: Store) {
    DocsOk(s) && CacheOk(s)
  }

  /** The document a save writes: the one found, or a new one when there is none. */
  ghost predicate IsTarget(s: Store, sid: string, o: string) {
    IsDocOf(s, o, sid) || (o !in s.docs && !HasDoc(s, sid))
  }

  function Saved(s: Store, sid: string, e: Entity, o: string): Store {
    Store(s.docs[o := e], s.cache[Key(sid) := NormalForm(e, o)])
  }

  function Deleted(s: Store, sid: string, o: string): Store {
    Store(s.docs - {o}, s.cache - {Key(sid)})
  }

  lemma CachedSubscription(s: Store, sid: string)
    requires CacheOk(s) && Key(sid) in s.cache
    ensures exists o :: IsDocOf(s, o, sid) && s.cache[Key(sid)] == NormalForm(s.docs[o], o)
  {
    var o :| IsCacheOf(s, Key(sid), o);
    KeysAreInjective(sid, s.docs[o].subscriptionId.s, SUBSCRIPTIONS);
  }

  lemma NormalFormSubscription(e: Entity, oid: string)
    requires IsEntity(e)
    ensures Field(Fields(NormalForm(e, oid)), "subscriptionId") == e.subscriptionId
  {
    CachedFields(AsStored(e, oid));
  }

  /** Saving keeps the stores coherent exactly when the payload, once spread, names the subscription
      it is saved under. */
  lemma SaveIsCoherentIff(s: Store, sid: string, e: Entity, o: string)
    requires Coherent(s) && IsEntity(e) && IsTarget(s, sid, o)
    ensures Coherent(Saved(s, sid, e, o)) <==> e.subscriptionId == Str(sid)
  {
    if e.subscriptionId == Str(sid) {
      SaveKeepsDocs(s, sid, e, o);
      SaveKeepsCache(s, sid, e, o);
    } else if Coherent(Saved(s, sid, e, o)) {
      SaveBreaksCache(s, sid, e, o);
    }
  }

  lemma SaveBreaksCache(s: Store, sid: string, e: Entity, o: string)
    requires Coherent(Saved(s, sid, e, o)) && IsEntity(e)
    ensures e.subscriptionId == Str(sid)
  {
    var t := Saved(s, sid, e, o);
    CachedSubscription(t, sid);
    var p :| IsDocOf(t, p, sid) && t.cache[Key(sid)] == NormalForm(t.docs[p], p);
    NormalFormSubscription(e, o);
    NormalFormSubscription(t.docs[p], p);
  }

  lemma SaveKeepsDocs(s: Store, sid: string, e: Entity, o: string)
    requires DocsOk(s) && IsEntity(e) && IsTarget(s, sid, o) && e.subscriptionId == Str(sid)
    ensures DocsOk(Saved(s, sid, e, o))
  {
    forall p | p in s.docs && p != o ensures s.docs[p].subscriptionId != Str(sid) {
      assert IsDocOf(s, p, sid) <==> s.docs[p].subscriptionId == Str(sid);
    }
  }

  /** Other cached texts and documents are untouched. */
  ghost predicate SameElsewhere(s: Store, t: Store, key: string, o: string) {
    && (forall p | p in s.docs && p != o :: p in t.docs && t.docs[p] == s.docs[p])
    && (forall k | k in t.cache && k != key :: k in s.cache && t.cache[k] == s.cache[k])
  }

  lemma SourceElsewhere(s: Store, t: Store, key: string, sid: string, o: string)
    requires SameElsewhere(s, t, Key(sid), o) && IsTarget(s, sid, o)
    requires key in t.cache && key != Key(sid) && HasSource(s, key)
    ensures HasSource(t, key)
  {
    var p :| IsCacheOf(s, key, p);
    assert p != o;
    assert IsCacheOf(t, key, p);
  }

  lemma CacheElsewhere(s: Store, t: Store, sid: string, o: string)
    requires CacheOk(s) && SameElsewhere(s, t, Key(sid), o) && IsTarget(s, sid, o)
    requires Key(sid) in t.cache ==> HasSource(t, Key(sid))
    ensures CacheOk(t)
  {
    forall key | key in t.cache && key != Key(sid) ensures HasSource(t, key) {
      SourceElsewhere(s, t, key, sid, o);
    }
  }

  lemma SaveKeepsCache(s: Store, sid: string, e: Entity, o: string)
    requires CacheOk(s) && IsTarget(s, sid, o) && e.subscriptionId == Str(sid)
    ensures CacheOk(Saved(s, sid, e, o))
  {
    var t := Saved(s, sid, e, o);
    assert IsCacheOf(t, Key(sid), o);
    CacheElsewhere(s, t, sid, o);
  }

  lemma DeleteIsCoherent(s: Store, sid: string, o: string)
    requires Coherent(s) && IsDocOf(s, o, sid)
    ensures Coherent(Deleted(s, sid, o))
  {
    CacheElsewhere(s, Deleted(s, sid, o), sid, o);
  }

  lemma ForgetIsCoherent(s: Store, keys: set<string>)
    requires Coherent(s)
    ensures Coherent(s.(cache := s.cache - keys))
  {
    var t := s.(cache := s.cache - keys);
    forall key | key in t.cache ensures HasSource(t, key) {
      var p :| IsCacheOf(s, key, p);
      assert IsCacheOf(t, key, p);
    }
  }

  lemma CacheIsCoherent(s: Store, sid: string, o: string)
    requires Coherent(s) && IsDocOf(s, o, sid)
    ensures Coherent(s.(cache := s.cache[Key(sid) := NormalForm(s.docs[o], o)]))
  {
    assert s.docs[o := s.docs[o]] == s.docs;
    SaveIsCoherentIff(s, sid, s.docs[o], o);
  }

  class Service {
    var docs: map<string, Entity>
    var cache: map<string, Raw>

    constructor ()
      ensures Contents() == Store(map[], map[]) && Coherent(Contents())
    {
      docs, cache := map[], map[];
    }

    function Contents(): Store
      reads this
    {
      Store(docs, cache)
    }

    /** get: the same entity whether the cache has it or not; None is the not-found error. */
    method Get(sid: string, now: int) returns (r: Option<Entity>)
      requires Coherent(Contents())
      modifies this`cache
      ensures Coherent(Contents())
      ensures r.None? <==> !HasDoc(old(Contents()), sid)
      ensures forall o | IsDocOf(old(Contents()), o, sid) ::
                r == Some(AsStored(docs[o], o)) && cache == old(cache)[Key(sid) := NormalForm(docs[o], o)]
      ensures r.None? ==> cache == old(cache)
    {
      var saved := GetSaved(sid);
      if saved == Undefined {
        return None;
      }
      ghost var o :| IsDocOf(Contents(), o, sid);
      CacheRoundTrip(AsStored(docs[o], o), now);
      DocumentRoundTrip(docs[o], o, now);
      var subscription := Build(saved, now);
      assert subscription == AsStored(docs[o], o);
      CacheIsCoherent(Contents(), sid, o);
      cache := cache[Key(sid) := Json(Attributes(subscription))];
      r := Some(subscription);
    }

    /** The cached text, or else the document. */
    method GetSaved(sid: string) returns (saved: Raw)
      requires Coherent(Contents())
      ensures saved == Undefined <==> !HasDoc(Contents(), sid)
      ensures forall o | IsDocOf(Contents(), o, sid) :: saved == NormalForm(docs[o], o) || saved == Document(docs[o], o)
    {
      saved := Undefined;
      if Key(sid) in cache {
        CachedSubscription(Contents(), sid);
        saved := cache[Key(sid)];
      } else if HasDoc(Contents(), sid) {
        var o :| o in docs && IsDocOf(Contents(), o, sid);
        saved := Document(docs[o], o);
      }
    }

    /** save: newId stands for the id an insert generates, now for the clock. */
    method Save(sid: string, data: Raw, now: int, newId: string) returns (r: Entity, o: string)
      requires Coherent(Contents()) && newId !in docs
      requires IsJson(data)
      modifies this
      ensures IsTarget(old(Contents()), sid, o) && (o in old(docs) || o == newId)
      ensures Contents() == Saved(old(Contents()), sid, Build(data, now), o)
      ensures r == AsStored(Build(data, now), o)
      ensures Coherent(Contents()) <==> Build(data, now).subscriptionId == Str(sid)
    {
      o := newId;
      if HasDoc(Contents(), sid) {
        o :| o in docs && IsDocOf(Contents(), o, sid);
      }
      var subscription := Build(data, now);
      BuildIsEntity(data, now);
      SaveIsCoherentIff(Contents(), sid, subscription, o);
      docs := docs[o := subscription];
      DocumentRoundTrip(subscription, o, now);
      r := Build(Document(docs[o], o), now);
      cache := cache[Key(sid) := Json(Attributes(r))];
    }

    method Delete(sid: string) returns (deleted: bool)
      requires Coherent(Contents())
      modifies this
      ensures Coherent(Contents()) && Key(sid) !in cache && !HasDoc(Contents(), sid)
      ensures deleted <==> HasDoc(old(Contents()), sid)
      ensures docs == map o | o in old(docs) && !IsDocOf(old(Contents()), o, sid) :: old(docs)[o]
      ensures cache == old(cache) - {Key(sid)}
    {
      ghost var s := Contents();
      deleted := HasDoc(Contents(), sid);
      if deleted {
        var o :| o in docs && IsDocOf(Contents(), o, sid);
        DeleteIsCoherent(s, sid, o);
        docs := docs - {o};
      } else {
        ForgetIsCoherent(s, {Key(sid)});
      }
      cache := cache - {Key(sid)};
    }

    /** The cache drops keys on its own: a time to live runs out, or it is lost as a whole. */
    method Forget(keys: set<string>)
      requires Coherent(Contents())
      modifies this`cache
      ensures Coherent(Contents()) && cache == old(cache) - keys
    {
      ForgetIsCoherent(Contents(), keys);
      cache := cache - keys;
    }
  }
}
