/** src/modules/app/hook/services/Webhook.service.ts: hooks stored under generated keys, pulled once
    their time has come. */
module WebhookService {
  import opened Options
  import opened CacheKeys

  /** When a hook is to be sent: at once, from an instant on, or at a text that is no date. */
  datatype SendAt = AtOnce | At(epoch: int) | InvalidDate

  datatype Hook = Hook(responseEndpoint: Option<string>, responseMethod: Option<string>, sendAt: SendAt)

  /** One call of requestHook, made for the hook under key. */
  datatype Request = Request(key: string, method_: string, endpoint: string, at: int)

  /** The test epochDateNow > epochSentAt; a comparison with an invalid date is false. A hook that
      cannot be read counts as one to send at once. */
  predicate Due(hook: Option<Hook>, now: int) {
    match hook
    case None => now > 0
    case Some(h) =>
      match h.sendAt
      case AtOnce => now > 0
      case At(epoch) => now > epoch
      case InvalidDate => false
  }

  function ToLower(s: string): (r: string)
    ensures IsLowerCaseOf(r, s)
  {
    if s == "" then "" else [if 'A' <= s[0] <= 'Z' then s[0] - 'A' + 'a' else s[0]] + ToLower(s[1..])
  }

  /** r is s with its capital letters made small. */
  predicate IsLowerCaseOf(r: string, s: string) {
    && |r| == |s|
    && forall i | 0 <= i < |s| :: if 'A' <= s[i] <= 'Z' then r[i] as int == s[i] as int + 32 else r[i] == s[i]
  }

  /** The hook's own fields allow a request to be made for it: it has a method, and an endpoint of its
      own or, without one, the given base. */
  predicate CanBeSent(h: Hook, baseUrl: string) {
    && h.responseMethod.Some? && h.responseMethod.value != ""
    && (h.responseEndpoint.Some? ==> h.responseEndpoint.value != "") && (h.responseEndpoint.None? ==> baseUrl != "")
  }

  /** The instant lies after the one the hook is to be sent at; there is none after an invalid date. */
  predicate IsAfter(at: int, sendAt: SendAt) {
    && (sendAt.AtOnce? ==> 0 < at) && (sendAt.At? ==> sendAt.epoch < at) && !sendAt.InvalidDate?
  }

  /** A request made for the hook: after its time, with its method and endpoint. */
  predicate IsRequestFor(r: Request, key: string, h: Hook, baseUrl: string, now: int) {
    && r.key == key && r.at == now && IsAfter(now, h.sendAt) && CanBeSent(h, baseUrl)
    && IsLowerCaseOf(r.method_, h.responseMethod.value)
    && (h.responseEndpoint.Some? ==> r.endpoint == h.responseEndpoint.value)
    && (h.responseEndpoint.None? ==> r.endpoint == baseUrl)
  }

  lemma DueIff(hook: Option<Hook>, now: int)
    ensures Due(hook, now) <==> if hook.Some? then IsAfter(now, hook.value.sendAt) else 0 < now
  {}

  lemma RequestIff(key: string, hook: Option<Hook>, baseUrl: string, now: int)
    requires Due(hook, now)
    ensures RequestOf(key, hook, baseUrl, now).Some? <==> hook.Some? && CanBeSent(hook.value, baseUrl)
    ensures RequestOf(key, hook, baseUrl, now).Some? ==>
              IsRequestFor(RequestOf(key, hook, baseUrl, now).value, key, hook.value, baseUrl, now)
  {}

  function Endpoint(h: Hook, baseUrl: string): string {
    if h.responseEndpoint.Some? then h.responseEndpoint.value else baseUrl
  }

  /** The request a due hook makes, if it has a method and some endpoint to send to. */
  function RequestOf(key: string, hook: Option<Hook>, baseUrl: string, now: int): Option<Request> {
    if hook.Some? && hook.value.responseMethod.Some? && hook.value.responseMethod.value != ""
      && Endpoint(hook.value, baseUrl) != ""
    then Some(Request(key, ToLower(hook.value.responseMethod.value), Endpoint(hook.value, baseUrl), now))
    else None
  }

  function DueKeys(hooks: map<string, Option<Hook>>, schema: string, now: int): set<string> {
    set key | key in hooks && IsHookKey(key, schema) && Due(hooks[key], now)
  }

  /** The requests for the due ones among some listed keys, in their order. */
  function Requests(hooks: map<string, Option<Hook>>, keys: seq<string>, baseUrl: string, now: int): seq<Request>
    requires forall k | k in keys :: k in hooks
  {
    if keys == [] then []
    else
      var last, front := keys[|keys| - 1], keys[..|keys| - 1];
      var before := Requests(hooks, front, baseUrl, now);
      if Due(hooks[last], now) && RequestOf(last, hooks[last], baseUrl, now).Some?
      then before + [RequestOf(last, hooks[last], baseUrl, now).value] else before
  }

  function DueAmong(hooks: map<string, Option<Hook>>, keys: seq<string>, now: int): set<string>
    requires forall k | k in keys :: k in hooks
  {
    set k | k in keys && Due(hooks[k], now)
  }

  lemma RequestsSnoc(hooks: map<string, Option<Hook>>, keys: seq<string>, key: string, baseUrl: string, now: int)
    requires forall k | k in keys + [key] :: k in hooks
    ensures (forall k | k in keys :: k in hooks) && key in hooks
    ensures Requests(hooks, keys + [key], baseUrl, now) ==
            if Due(hooks[key], now) && RequestOf(key, hooks[key], baseUrl, now).Some?
            then Requests(hooks, keys, baseUrl, now) + [RequestOf(key, hooks[key], baseUrl, now).value]
            else Requests(hooks, keys, baseUrl, now)
    ensures DueAmong(hooks, keys + [key], now) ==
            DueAmong(hooks, keys, now) + if Due(hooks[key], now) then {key} else {}
  {
    assert (forall k | k in keys :: k in keys + [key]) && key in keys + [key];
    assert (keys + [key])[..|keys|] == keys;
  }

  /** A listing gives the stored keys of the schema, all of them and nothing else. */
  ghost predicate Listed(hooks: map<string, Option<Hook>>, schema: string, keys: seq<string>) {
    forall k :: k in keys <==> k in hooks && IsHookKey(k, schema)
  }

  lemma DueAmongListed(hooks: map<string, Option<Hook>>, schema: string, keys: seq<string>, now: int)
    requires Listed(hooks, schema, keys)
    ensures forall k | k in keys :: k in hooks && IsHookKey(k, schema)
    ensures DueAmong(hooks, keys, now) == DueKeys(hooks, schema, now)
  {}

  predicate NoDuplicates(keys: seq<string>) {
    forall i, j | 0 <= i < j < |keys| :: keys[i] != keys[j]
  }

  lemma {:induction false} RequestsMeaning(hooks: map<string, Option<Hook>>, keys: seq<string>, baseUrl: string,
                                           now: int)
    requires (forall k | k in keys :: k in hooks) && NoDuplicates(keys)
    ensures var rs := Requests(hooks, keys, baseUrl, now);
            && (forall r | r in rs ::
                  r.key in keys && Due(hooks[r.key], now) && Some(r) == RequestOf(r.key, hooks[r.key], baseUrl, now))
            && (forall k | k in keys && Due(hooks[k], now) && RequestOf(k, hooks[k], baseUrl, now).Some? ::
                  RequestOf(k, hooks[k], baseUrl, now).value in rs)
            && (forall i, j | 0 <= i < j < |rs| :: rs[i].key != rs[j].key)
  {
    if keys != [] {
      var last, front := keys[|keys| - 1], keys[..|keys| - 1];
      assert keys == front + [last];
      assert forall k | k in front :: k in keys;
      assert last !in front;
      RequestsMeaning(hooks, front, baseUrl, now);
    }
  }

  /** Said with the hooks' own fields: the requests are those for the hooks whose time has come and
      that can be sent, each hook's one and with its method and endpoint. */
  lemma RequestsFit(hooks: map<string, Option<Hook>>, keys: seq<string>, baseUrl: string, now: int)
    requires (forall k | k in keys :: k in hooks) && NoDuplicates(keys)
    ensures var rs := Requests(hooks, keys, baseUrl, now);
            && (forall r | r in rs ::
                  r.key in keys && hooks[r.key].Some? && IsRequestFor(r, r.key, hooks[r.key].value, baseUrl, now))
            && (forall k | k in keys && hooks[k].Some? && IsAfter(now, hooks[k].value.sendAt)
               && CanBeSent(hooks[k].value, baseUrl) ::
                  exists r :: r in rs && r.key == k)
            && (forall i, j | 0 <= i < j < |rs| :: rs[i].key != rs[j].key)
  {
    var rs := Requests(hooks, keys, baseUrl, now);
    RequestsMeaning(hooks, keys, baseUrl, now);
    forall r | r in rs ensures hooks[r.key].Some? && IsRequestFor(r, r.key, hooks[r.key].value, baseUrl, now) {
      RequestIff(r.key, hooks[r.key], baseUrl, now);
    }
    forall k | k in keys && hooks[k].Some? && IsAfter(now, hooks[k].value.sendAt) && CanBeSent(hooks[k].value, baseUrl)
      ensures exists r :: r in rs && r.key == k
    {
      DueIff(hooks[k], now);
      RequestIff(k, hooks[k], baseUrl, now);
      assert RequestOf(k, hooks[k], baseUrl, now).value in rs;
    }
  }

  function Position(keys: seq<string>, k: string): (i: nat)
    requires k in keys
    ensures i < |keys| && keys[i] == k
  {
    var last := |keys| - 1;
    if keys[last] == k then last else assert k in keys[..last]; Position(keys[..last], k)
  }

  /** The requests come in the order of the listing. */
  ghost predicate InListingOrder(rs: seq<Request>, keys: seq<string>) {
    && (forall i | 0 <= i < |rs| :: rs[i].key in keys)
    && (forall i, j | 0 <= i < j < |rs| :: Position(keys, rs[i].key) < Position(keys, rs[j].key))
  }

  lemma InOrderSnoc(rs: seq<Request>, front: seq<string>, last: string, r: Request)
    requires InListingOrder(rs, front) && last !in front && r.key == last
    ensures InListingOrder(rs, front + [last]) && InListingOrder(rs + [r], front + [last])
  {
    var keys := front + [last];
    assert keys[..|front|] == front && keys[|front|] == last;
    forall i | 0 <= i < |rs| ensures rs[i].key in keys && Position(keys, rs[i].key) == Position(front, rs[i].key) {
      assert rs[i].key in front;
    }
    assert Position(keys, last) == |front|;
  }

  lemma {:induction false} RequestsInOrder(hooks: map<string, Option<Hook>>, keys: seq<string>, baseUrl: string,
                                           now: int)
    requires (forall k | k in keys :: k in hooks) && NoDuplicates(keys)
    ensures InListingOrder(Requests(hooks, keys, baseUrl, now), keys)
  {
    if keys != [] {
      var last, front := keys[|keys| - 1], keys[..|keys| - 1];
      assert keys == front + [last] && last !in front;
      RequestsInOrder(hooks, front, baseUrl, now);
      InOrderSnoc(Requests(hooks, front, baseUrl, now), front, last, Request(last, "", "", now));
      if RequestOf(last, hooks[last], baseUrl, now).Some? {
        InOrderSnoc(Requests(hooks, front, baseUrl, now), front, last,
          RequestOf(last, hooks[last], baseUrl, now).value);
      }
    }
  }

  /** A stored hook is the saved one or unreadable; a hook that fired is no longer stored, fired
      after its time, and fired only once. */
  ghost predicate ValidHooks(hooks: map<string, Option<Hook>>, requests: seq<Request>, saved: map<string, Hook>) {
    && (forall k | k in hooks :: k in saved && (hooks[k] == None || hooks[k] == Some(saved[k])))
    && (forall r | r in requests :: r.key in saved && r.key !in hooks)
    && (forall r | r in requests :: IsAfter(r.at, saved[r.key].sendAt))
    && (forall i, j | 0 <= i < j < |requests| :: requests[i].key != requests[j].key)
  }

  lemma PullKeepsValid(hooks: map<string, Option<Hook>>, requests: seq<Request>, saved: map<string, Hook>,
                       keys: seq<string>, baseUrl: string, now: int)
    requires ValidHooks(hooks, requests, saved) && NoDuplicates(keys) && forall k | k in keys :: k in hooks
    ensures ValidHooks(hooks - DueAmong(hooks, keys, now), requests + Requests(hooks, keys, baseUrl, now), saved)
  {
    var more := Requests(hooks, keys, baseUrl, now);
    RequestsMeaning(hooks, keys, baseUrl, now);
    RequestsFit(hooks, keys, baseUrl, now);
    assert forall r | r in more :: r.at == now && hooks[r.key] == Some(saved[r.key]);
    assert forall r | r in requests + more :: r in requests || r in more;
  }

  /** What a pull takes out of the store: of the hooks of the schema the unreadable ones and those
      whose time has come, and no other. */
  ghost predicate Pulled(before: map<string, Option<Hook>>, schema: string, now: int, after: map<string,
                         Option<Hook>>) {
    && (forall k | k in after :: k in before && after[k] == before[k])
    && (forall k | k in before && IsHookKey(k, schema) && before[k].Some? ::
          k !in after <==> IsAfter(now, before[k].value.sendAt))
    && (forall k | k in before && IsHookKey(k, schema) && before[k].None? :: k !in after <==> 0 < now)
    && (forall k | k in before && !IsHookKey(k, schema) :: k in after)
  }

  lemma PulledDue(hooks: map<string, Option<Hook>>, schema: string, now: int)
    ensures Pulled(hooks, schema, now, hooks - DueKeys(hooks, schema, now))
  {
    forall k | k in hooks
      ensures Due(hooks[k], now) <==> if hooks[k].Some? then IsAfter(now, hooks[k].value.sendAt) else 0 < now
    {
      DueIff(hooks[k], now);
    }
  }

  /** What it requests, in the order of the listing: one request for each readable hook of the schema
      whose time has come and that can be sent, with the hook's method and endpoint. */
  ghost predicate Requested(hooks: map<string, Option<Hook>>, schema: string, keys: seq<string>, now: int,
                            baseUrl: string,
                            before: seq<Request>, after: seq<Request>)
  {
    && before <= after
    && var made := after[|before|..];
       && (forall r | r in made ::
             r.key in hooks && IsHookKey(r.key, schema) && hooks[r.key].Some?
             && IsRequestFor(r, r.key, hooks[r.key].value, baseUrl, now))
       && (forall k | k in hooks && IsHookKey(k, schema) && hooks[k].Some? && IsAfter(now, hooks[k].value.sendAt)
             && CanBeSent(hooks[k].value, baseUrl) :: exists r :: r in made && r.key == k)
       && (forall i, j | 0 <= i < j < |made| :: made[i].key != made[j].key)
       && InListingOrder(made, keys)
  }

  lemma RequestedDue(hooks: map<string, Option<Hook>>, schema: string, keys: seq<string>, now: int, baseUrl: string,
                     before: seq<Request>)
    requires NoDuplicates(keys) && Listed(hooks, schema, keys)
    ensures forall k | k in keys :: k in hooks
    ensures Requested(hooks, schema, keys, now, baseUrl, before, before + Requests(hooks, keys, baseUrl, now))
  {
    var made := Requests(hooks, keys, baseUrl, now);
    assert (before + made)[|before|..] == made;
    RequestsFit(hooks, keys, baseUrl, now);
    RequestsInOrder(hooks, keys, baseUrl, now);
  }

  class Service {
    const baseUrl: string
    var hooks: map<string, Option<Hook>>
    var requests: seq<Request>
    /** Every key ever saved, and what was saved under it. */
    ghost var saved: map<string, Hook>

    constructor (baseUrl: string)
      ensures Valid() && hooks == map[] && requests == [] && saved == map[] && this.baseUrl == baseUrl
    {
      this.baseUrl, hooks, requests, saved := baseUrl, map[], [], map[];
    }

    ghost predicate Valid()
      reads this
    {
      ValidHooks(hooks, requests, saved)
    }

    /** save, under a generated id not used before. */
    method Save(schema: string, hook: Hook, uuid: string)
      requires Valid() && HookKey(schema, uuid) !in saved
      modifies this`hooks, this`saved
      ensures Valid() && hooks == old(hooks)[HookKey(schema, uuid) := Some(hook)]
      ensures saved == old(saved)[HookKey(schema, uuid) := hook]
    {
      var key := HookKey(schema, uuid);
      hooks, saved := hooks[key := Some(hook)], saved[key := hook];
    }

    method Delete(hookId: string, schema: string) returns (deleted: bool)
      modifies this`hooks
      ensures hooks == old(hooks) - {HookKey(schema, hookId)}
      ensures deleted <==> HookKey(schema, hookId) in old(hooks)
      ensures old(Valid()) ==> Valid()
    {
      deleted := HookKey(schema, hookId) in hooks;
      hooks := hooks - {HookKey(schema, hookId)};
    }

    /** The cache drops or garbles entries on its own. */
    method Lose(keys: set<string>, garbled: set<string>)
      requires Valid()
      modifies this`hooks
      ensures Valid()
    {
      hooks := map k | k in hooks && k !in keys :: if k in garbled then None else hooks[k];
    }

    /** One listed hook: if it is due it is requested and deleted. */
    method PullOne(key: string, hook: Option<Hook>, schema: string, now: int)
      requires IsHookKey(key, schema)
      modifies this`hooks, this`requests
      ensures hooks == if Due(hook, now) then old(hooks) - {key} else old(hooks)
      ensures requests == if Due(hook, now) && RequestOf(key, hook, baseUrl, now).Some?
                then old(requests) + [RequestOf(key, hook, baseUrl, now).value] else old(requests)
    {
      if Due(hook, now) {
        if RequestOf(key, hook, baseUrl, now).Some? {
          requests := requests + [RequestOf(key, hook, baseUrl, now).value];
        }
        ListedKeyRoundTrip(key, schema);
        var _ := Delete(HookId(key, schema), schema);
      }
    }

    /** The loop of pullHook over listed keys. */
    method PullAll(schema: string, now: int, keys: seq<string>)
      requires forall k | k in keys :: k in hooks && IsHookKey(k, schema)
      modifies this`hooks, this`requests
      ensures hooks == old(hooks) - DueAmong(old(hooks), keys, now)
      ensures requests == old(requests) + Requests(old(hooks), keys, baseUrl, now)
    {
      var list, i := hooks, 0;
      while i < |keys|
        invariant 0 <= i <= |keys|
        invariant hooks == list - DueAmong(list, keys[..i], now)
        invariant requests == old(requests) + Requests(list, keys[..i], baseUrl, now)
      {
        assert keys[..i + 1] == keys[..i] + [keys[i]];
        RequestsSnoc(list, keys[..i], keys[i], baseUrl, now);
        PullOne(keys[i], list[keys[i]], schema, now);
        i := i + 1;
      }
      assert keys[..i] == keys;
    }

    /** pullHook over the keys the store lists, in whatever order it does. */
    method PullHook(schema: string, now: int, keys: seq<string>)
      requires Valid() && NoDuplicates(keys) && Listed(hooks, schema, keys)
      modifies this`hooks, this`requests
      ensures Valid()
      ensures hooks == old(hooks) - DueKeys(old(hooks), schema, now)
      ensures requests == old(requests) + Requests(old(hooks), keys, baseUrl, now)
      ensures forall k | k in old(hooks) && IsHookKey(k, schema) :: k !in hooks <==>
                match old(hooks)[k]
                case None => 0 < now
                case Some(h) => if h.sendAt.At? then h.sendAt.epoch < now else h.sendAt.AtOnce? && 0 < now
      ensures forall i | |old(requests)| <= i < |requests| ::
                && requests[i].at == now && requests[i].key in old(hooks) && old(hooks)[requests[i].key].Some?
                && var sendAt := old(hooks)[requests[i].key].value.sendAt;
                   !sendAt.InvalidDate? && (sendAt.At? ==> sendAt.epoch < now) && (sendAt.AtOnce? ==> 0 < now)
      ensures Pulled(old(hooks), schema, now, hooks)
      ensures Requested(old(hooks), schema, keys, now, baseUrl, old(requests), requests)
    {
      PulledDue(hooks, schema, now);
      RequestedDue(hooks, schema, keys, now, baseUrl, requests);
      DueAmongListed(hooks, schema, keys, now);
      PullKeepsValid(hooks, requests, saved, keys, baseUrl, now);
      ghost var before := hooks;
      PullAll(schema, now, keys);
      forall i | |old(requests)| <= i < |requests|
        ensures requests[i].key in before && before[requests[i].key].Some?
        ensures IsRequestFor(requests[i], requests[i].key, before[requests[i].key].value, baseUrl, now)
      {
        assert requests[i] == requests[|old(requests)|..][i - |old(requests)|];
      }
    }
  }
}
