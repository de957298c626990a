/** pullHook of src/modules/app/hook/services/Webhook.service.ts as interleaved calls: the listing,
    each read of a listed key, the loop that fires, and each delete are steps of their own. A pull
    whose delete fails takes no further step. */
module WebhookPulls {
  import opened Options
  import opened CacheKeys
  import opened WebhookService

  /** Deleting starts with the loop, whose instant is now; rest are the deletes still to land. */
  datatype Phase = Reading | Deleting(now: int, rest: set<string>)

  /** over holds the pulls that had ended when this one listed its keys; values are what it read. */
  datatype Pull = Pull(schema: string, keys: seq<string>, over: set<nat>, values: map<string, Option<Hook>>,
                       phase: Phase)

  datatype Firing = Firing(pull: nat, request: Request)

  datatype State = State(baseUrl: string, hooks: map<string, Option<Hook>>, saved: map<string, Hook>,
                         pulls: map<nat, Pull>, fired: seq<Firing>)

  datatype Action =
    | SaveHook(schema: string, hook: Hook, uuid: string)
    | Lose(gone: set<string>, garbled: set<string>)
    | List(p: nat, schema: string, keys: seq<string>)
    | Read(p: nat, key: string)
    | Fire(p: nat, now: int)
    | Remove(p: nat, key: string)

  predicate Ended(pull: Pull) {
    pull.phase.Deleting? && pull.phase.rest == {}
  }

  function EndedPulls(s: State): set<nat> {
    set p | p in s.pulls && Ended(s.pulls[p])
  }

  function Goto(s: State, p: nat, pull: Pull): State {
    s.(pulls := s.pulls[p := pull])
  }

  function Firings(p: nat, requests: seq<Request>): seq<Firing> {
    seq(|requests|, i requires 0 <= i < |requests| => Firing(p, requests[i]))
  }

  predicate CanFire(pull: Pull) {
    pull.phase.Reading? && AllRead(pull)
  }

  predicate AllRead(pull: Pull) {
    forall k | k in pull.keys :: k in pull.values
  }

  ghost function Apply(s: State, a: Action): State {
    match a
    case SaveHook(schema, hook, uuid) =>
      var key := HookKey(schema, uuid);
      if key in s.saved then s else s.(hooks := s.hooks[key := Some(hook)], saved := s.saved[key := hook])
    case Lose(gone, garbled) =>
      s.(hooks := map k | k in s.hooks && k !in gone :: if k in garbled then None else s.hooks[k])
    case List(p, schema, keys) =>
      if p in s.pulls || !NoDuplicates(keys) || !Listed(s.hooks, schema, keys) then s
      else Goto(s, p, Pull(schema, keys, EndedPulls(s), map[], Reading))
    case Read(p, key) =>
      if p !in s.pulls || !s.pulls[p].phase.Reading? || key !in s.pulls[p].keys || key in s.pulls[p].values then s
      else
        var value := if key in s.hooks then s.hooks[key] else None;
        Goto(s, p, s.pulls[p].(values := s.pulls[p].values[key := value]))
    case Fire(p, now) =>
      if p !in s.pulls || !CanFire(s.pulls[p]) then s
      else
        var pull := s.pulls[p];
        Goto(s.(fired := s.fired + Firings(p, Requests(pull.values, pull.keys, s.baseUrl, now))), p,
             pull.(phase := Deleting(now, DueAmong(pull.values, pull.keys, now))))
    case Remove(p, key) =>
      if p !in s.pulls || !s.pulls[p].phase.Deleting? || key !in s.pulls[p].phase.rest then s
      else
        var pull := s.pulls[p];
        Goto(s.(hooks := s.hooks - {HookKey(pull.schema, HookId(key, pull.schema))}), p,
             pull.(phase := Deleting(pull.phase.now, pull.phase.rest - {key})))
  }

  ghost function Exec(s: State, actions: seq<Action>): State {
    if actions == [] then s else Apply(Exec(s, actions[..|actions| - 1]), actions[|actions| - 1])
  }

  /** What happens to the store from outside: a save under a new key stores the hook, and keys get lost
      or become unreadable. */
  lemma StoreEffects(s: State, schema: string, hook: Hook, uuid: string, gone: set<string>, garbled: set<string>)
    ensures var key, t := "hooks:" + schema + ":" + uuid, Apply(s, SaveHook(schema, hook, uuid));
            && (key in s.saved ==> t == s)
            && (key !in s.saved ==> t == s.(hooks := s.hooks[key := Some(hook)], saved := s.saved[key := hook]))
    ensures var t := Apply(s, Lose(gone, garbled));
            && t == s.(hooks := t.hooks) && t.hooks.Keys == s.hooks.Keys - gone
            && forall k | k in t.hooks :: t.hooks[k] == if k in garbled then None else s.hooks[k]
  {
    HookKeyText(schema, uuid);
  }

  /** A pull lists all keys of its schema and notes which pulls have nothing left to do, reads what is
      stored under each, and deletes just the keys it has to. */
  lemma PullEffects(s: State, p: nat, schema: string, keys: seq<string>, key: string)
    requires forall q | q in s.pulls && s.pulls[q].phase.Deleting? ::
               forall k | k in s.pulls[q].phase.rest :: IsHookKey(k, s.pulls[q].schema)
    ensures p !in s.pulls && NoDuplicates(keys) && Listed(s.hooks, schema, keys) ==>
              var t := Apply(s, List(p, schema, keys));
              && t == s.(pulls := s.pulls[p := t.pulls[p]])
              && t.pulls[p].schema == schema && t.pulls[p].keys == keys && t.pulls[p].values == map[]
                 && t.pulls[p].phase.Reading?
              && forall q :: q in t.pulls[p].over <==>
                 q in s.pulls && s.pulls[q].phase.Deleting? && s.pulls[q].phase.rest == {}
    ensures p in s.pulls && s.pulls[p].phase.Reading? && key in s.pulls[p].keys && key !in s.pulls[p].values ==>
              var values := s.pulls[p].values[key := if key in s.hooks then s.hooks[key] else None];
              Apply(s, Read(p, key)) == s.(pulls := s.pulls[p := s.pulls[p].(values := values)])
    ensures p in s.pulls && s.pulls[p].phase.Deleting? && key in s.pulls[p].phase.rest ==>
              var t := Apply(s, Remove(p, key));
              && t == s.(hooks := s.hooks - {key}, pulls := s.pulls[p := t.pulls[p]])
              && t.pulls[p] == s.pulls[p].(phase := Deleting(s.pulls[p].phase.now, s.pulls[p].phase.rest - {key}))
  {
    if p in s.pulls && s.pulls[p].phase.Deleting? && key in s.pulls[p].phase.rest {
      ListedKeyRoundTrip(key, s.pulls[p].schema);
    }
  }

  // ---------- the invariant ----------

  ghost predicate HooksOk(s: State) {
    forall k | k in s.hooks :: k in s.saved && (s.hooks[k] == None || s.hooks[k] == Some(s.saved[k]))
  }

  /** A pull that read the hook while it was stored and readable, with a method and an endpoint, and
      that goes through its loop at an instant when the hook is due, requests it. */
  predicate Wants(pull: Pull, baseUrl: string, now: int, k: string) {
    && k in pull.keys && k in pull.values
    && Due(pull.values[k], now) && RequestOf(k, pull.values[k], baseUrl, now).Some?
  }

  predicate Fires(pull: Pull, baseUrl: string, k: string) {
    pull.phase.Deleting? && Wants(pull, baseUrl, pull.phase.now, k)
  }

  ghost predicate HasFired(fired: seq<Firing>, p: nat, k: string) {
    exists f :: f in fired && f.pull == p && f.request.key == k
  }

  ghost predicate PullOk(s: State, pull: Pull) {
    && NoDuplicates(pull.keys) && (forall k | k in pull.keys :: k in s.saved && IsHookKey(k, pull.schema))
    && (forall k | k in pull.values ::
          k in s.saved && (pull.values[k] == None || pull.values[k] == Some(s.saved[k])))
    && (pull.phase.Deleting? ==> AllRead(pull) && forall k | k in pull.phase.rest :: k in pull.keys)
    && (forall q | q in pull.over :: q in s.pulls && Ended(s.pulls[q]))
  }

  /** A hook fired after its time, by a pull that listed it; if it is still stored, that pull has
      yet to delete it. */
  ghost predicate FiringOk(s: State, f: Firing) {
    && f.pull in s.pulls && Fires(s.pulls[f.pull], s.baseUrl, f.request.key) && f.request.key in s.saved
    && IsRequestFor(f.request, f.request.key, s.saved[f.request.key], s.baseUrl, f.request.at)
    && (f.request.key in s.hooks ==> f.request.key in s.pulls[f.pull].phase.rest)
  }

  /** A pull does not list what an ended one fired. */
  ghost predicate ListedAfter(pull: Pull, f: Firing) {
    f.pull in pull.over ==> f.request.key !in pull.keys
  }

  ghost predicate OncePerPull(fired: seq<Firing>) {
    forall i, j | 0 <= i < j < |fired| && fired[i].pull == fired[j].pull :: fired[i].request.key != fired[j].request.key
  }

  ghost predicate Inv(s: State) {
    && HooksOk(s) && OncePerPull(s.fired)
    && (forall p | p in s.pulls :: PullOk(s, s.pulls[p]))
    && (forall f | f in s.fired :: FiringOk(s, f))
    && (forall p, f | p in s.pulls && f in s.fired :: ListedAfter(s.pulls[p], f))
    && (forall p, k | p in s.pulls && Fires(s.pulls[p], s.baseUrl, k) :: HasFired(s.fired, p, k))
  }

  lemma ListKeepsInv(s: State, p: nat, schema: string, keys: seq<string>)
    requires Inv(s) && p !in s.pulls && NoDuplicates(keys) && Listed(s.hooks, schema, keys)
    ensures Inv(Apply(s, List(p, schema, keys)))
  {
    var t := Apply(s, List(p, schema, keys));
    forall f | f in s.fired ensures ListedAfter(t.pulls[p], f) {
      assert FiringOk(s, f);
    }
    forall q | q in t.pulls ensures PullOk(t, t.pulls[q]) {
      if q != p {
        assert PullOk(s, s.pulls[q]);
      }
    }
    forall q, k | q in t.pulls && Fires(t.pulls[q], t.baseUrl, k) ensures HasFired(t.fired, q, k) {
      assert q != p && Fires(s.pulls[q], s.baseUrl, k);
    }
    forall f | f in t.fired ensures FiringOk(t, f) {
      assert FiringOk(s, f);
    }
  }

  /** Two states with the same pulls, except that p is at another stage, the same firings, and no
      hook that the other has not. */
  ghost predicate Continues(s: State, t: State, p: nat) {
    && p in s.pulls && p in t.pulls && t.pulls == s.pulls[p := t.pulls[p]]
    && t.saved == s.saved && t.fired == s.fired && t.baseUrl == s.baseUrl && t.hooks.Keys <= s.hooks.Keys
    && t.pulls[p].keys == s.pulls[p].keys && t.pulls[p].over == s.pulls[p].over
    && t.pulls[p].schema == s.pulls[p].schema
    && (Ended(s.pulls[p]) ==> Ended(t.pulls[p]))
    && (s.pulls[p].phase.Reading? <==> t.pulls[p].phase.Reading?)
    && (s.pulls[p].phase.Deleting? ==>
          t.pulls[p].values == s.pulls[p].values && t.pulls[p].phase.now == s.pulls[p].phase.now)
  }

  lemma ContinuesFires(s: State, t: State, p: nat, q: nat, k: string)
    requires Continues(s, t, p) && q in s.pulls
    ensures Fires(t.pulls[q], t.baseUrl, k) <==> Fires(s.pulls[q], s.baseUrl, k)
  {}

  lemma ContinuesPull(s: State, t: State, p: nat, pull: Pull)
    requires Continues(s, t, p) && PullOk(s, pull)
    ensures PullOk(t, pull)
  {}

  lemma ContinuesKeepsInv(s: State, t: State, p: nat)
    requires Inv(s) && Continues(s, t, p) && HooksOk(t) && PullOk(s, t.pulls[p])
    requires forall f | f in s.fired && f.request.key in t.hooks && f.pull == p ::
               t.pulls[p].phase.Deleting? && f.request.key in t.pulls[p].phase.rest
    ensures Inv(t)
  {
    forall q | q in t.pulls ensures PullOk(t, t.pulls[q]) {
      assert PullOk(s, t.pulls[q]);
      ContinuesPull(s, t, p, t.pulls[q]);
    }
    forall f | f in t.fired ensures FiringOk(t, f) {
      assert FiringOk(s, f);
      ContinuesFires(s, t, p, f.pull, f.request.key);
    }
    forall q, k | q in t.pulls && Fires(t.pulls[q], t.baseUrl, k) ensures HasFired(t.fired, q, k) {
      ContinuesFires(s, t, p, q, k);
    }
    forall q, f | q in t.pulls && f in t.fired ensures ListedAfter(t.pulls[q], f) {
      assert ListedAfter(s.pulls[q], f);
    }
  }

  lemma ReadKeepsInv(s: State, p: nat, key: string)
    requires Inv(s) && p in s.pulls && s.pulls[p].phase.Reading? && key in s.pulls[p].keys && key !in s.pulls[p].values
    ensures Inv(Apply(s, Read(p, key)))
  {
    assert PullOk(s, s.pulls[p]);
    forall f | f in s.fired ensures f.pull != p {
      assert FiringOk(s, f);
    }
    ContinuesKeepsInv(s, Apply(s, Read(p, key)), p);
  }

  lemma FiredOnes(p: nat, requests: seq<Request>, f: Firing)
    ensures f in Firings(p, requests) <==> f.pull == p && f.request in requests
  {
    if f in Firings(p, requests) {
      var i :| 0 <= i < |requests| && Firings(p, requests)[i] == f;
    }
    if f.pull == p && f.request in requests {
      var i :| 0 <= i < |requests| && requests[i] == f.request;
      assert Firings(p, requests)[i] == f;
    }
  }

  lemma FireKeepsOnce(s: State, p: nat, now: int)
    requires Inv(s) && p in s.pulls && CanFire(s.pulls[p])
    ensures OncePerPull(Apply(s, Fire(p, now)).fired)
  {
    var pull := s.pulls[p];
    assert PullOk(s, pull);
    RequestsMeaning(pull.values, pull.keys, s.baseUrl, now);
    forall f | f in s.fired ensures f.pull != p {
      assert FiringOk(s, f);
    }
    assert forall i | 0 <= i < |s.fired| :: s.fired[i] in s.fired;
  }

  /** What the loop fires: one request for each key the pull wants. */
  lemma NewFirings(s: State, p: nat, now: int, k: string)
    requires Inv(s) && p in s.pulls && CanFire(s.pulls[p])
    ensures HasFired(Apply(s, Fire(p, now)).fired, p, k) <==> Wants(s.pulls[p], s.baseUrl, now, k)
  {
    var pull, t := s.pulls[p], Apply(s, Fire(p, now));
    assert PullOk(s, pull);
    RequestsMeaning(pull.values, pull.keys, s.baseUrl, now);
    var requests := Requests(pull.values, pull.keys, s.baseUrl, now);
    forall f | f in s.fired ensures f.pull != p {
      assert FiringOk(s, f);
    }
    if f :| f in t.fired && f.pull == p && f.request.key == k {
      FiredOnes(p, requests, f);
    }
    if Wants(pull, s.baseUrl, now, k) {
      var f := Firing(p, RequestOf(k, pull.values[k], s.baseUrl, now).value);
      FiredOnes(p, requests, f);
      assert f in t.fired;
    }
  }

  lemma NewFiringOk(s: State, p: nat, now: int, f: Firing)
    requires Inv(s) && p in s.pulls && CanFire(s.pulls[p])
    requires f in Apply(s, Fire(p, now)).fired && f !in s.fired
    ensures f.pull == p && FiringOk(Apply(s, Fire(p, now)), f)
  {
    var pull := s.pulls[p];
    assert PullOk(s, pull);
    RequestsMeaning(pull.values, pull.keys, s.baseUrl, now);
    FiredOnes(p, Requests(pull.values, pull.keys, s.baseUrl, now), f);
    RequestIff(f.request.key, pull.values[f.request.key], s.baseUrl, now);
    assert pull.values[f.request.key] == Some(s.saved[f.request.key]) && f.request.at == now;
  }

  /** What the loop changes besides the firings: the stage of p. */
  lemma FireChanges(s: State, p: nat, now: int)
    requires p in s.pulls && CanFire(s.pulls[p])
    ensures var t, pull := Apply(s, Fire(p, now)), s.pulls[p];
            && t == Goto(s.(fired := t.fired), p, pull.(phase := Deleting(now, DueAmong(pull.values, pull.keys, now))))
            && t.fired == s.fired + Firings(p, Requests(pull.values, pull.keys, s.baseUrl, now))
  {}

  lemma FireKeepsPull(s: State, p: nat, now: int, pull: Pull)
    requires p in s.pulls && CanFire(s.pulls[p]) && PullOk(s, pull)
    ensures PullOk(Apply(s, Fire(p, now)), pull) && p !in pull.over
  {
    FireChanges(s, p, now);
  }

  lemma FireKeepsFired(s: State, p: nat, now: int, q: nat, k: string)
    requires Inv(s) && p in s.pulls && CanFire(s.pulls[p]) && q in s.pulls
    requires var t := Apply(s, Fire(p, now)); q in t.pulls && Fires(t.pulls[q], t.baseUrl, k)
    ensures HasFired(Apply(s, Fire(p, now)).fired, q, k)
  {
    FireChanges(s, p, now);
    if q == p {
      NewFirings(s, p, now, k);
    } else {
      var f :| f in s.fired && f.pull == q && f.request.key == k;
      assert f in Apply(s, Fire(p, now)).fired;
    }
  }

  lemma OldFiringOk(s: State, p: nat, now: int, f: Firing)
    requires p in s.pulls && CanFire(s.pulls[p]) && FiringOk(s, f)
    ensures FiringOk(Apply(s, Fire(p, now)), f)
  {
    FireChanges(s, p, now);
  }

  lemma FireKeepsInv(s: State, p: nat, now: int)
    requires Inv(s) && p in s.pulls && CanFire(s.pulls[p])
    ensures Inv(Apply(s, Fire(p, now)))
  {
    var t := Apply(s, Fire(p, now));
    FireChanges(s, p, now);
    FireKeepsOnce(s, p, now);
    assert PullOk(s, s.pulls[p]);
    forall q | q in t.pulls ensures PullOk(t, t.pulls[q]) && p !in t.pulls[q].over {
      assert PullOk(s, s.pulls[q]) && PullOk(s, t.pulls[q]);
      FireKeepsPull(s, p, now, t.pulls[q]);
    }
    forall q, k | q in t.pulls && Fires(t.pulls[q], t.baseUrl, k) ensures HasFired(t.fired, q, k) {
      FireKeepsFired(s, p, now, q, k);
    }
    forall f | f in t.fired ensures FiringOk(t, f) && (f in s.fired || f.pull == p) {
      if f in s.fired {
        OldFiringOk(s, p, now, f);
      } else {
        NewFiringOk(s, p, now, f);
      }
    }
    forall q, f | q in t.pulls && f in t.fired ensures ListedAfter(t.pulls[q], f) {
      if f in s.fired {
        assert ListedAfter(s.pulls[q], f);
      }
    }
  }

  lemma RemoveKeepsInv(s: State, p: nat, key: string)
    requires Inv(s) && p in s.pulls && s.pulls[p].phase.Deleting? && key in s.pulls[p].phase.rest
    ensures Inv(Apply(s, Remove(p, key)))
  {
    var t := Apply(s, Remove(p, key));
    assert PullOk(s, s.pulls[p]);
    ListedKeyRoundTrip(key, s.pulls[p].schema);
    assert t.hooks == s.hooks - {key};
    forall f | f in s.fired && f.request.key in t.hooks && f.pull == p
      ensures f.request.key in t.pulls[p].phase.rest
    {
      assert FiringOk(s, f);
    }
    ContinuesKeepsInv(s, t, p);
  }

  lemma StoreKeepsInv(s: State, a: Action)
    requires Inv(s) && (a.SaveHook? || a.Lose?)
    ensures Inv(Apply(s, a))
  {
    var t := Apply(s, a);
    forall p | p in t.pulls ensures PullOk(t, t.pulls[p]) {
      assert PullOk(s, s.pulls[p]);
    }
    forall q, k | q in t.pulls && Fires(t.pulls[q], t.baseUrl, k) ensures HasFired(t.fired, q, k) {
      assert Fires(s.pulls[q], s.baseUrl, k);
    }
    forall f | f in t.fired ensures FiringOk(t, f) {
      assert FiringOk(s, f);
    }
  }

  lemma ApplyKeepsInv(s: State, a: Action)
    requires Inv(s)
    ensures Inv(Apply(s, a))
  {
    if Apply(s, a) != s {
      match a
      case SaveHook(_, _, _) => StoreKeepsInv(s, a);
      case Lose(_, _) => StoreKeepsInv(s, a);
      case List(p, schema, keys) => ListKeepsInv(s, p, schema, keys);
      case Read(p, key) => ReadKeepsInv(s, p, key);
      case Fire(p, now) => FireKeepsInv(s, p, now);
      case Remove(p, key) => RemoveKeepsInv(s, p, key);
    }
  }

  function Init(baseUrl: string): State {
    State(baseUrl, map[], map[], map[], [])
  }

  lemma {:induction false} ExecFromKeepsInv(s: State, actions: seq<Action>)
    requires Inv(s)
    ensures Inv(Exec(s, actions))
  {
    if actions != [] {
      ExecFromKeepsInv(s, actions[..|actions| - 1]);
      ApplyKeepsInv(Exec(s, actions[..|actions| - 1]), actions[|actions| - 1]);
    }
  }

  lemma ExecKeepsInv(baseUrl: string, actions: seq<Action>)
    ensures Inv(Exec(Init(baseUrl), actions))
  {
    ExecFromKeepsInv(Init(baseUrl), actions);
  }

  // ---------- how often a hook fires ----------

  /** Neither pull had ended when the other listed its keys. */
  predicate Overlap(s: State, p: nat, q: nat)
    requires p in s.pulls && q in s.pulls
  {
    p !in s.pulls[q].over && q !in s.pulls[p].over
  }

  lemma RepeatsOverlap(s: State, i: nat, j: nat)
    requires Inv(s) && i < j < |s.fired| && s.fired[i].request.key == s.fired[j].request.key
    ensures s.fired[i].pull != s.fired[j].pull && s.fired[i].pull in s.pulls && s.fired[j].pull in s.pulls
    ensures Overlap(s, s.fired[i].pull, s.fired[j].pull)
  {
    var f, g := s.fired[i], s.fired[j];
    assert f in s.fired && g in s.fired && FiringOk(s, f) && FiringOk(s, g);
    assert ListedAfter(s.pulls[f.pull], g);
    assert ListedAfter(s.pulls[g.pull], f);
  }

  /** Over every interleaving a hook fires after its time only, at most once for each pull that
      listed it, and twice only by pulls that overlap. */
  lemma FiringsAreBounded(baseUrl: string, actions: seq<Action>)
    ensures var s := Exec(Init(baseUrl), actions);
            && (forall f | f in s.fired :: f.pull in s.pulls && f.request.key in s.pulls[f.pull].keys
                  && f.request.key in s.saved
                  && (s.saved[f.request.key].sendAt.At? ==> s.saved[f.request.key].sendAt.epoch < f.request.at)
                  && !s.saved[f.request.key].sendAt.InvalidDate?
                  && IsRequestFor(f.request, f.request.key, s.saved[f.request.key], s.baseUrl, f.request.at))
            && (forall i, j | 0 <= i < j < |s.fired| && s.fired[i].request.key == s.fired[j].request.key ::
                  && s.fired[i].pull != s.fired[j].pull
                  && s.fired[i].pull in s.pulls && s.fired[j].pull in s.pulls
                  && Overlap(s, s.fired[i].pull, s.fired[j].pull))
  {
    var s := Exec(Init(baseUrl), actions);
    ExecKeepsInv(baseUrl, actions);
    assert forall f | f in s.fired :: FiringOk(s, f);
    forall i, j | 0 <= i < j < |s.fired| && s.fired[i].request.key == s.fired[j].request.key
      ensures s.fired[i].pull != s.fired[j].pull && s.fired[i].pull in s.pulls && s.fired[j].pull in s.pulls
      ensures Overlap(s, s.fired[i].pull, s.fired[j].pull)
    {
      RepeatsOverlap(s, i, j);
    }
  }

  ghost predicate Once(fired: seq<Firing>) {
    forall i, j | 0 <= i < j < |fired| :: fired[i].request.key != fired[j].request.key
  }

  lemma TwoFirings(fired: seq<Firing>, p: nat, q: nat, k: string)
    requires p != q && HasFired(fired, p, k) && HasFired(fired, q, k)
    ensures !Once(fired)
  {
    var f :| f in fired && f.pull == p && f.request.key == k;
    var g :| g in fired && g.pull == q && g.request.key == k;
    var i :| 0 <= i < |fired| && fired[i] == f;
    var j :| 0 <= j < |fired| && fired[j] == g;
    assert i != j;
  }

  // ---------- exactly when a hook fires twice ----------

  /** Two pulls fire the hook: each read it while it was stored and readable, and each went through
      its loop when it was due. */
  ghost predicate FiredByBoth(s: State, p: nat, q: nat, k: string) {
    && p in s.pulls && q in s.pulls && p != q
    && FiresReadable(s.pulls[p], s.baseUrl, k) && FiresReadable(s.pulls[q], s.baseUrl, k)
  }

  /** Said with what the pull read: it got the hook itself, one that can be sent, and went through its
      loop after the hook's time. */
  predicate FiresReadable(pull: Pull, baseUrl: string, k: string) {
    && pull.phase.Deleting? && k in pull.keys && k in pull.values && pull.values[k].Some?
    && IsAfter(pull.phase.now, pull.values[k].value.sendAt) && CanBeSent(pull.values[k].value, baseUrl)
  }

  lemma FiresIff(pull: Pull, baseUrl: string, k: string)
    ensures Fires(pull, baseUrl, k) <==> FiresReadable(pull, baseUrl, k)
  {
    if pull.phase.Deleting? && k in pull.values && Due(pull.values[k], pull.phase.now) {
      RequestIff(k, pull.values[k], baseUrl, pull.phase.now);
    }
    if k in pull.values && pull.phase.Deleting? {
      DueIff(pull.values[k], pull.phase.now);
    }
  }

  lemma OnceIff(s: State)
    requires Inv(s)
    ensures Once(s.fired) <==> forall p, q, k :: !FiredByBoth(s, p, q, k)
  {
    if p, q, k :| FiredByBoth(s, p, q, k) {
      FiresIff(s.pulls[p], s.baseUrl, k);
      FiresIff(s.pulls[q], s.baseUrl, k);
      TwoFirings(s.fired, p, q, k);
    }
    if !Once(s.fired) {
      var i, j :| 0 <= i < j < |s.fired| && s.fired[i].request.key == s.fired[j].request.key;
      RepeatsOverlap(s, i, j);
      var k := s.fired[i].request.key;
      assert FiringOk(s, s.fired[i]) && FiringOk(s, s.fired[j]);
      FiresIff(s.pulls[s.fired[i].pull], s.baseUrl, k);
      FiresIff(s.pulls[s.fired[j].pull], s.baseUrl, k);
      assert FiredByBoth(s, s.fired[i].pull, s.fired[j].pull, s.fired[i].request.key);
    }
  }

  /** Over every interleaving no hook fires twice exactly when no two pulls both read one while it
      was stored and readable and both went through their loop when it was due. */
  lemma RunsFireOnceIff(baseUrl: string, actions: seq<Action>)
    ensures var s := Exec(Init(baseUrl), actions);
            Once(s.fired) <==> forall p, q, k :: !FiredByBoth(s, p, q, k)
  {
    ExecKeepsInv(baseUrl, actions);
    OnceIff(Exec(Init(baseUrl), actions));
  }

  /** Nothing the pull is about to request was fired before. */
  ghost predicate FiresFresh(s: State, p: nat, now: int)
    requires p in s.pulls
  {
    forall k, f | Wants(s.pulls[p], s.baseUrl, now, k) && f in s.fired :: f.request.key != k
  }

  lemma FireGrows(s: State, p: nat, now: int)
    requires p in s.pulls && CanFire(s.pulls[p])
    ensures s.fired <= Apply(s, Fire(p, now)).fired
  {}

  /** A guard to be checked before the loop: it repeats nothing exactly when all it wants is unfired. */
  lemma FireKeepsOnceIff(s: State, p: nat, now: int)
    requires Inv(s) && p in s.pulls && CanFire(s.pulls[p]) && Once(s.fired)
    ensures Once(Apply(s, Fire(p, now)).fired) <==> FiresFresh(s, p, now)
  {
    var t := Apply(s, Fire(p, now));
    FireGrows(s, p, now);
    if k, f :| Wants(s.pulls[p], s.baseUrl, now, k) && f in s.fired && f.request.key == k {
      NewFirings(s, p, now, k);
      assert FiringOk(s, f) && f in t.fired;
      TwoFirings(t.fired, p, f.pull, k);
    }
    if FiresFresh(s, p, now) && !Once(t.fired) {
      var i, j :| 0 <= i < j < |t.fired| && t.fired[i].request.key == t.fired[j].request.key;
      RepeatIsOld(s, p, now, i, j);
    }
  }

  lemma RepeatIsOld(s: State, p: nat, now: int, i: nat, j: nat)
    requires Inv(s) && p in s.pulls && CanFire(s.pulls[p]) && Once(s.fired)
    requires var fired := Apply(s, Fire(p, now)).fired; i < j < |fired| && fired[i].request.key == fired[j].request.key
    ensures !FiresFresh(s, p, now)
  {
    var t, requests := Apply(s, Fire(p, now)), Requests(s.pulls[p].values, s.pulls[p].keys, s.baseUrl, now);
    FireKeepsInv(s, p, now);
    RepeatsOverlap(t, i, j);
    var f, g := t.fired[i], t.fired[j];
    assert t.fired == s.fired + Firings(p, requests);
    assert j >= |s.fired| && g in Firings(p, requests);
    FiredOnes(p, requests, f);
    FiredOnes(p, requests, g);
    assert f in t.fired && f !in Firings(p, requests);
    assert g in t.fired;
    NewFirings(s, p, now, g.request.key);
  }

  /** If the i-th action is a loop that runs, it fires nothing that was fired before. */
  ghost predicate FreshAt(baseUrl: string, actions: seq<Action>, i: nat)
    requires i < |actions|
  {
    var s, a := Exec(Init(baseUrl), actions[..i]), actions[i];
    a.Fire? && a.p in s.pulls && CanFire(s.pulls[a.p]) ==> FiresFresh(s, a.p, a.now)
  }

  ghost predicate AlwaysFresh(baseUrl: string, actions: seq<Action>) {
    forall i | 0 <= i < |actions| :: FreshAt(baseUrl, actions, i)
  }

  lemma AlwaysFreshSnoc(baseUrl: string, before: seq<Action>, a: Action)
    ensures AlwaysFresh(baseUrl, before + [a]) <==>
            AlwaysFresh(baseUrl, before) && FreshAt(baseUrl, before + [a], |before|)
  {
    var actions := before + [a];
    assert forall i | 0 <= i < |before| :: actions[..i] == before[..i];
    assert forall i | 0 <= i < |before| :: FreshAt(baseUrl, actions, i) <==> FreshAt(baseUrl, before, i);
  }

  lemma OthersDoNotFire(s: State, a: Action)
    requires !a.Fire? || a.p !in s.pulls || !CanFire(s.pulls[a.p])
    ensures Apply(s, a).fired == s.fired
  {}

  /** The same by moments: no hook fires twice in a run exactly when every loop in it is fresh. */
  lemma {:induction false} RunsFireOnceIffFresh(baseUrl: string, actions: seq<Action>)
    ensures Once(Exec(Init(baseUrl), actions).fired) <==> AlwaysFresh(baseUrl, actions)
  {
    if actions != [] {
      var before, a := actions[..|actions| - 1], actions[|actions| - 1];
      assert actions == before + [a] && actions[..|before|] == before;
      var s := Exec(Init(baseUrl), before);
      RunsFireOnceIffFresh(baseUrl, before);
      AlwaysFreshSnoc(baseUrl, before, a);
      ExecKeepsInv(baseUrl, before);
      if a.Fire? && a.p in s.pulls && CanFire(s.pulls[a.p]) {
        FireGrows(s, a.p, a.now);
        if Once(s.fired) {
          FireKeepsOnceIff(s, a.p, a.now);
        }
      } else {
        OthersDoNotFire(s, a);
      }
    }
  }

  lemma BothOverlap(s: State, p: nat, q: nat, k: string)
    requires Inv(s) && FiredByBoth(s, p, q, k)
    ensures Overlap(s, p, q)
  {
    FiresIff(s.pulls[p], s.baseUrl, k);
    FiresIff(s.pulls[q], s.baseUrl, k);
    assert HasFired(s.fired, p, k) && HasFired(s.fired, q, k);
    var f :| f in s.fired && f.pull == p && f.request.key == k;
    var g :| g in s.fired && g.pull == q && g.request.key == k;
    assert ListedAfter(s.pulls[q], f) && ListedAfter(s.pulls[p], g);
  }

  /** So pulls that never overlap fire no hook twice. */
  lemma SequentialPullsFireOnce(baseUrl: string, actions: seq<Action>)
    requires var s := Exec(Init(baseUrl), actions);
             forall p, q | p in s.pulls && q in s.pulls && p != q :: !Overlap(s, p, q)
    ensures Once(Exec(Init(baseUrl), actions).fired)
  {
    var s := Exec(Init(baseUrl), actions);
    ExecKeepsInv(baseUrl, actions);
    RunsFireOnceIff(baseUrl, actions);
    forall p, q, k ensures !FiredByBoth(s, p, q, k) {
      if FiredByBoth(s, p, q, k) {
        BothOverlap(s, p, q, k);
      }
    }
  }

  // ---------- a stored hook can fire twice ----------

  function Reads(p: nat, keys: seq<string>): seq<Action> {
    if keys == [] then [] else Reads(p, keys[..|keys| - 1]) + [Read(p, keys[|keys| - 1])]
  }

  lemma {:induction false} ExecConcat(s: State, first: seq<Action>, second: seq<Action>)
    ensures Exec(s, first + second) == Exec(Exec(s, first), second)
  {
    if second == [] {
      assert first + second == first;
    } else {
      var front, last := second[..|second| - 1], second[|second| - 1];
      assert (first + second)[..|first + second| - 1] == first + front;
      ExecConcat(s, first, front);
    }
  }

  lemma ExecOne(s: State, a: Action)
    ensures Exec(s, [a]) == Apply(s, a)
  {
    assert [a][..0] == [];
    assert Exec(s, []) == s;
  }

  /** Pull p is reading; all read so far, and nothing else, is what is stored. */
  ghost predicate ReadSoFar(s: State, p: nat, keys: seq<string>) {
    && p in s.pulls && s.pulls[p].phase.Reading?
    && (forall k | k in s.pulls[p].values :: k in keys && k in s.hooks && s.pulls[p].values[k] == s.hooks[k])
    && (forall k | k in keys :: k in s.pulls[p].values)
  }

  /** All that reads of p change is what p has read. */
  ghost predicate OnlyReads(s: State, t: State, p: nat) {
    && p in s.pulls && p in t.pulls
    && t == Goto(s, p, s.pulls[p].(values := t.pulls[p].values))
  }

  lemma ReadStep(s: State, t: State, p: nat, front: seq<string>, last: string)
    requires ReadSoFar(t, p, front) && OnlyReads(s, t, p) && last !in front && last in t.hooks
    requires last in s.pulls[p].keys
    ensures var u := Apply(t, Read(p, last)); ReadSoFar(u, p, front + [last]) && OnlyReads(s, u, p)
  {
    assert Apply(t, Read(p, last)) ==
           Goto(t, p, t.pulls[p].(values := t.pulls[p].values[last := t.hooks[last]]));
  }

  lemma {:induction false} ReadsEffect(s: State, p: nat, keys: seq<string>)
    requires NoDuplicates(keys) && ReadSoFar(s, p, [])
    requires forall k | k in keys :: k in s.pulls[p].keys && k in s.hooks
    ensures var t := Exec(s, Reads(p, keys)); ReadSoFar(t, p, keys) && OnlyReads(s, t, p)
  {
    if keys == [] {
      assert Reads(p, keys) == [];
    } else {
      var front, last := keys[..|keys| - 1], keys[|keys| - 1];
      assert keys == front + [last] && last in keys && last !in front;
      ReadsEffect(s, p, front);
      assert (Reads(p, front) + [Read(p, last)])[..|Reads(p, front)|] == Reads(p, front);
      ReadStep(s, Exec(s, Reads(p, front)), p, front, last);
    }
  }

  lemma ListEffect(s: State, p: nat, schema: string, keys: seq<string>)
    requires p !in s.pulls && NoDuplicates(keys) && Listed(s.hooks, schema, keys)
    ensures Apply(s, List(p, schema, keys)) == Goto(s, p, Pull(schema, keys, EndedPulls(s), map[], Reading))
  {}

  lemma HasFiredGrows(fired: seq<Firing>, more: seq<Firing>, p: nat, k: string)
    requires HasFired(fired, p, k) && fired <= more
    ensures HasFired(more, p, k)
  {
    var f :| f in fired && f.pull == p && f.request.key == k;
    assert f in more;
  }

  lemma LoopRepeats(s: State, p: nat, q: nat, k: string, now: int)
    requires Inv(s) && q in s.pulls && p != q && CanFire(s.pulls[q])
    requires HasFired(s.fired, p, k) && Wants(s.pulls[q], s.baseUrl, now, k)
    ensures !Once(Apply(s, Fire(q, now)).fired)
  {
    NewFirings(s, q, now, k);
    FireGrows(s, q, now);
    HasFiredGrows(s.fired, Apply(s, Fire(q, now)).fired, p, k);
    TwoFirings(Apply(s, Fire(q, now)).fired, p, q, k);
  }

  lemma LoopsRepeat(s: State, p: nat, q: nat, k: string, now: int, later: int)
    requires Inv(s) && p in s.pulls && q in s.pulls && p != q && CanFire(s.pulls[p]) && CanFire(s.pulls[q])
    requires Wants(s.pulls[p], s.baseUrl, now, k) && Wants(s.pulls[q], s.baseUrl, later, k)
    ensures !Once(Apply(Apply(s, Fire(p, now)), Fire(q, later)).fired)
  {
    NewFirings(s, p, now, k);
    FireKeepsInv(s, p, now);
    FireChanges(s, p, now);
    LoopRepeats(Apply(s, Fire(p, now)), p, q, k, later);
  }

  /** Both pulls list, then both read all they listed. */
  function ListAndRead(p: nat, schema: string, keys: seq<string>,
                       q: nat, schema': string, keys': seq<string>): seq<Action> {
    [List(p, schema, keys)] + [List(q, schema', keys')] + Reads(p, keys) + Reads(q, keys')
  }

  lemma BothRead(s: State, p: nat, schema: string, keys: seq<string>, q: nat, schema': string, keys': seq<string>)
    requires p != q && p !in s.pulls && q !in s.pulls && NoDuplicates(keys) && NoDuplicates(keys')
    requires Listed(s.hooks, schema, keys) && Listed(s.hooks, schema', keys')
    ensures var t := Exec(s, ListAndRead(p, schema, keys, q, schema', keys'));
            && ReadSoFar(t, p, keys) && ReadSoFar(t, q, keys')
            && t.pulls[p].keys == keys && t.pulls[q].keys == keys' && t.hooks == s.hooks && t.baseUrl == s.baseUrl
  {
    ExecConcat(s, [List(p, schema, keys)] + [List(q, schema', keys')] + Reads(p, keys), Reads(q, keys'));
    ExecConcat(s, [List(p, schema, keys)] + [List(q, schema', keys')], Reads(p, keys));
    ExecConcat(s, [List(p, schema, keys)], [List(q, schema', keys')]);
    ExecOne(s, List(p, schema, keys));
    ListEffect(s, p, schema, keys);
    var s1 := Apply(s, List(p, schema, keys));
    ExecOne(s1, List(q, schema', keys'));
    ListEffect(s1, q, schema', keys');
    var s2 := Apply(s1, List(q, schema', keys'));
    ReadsEffect(s2, p, keys);
    var s3 := Exec(s2, Reads(p, keys));
    ReadsEffect(s3, q, keys');
  }

  /** From every consistent state, any two new pulls whose listings share a stored, readable hook can
      fire it twice, each at any instant when it is due. */
  lemma OverlappingPullsFireTwice(s: State, p: nat, schema: string, keys: seq<string>, now: int,
                                  q: nat, schema': string, keys': seq<string>, later: int, k: string)
    requires Inv(s) && p != q && p !in s.pulls && q !in s.pulls && NoDuplicates(keys) && NoDuplicates(keys')
    requires Listed(s.hooks, schema, keys) && Listed(s.hooks, schema', keys') && k in keys && k in keys'
    requires s.hooks[k].Some? && CanBeSent(s.hooks[k].value, s.baseUrl)
    requires IsAfter(now, s.hooks[k].value.sendAt) && IsAfter(later, s.hooks[k].value.sendAt)
    ensures !Once(Exec(s, ListAndRead(p, schema, keys, q, schema', keys') + [Fire(p, now)] + [Fire(q, later)]).fired)
  {
    var actions := ListAndRead(p, schema, keys, q, schema', keys');
    var t := Exec(s, actions);
    ExecConcat(s, actions + [Fire(p, now)], [Fire(q, later)]);
    ExecConcat(s, actions, [Fire(p, now)]);
    ExecOne(t, Fire(p, now));
    ExecOne(Apply(t, Fire(p, now)), Fire(q, later));
    BothRead(s, p, schema, keys, q, schema', keys');
    ExecFromKeepsInv(s, actions);
    DueIff(s.hooks[k], now);
    DueIff(s.hooks[k], later);
    RequestIff(k, s.hooks[k], s.baseUrl, now);
    LoopsRepeat(t, p, q, k, now, later);
  }
}
