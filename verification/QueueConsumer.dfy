/** EventsQueue.handler.ts, AbstractConsumer.consumer.ts and EventsQueue.consumer.ts as classes that
    update their fields; what one callback does to queue and store is a run of the machine. */
module QueueConsumer {
  import opened Options
  import opened MessageQueue

  const NEW_HOOK := "NEW_HOOK"

  datatype Emission =
    | HookPulled(event: string)
    | BroadcastToAll(payload: Payload)
    | EmittedToNewConnections(payload: Payload)
    | AllRoutesDisabled(disable: bool)
    | LoginDisabled(disable: bool)

  /** The handler's own hash, or null when hashing failed. */
  predicate IsValidated(p: Payload, secret: Option<string>) {
    p.envSecretHash == if secret.Some? then Hash(secret.value) else NullHash
  }

  /** What handling a valid payload emits; None when it throws. */
  function Expected(p: Payload, secret: Option<string>, hookOk: bool): Option<seq<Emission>> {
    match p.schema
    case DomainEvent => if p.event == NEW_HOOK && hookOk then Some([HookPulled(p.event)]) else None
    case Broadcast => Some([BroadcastToAll(p)])
    case NewConnection => Some([EmittedToNewConnections(p)])
    case DisableAllRoutes => Some(if IsValidated(p, secret) then [AllRoutesDisabled(p.disable)] else [])
    case DisableLogin => Some(if IsValidated(p, secret) then [LoginDisabled(p.disable)] else [])
  }

  predicate IsDisabling(e: Emission) {
    e.AllRoutesDisabled? || e.LoginDisabled?
  }

  /** m asks for the disabling event e and carries the environment's hash. */
  predicate Authorizes(m: Message, secret: Option<string>, e: Emission) {
    && m.body.Some? && IsValidated(m.body.value, secret)
    && (e == AllRoutesDisabled(m.body.value.disable) || e == LoginDisabled(m.body.value.disable))
    && (e.AllRoutesDisabled? <==> m.body.value.schema.DisableAllRoutes?)
    && (e.LoginDisabled? <==> m.body.value.schema.DisableLogin?)
  }

  /** The message asks for the event e: a broadcast for all, a new connection for the room, a new hook
      once its pull succeeded, and the disabling ones with the environment's hash. */
  predicate Asks(m: Message, secret: Option<string>, hookOk: bool, e: Emission) {
    && m.body.Some?
    && var p := m.body.value;
       match e
       case BroadcastToAll(q) => p.schema.Broadcast? && q == p
       case EmittedToNewConnections(q) => p.schema.NewConnection? && q == p
       case HookPulled(event) => p.schema.DomainEvent? && hookOk && event == "NEW_HOOK" && event == p.event
       case AllRoutesDisabled(disable) => p.schema.DisableAllRoutes? && disable == p.disable && CarriesHash(p, secret)
       case LoginDisabled(disable) => p.schema.DisableLogin? && disable == p.disable && CarriesHash(p, secret)
  }

  /** The payload's hash is the handler's; when hashing failed that is null. */
  predicate CarriesHash(p: Payload, secret: Option<string>) {
    match p.envSecretHash
    case Missing => false
    case NullHash => secret.None?
    case Hash(text) => secret == Some(text)
  }

  /** The body cannot be read, or is a domain event other than a new hook whose pull succeeds. */
  predicate Fails(m: Message, hookOk: bool) {
    m.body.None? || (m.body.value.schema.DomainEvent? && !(m.body.value.event == "NEW_HOOK" && hookOk))
  }

  predicate Handles(m: Message, secret: Option<string>, hookOk: bool) {
    m.body.Some? && Expected(m.body.value, secret, hookOk).Some?
  }

  /** A message is handled unless it fails, and then emits just what it asks for. */
  lemma ExpectedIffAsked(m: Message, secret: Option<string>, hookOk: bool)
    ensures Handles(m, secret, hookOk) <==> !Fails(m, hookOk)
    ensures Fails(m, hookOk) ==> forall e :: !Asks(m, secret, hookOk, e)
    ensures Handles(m, secret, hookOk) ==>
              var es := Expected(m.body.value, secret, hookOk).value;
              |es| <= 1 && (forall e :: e in es <==> Asks(m, secret, hookOk, e))
  {
    if Handles(m, secret, hookOk) {
      var es := Expected(m.body.value, secret, hookOk).value;
      forall e ensures e in es <==> Asks(m, secret, hookOk, e) {}
    }
  }

  lemma AppendsOne(before: seq<Emission>, es: seq<Emission>)
    requires |es| <= 1
    ensures forall e :: before + es == before + [e] <==> e in es
    ensures before + es == before <==> es == []
  {
    forall e ensures before + es == before + [e] <==> e in es {
      assert (before + [e])[|before|] == e;
      if |es| == 1 {
        assert (before + es)[|before|] == es[0] && es == [es[0]];
      } else {
        assert |before + es| < |before + [e]|;
      }
    }
    assert |before + es| == |before| + |es|;
  }

  class EventsQueueHandler {
    const envSecretHash: Option<string>
    var emitted: seq<Emission>
    var unprocessed: seq<Message>

    constructor (envSecretHash: Option<string>)
      ensures this.envSecretHash == envSecretHash && emitted == [] && unprocessed == []
    {
      this.envSecretHash, emitted, unprocessed := envSecretHash, [], [];
    }

    method ValidatedBeforeEmitEvent(p: Payload) returns (valid: bool)
      ensures valid <==> IsValidated(p, envSecretHash)
    {
      match envSecretHash
      case None => valid := p.envSecretHash.NullHash?;
      case Some(hash) => valid := p.envSecretHash == Hash(hash);
    }

    method HandleByDomainEvent(p: Payload, hookOk: bool) returns (threw: bool)
      modifies this`emitted
      ensures threw <==> !(p.event == NEW_HOOK && hookOk)
      ensures emitted == if threw then old(emitted) else old(emitted) + [HookPulled(p.event)]
    {
      if p.event != NEW_HOOK || !hookOk {
        return true;
      }
      emitted := emitted + [HookPulled(p.event)];
      threw := false;
    }

    method HandleBySchema(p: Payload, hookOk: bool) returns (threw: bool)
      modifies this`emitted
      ensures threw <==> Expected(p, envSecretHash, hookOk).None?
      ensures emitted == if threw then old(emitted) else old(emitted) + Expected(p, envSecretHash, hookOk).value
      ensures threw ==> p.schema.DomainEvent?
      ensures emitted == old(emitted) ||
              exists e :: emitted == old(emitted) + [e] && (IsDisabling(e) ==> IsValidated(p, envSecretHash))
    {
      threw := false;
      match p.schema {
        case DomainEvent =>
          threw := HandleByDomainEvent(p, hookOk);
        case Broadcast =>
          emitted := emitted + [BroadcastToAll(p)];
        case NewConnection =>
          emitted := emitted + [EmittedToNewConnections(p)];
        case DisableAllRoutes =>
          var valid := ValidatedBeforeEmitEvent(p);
          if valid {
            emitted := emitted + [AllRoutesDisabled(p.disable)];
          }
        case DisableLogin =>
          var valid := ValidatedBeforeEmitEvent(p);
          if valid {
            emitted := emitted + [LoginDisabled(p.disable)];
          }
      }
    }

    /** True when the message may be deleted: it was handled, or it is in the store. */
    method Execute(m: Message, hookOk: bool, storeOk: bool) returns (done: bool)
      modifies this`emitted, this`unprocessed
      ensures done <==> Handles(m, envSecretHash, hookOk) || storeOk
      ensures emitted == if Handles(m, envSecretHash, hookOk)
                then old(emitted) + Expected(m.body.value, envSecretHash, hookOk).value else old(emitted)
      ensures unprocessed ==
              if Handles(m, envSecretHash, hookOk) || !storeOk then old(unprocessed) else old(unprocessed) + [m]
      ensures done <==> !Fails(m, hookOk) || storeOk
      ensures unprocessed == if Fails(m, hookOk) && storeOk then old(unprocessed) + [m] else old(unprocessed)
      ensures m.body.None? ==> emitted == old(emitted)
      ensures m.body.Some? && m.body.value.schema.Broadcast? ==>
                emitted == old(emitted) + [BroadcastToAll(m.body.value)]
      ensures m.body.Some? && m.body.value.schema.NewConnection? ==>
                emitted == old(emitted) + [EmittedToNewConnections(m.body.value)]
      ensures m.body.Some? && m.body.value.schema.DomainEvent? ==>
                emitted == old(emitted) +
                  if m.body.value.event == "NEW_HOOK" && hookOk then [HookPulled("NEW_HOOK")] else []
      ensures m.body.Some? && m.body.value.schema.DisableAllRoutes? ==>
                emitted == old(emitted) +
                  if m.body.value.envSecretHash == (if envSecretHash.Some? then Hash(envSecretHash.value) else NullHash)
                  then [AllRoutesDisabled(m.body.value.disable)] else []
      ensures m.body.Some? && m.body.value.schema.DisableLogin? ==>
                emitted == old(emitted) +
                  if m.body.value.envSecretHash == (if envSecretHash.Some? then Hash(envSecretHash.value) else NullHash)
                  then [LoginDisabled(m.body.value.disable)] else []
      ensures forall e :: emitted == old(emitted) + [e] <==> Asks(m, envSecretHash, hookOk, e)
      ensures emitted == old(emitted) <==> forall e :: !Asks(m, envSecretHash, hookOk, e)
    {
      ExpectedIffAsked(m, envSecretHash, hookOk);
      AppendsOne(emitted, if Handles(m, envSecretHash, hookOk)
        then Expected(m.body.value, envSecretHash, hookOk).value else []);
      var threw := true;
      if m.body.Some? {
        threw := HandleBySchema(m.body.value, hookOk);
      }
      if !threw {
        return true;
      }
      if storeOk {
        unprocessed := unprocessed + [m];
      }
      done := storeOk;
    }
  }

  // ---------- the error counter ----------

  /** The callbacks that bear on the counter, oldest first. */
  datatype Callback = Completed | Threw | ConsumeError | TimeoutError

  predicate IsError(c: Callback) {
    c.ConsumeError? || c.TimeoutError?
  }

  /** The error and timeout callbacks since the last completed handleMessage. */
  function ErrorsSince(log: seq<Callback>): nat {
    if log == [] then 0
    else
      var last, before := log[|log| - 1], log[..|log| - 1];
      if last.Completed? then 0 else ErrorsSince(before) + if IsError(last) then 1 else 0
  }

  function CountErrors(log: seq<Callback>): nat {
    if log == [] then 0 else (if IsError(log[0]) then 1 else 0) + CountErrors(log[1..])
  }

  lemma {:induction false} CountErrorsSnoc(log: seq<Callback>, c: Callback)
    ensures CountErrors(log + [c]) == CountErrors(log) + if IsError(c) then 1 else 0
  {
    if log == [] {
      assert [] + [c] == [c] && [c][1..] == [];
    } else {
      assert (log + [c])[0] == log[0] && (log + [c])[1..] == log[1..] + [c];
      CountErrorsSnoc(log[1..], c);
    }
  }

  /** What happened before a completed message does not count, and of what came after every error does. */
  lemma {:induction false} ErrorsSinceCompletion(before: seq<Callback>, after: seq<Callback>)
    requires Completed !in after
    ensures ErrorsSince(before + [Completed] + after) == CountErrors(after)
    ensures ErrorsSince(after) == CountErrors(after)
  {
    if after == [] {
      assert (before + [Completed])[|before|] == Completed && before + [Completed] + [] == before + [Completed];
    } else {
      var front, last := after[..|after| - 1], after[|after| - 1];
      assert after == front + [last];
      ErrorsSinceCompletion(before, front);
      CountErrorsSnoc(front, last);
      var log := before + [Completed] + after;
      assert log[|log| - 1] == last && log[..|log| - 1] == before + [Completed] + front;
    }
  }

  // ---------- the consumer ----------

  /** How the queue delete of one message ends. */
  datatype DeleteResult = Removed | Refused | FailedToRemove(removed: bool)

  /** How the calls made for one message end. */
  datatype Calls = Calls(hookOk: bool, storeOk: bool, delete: DeleteResult)

  /** One handleMessage as actions of worker w of the machine. */
  ghost function HandleScript(w: nat, m: Message, handled: bool, c: Calls): seq<Action> {
    [Receive(w, m), Step(w, true, false)] +
    HandlerSteps(w, handled, c.storeOk) + [DeleteStep(w, c.delete)]
  }

  function DeleteStep(w: nat, d: DeleteResult): Action {
    Step(w, d.Removed?, d.FailedToRemove? && d.removed)
  }

  /** One handleProcessingError. */
  ghost function ReportScript(w: nat, m: Message, storeOk: bool, d: DeleteResult): seq<Action> {
    [ProcessingError(w, m), Step(w, storeOk, false), DeleteStep(w, d)]
  }

  predicate Removes(d: DeleteResult) {
    d.Removed? || (d.FailedToRemove? && d.removed)
  }

  lemma ExecConcat(s: State, first: seq<Action>, second: seq<Action>)
    ensures Exec(s, first + second) == Exec(Exec(s, first), second)
    decreases |first|
  {
    if first == [] {
      assert [] + second == second;
    } else {
      assert (first + second)[0] == first[0] && (first + second)[1..] == first[1..] + second;
      ExecConcat(Apply(s, first[0]), first[1..], second);
    }
  }

  lemma ExecTwo(s: State, a: Action, b: Action)
    ensures Exec(s, [a, b]) == Apply(Apply(s, a), b)
  {
    assert [a, b][1..] == [b] && [b][1..] == [];
    assert Exec(Apply(s, a), [b]) == Exec(Apply(Apply(s, a), b), []);
  }

  lemma ExecOne(s: State, a: Action)
    ensures Exec(s, [a]) == Apply(s, a)
  {
    assert [a][1..] == [];
  }

  ghost function MachineOf(queue: set<Message>, processed: set<Message>, unprocessed: seq<Message>,
                           disabled: bool): State {
    var stored := set m | m in unprocessed;
    State(queue + processed + stored, queue, processed, stored, disabled, map[0 := Idle])
  }

  /** One message of the queue that was handled, or stored, or neither, and removed or not. */
  lemma MachineMoves(queue: set<Message>, processed: set<Message>, unprocessed: seq<Message>, disabled: bool,
                     m: Message, handled: bool, stored: bool, removed: bool)
    requires m in queue && !(handled && stored) && (removed ==> handled || stored)
    ensures var s := MachineOf(queue, processed, unprocessed, disabled);
            MachineOf(if removed then queue - {m} else queue, if handled then processed + {m} else processed,
                      if stored then unprocessed + [m] else unprocessed, disabled)
            == State(s.sent, if removed then s.queue - {m} else s.queue,
                     if handled then s.processed + {m} else s.processed,
                     if stored then s.unprocessed + {m} else s.unprocessed, s.disabled, s.workers)
  {}

  lemma ReceivedEffect(s: State, w: nat, m: Message)
    requires m in s.queue && IsFree(s, w)
    ensures Exec(s, [Receive(w, m), Step(w, true, false)]) == Goto(s, w, if s.disabled then Idle else Handling(m))
  {
    ExecTwo(s, Receive(w, m), Step(w, true, false));
    assert Apply(s, Receive(w, m)) == Goto(s, w, Received(m));
  }

  function HandlerSteps(w: nat, handled: bool, storeOk: bool): seq<Action> {
    if handled then [Step(w, true, false)] else [Step(w, false, false), Step(w, storeOk, false)]
  }

  lemma HandlerEffect(s: State, w: nat, m: Message, handled: bool, storeOk: bool)
    ensures Exec(Goto(s, w, Handling(m)), HandlerSteps(w, handled, storeOk)) ==
            if handled then Goto(s.(processed := s.processed + {m}), w, Deleting(m))
            else if storeOk then Goto(s.(unprocessed := s.unprocessed + {m}), w, Deleting(m))
            else Goto(s, w, Idle)
  {
    var t := Goto(s, w, Handling(m));
    if handled {
      ExecOne(t, Step(w, true, false));
    } else {
      ExecTwo(t, Step(w, false, false), Step(w, storeOk, false));
      assert Apply(t, Step(w, false, false)) == Goto(s, w, Storing(m));
    }
  }

  lemma IdleStays(s: State, w: nat, a: Action)
    requires a.Step? && a.w == w
    ensures Apply(Goto(s, w, Idle), a) == Goto(s, w, Idle)
  {}

  lemma DeleteEffect(s: State, w: nat, m: Message, d: DeleteResult)
    ensures Apply(Goto(s, w, Deleting(m)), DeleteStep(w, d)) ==
            Goto(if Removes(d) then s.(queue := s.queue - {m}) else s, w, Idle)
  {}

  lemma IdleHandler(s: State, w: nat, handled: bool, storeOk: bool)
    ensures Exec(Goto(s, w, Idle), HandlerSteps(w, handled, storeOk)) == Goto(s, w, Idle)
  {
    var t := Goto(s, w, Idle);
    if handled {
      ExecOne(t, Step(w, true, false));
    } else {
      ExecTwo(t, Step(w, false, false), Step(w, storeOk, false));
    }
  }

  lemma HandleScriptEffect(s: State, w: nat, m: Message, handled: bool, c: Calls)
    requires m in s.queue && IsFree(s, w)
    ensures var done := !s.disabled && (handled || c.storeOk);
            Exec(s, HandleScript(w, m, handled, c)) ==
              State(s.sent, if done && Removes(c.delete) then s.queue - {m} else s.queue,
                    if !s.disabled && handled then s.processed + {m} else s.processed,
                    if !s.disabled && !handled && c.storeOk then s.unprocessed + {m} else s.unprocessed,
                    s.disabled, s.workers[w := Idle])
  {
    var head, middle := [Receive(w, m), Step(w, true, false)], HandlerSteps(w, handled, c.storeOk);
    ExecConcat(s, head + middle, [DeleteStep(w, c.delete)]);
    ExecConcat(s, head, middle);
    ReceivedEffect(s, w, m);
    HandlerEffect(s, w, m, handled, c.storeOk);
    IdleHandler(s, w, handled, c.storeOk);
    var t := Exec(Exec(s, head), middle);
    ExecOne(t, DeleteStep(w, c.delete));
    IdleStays(s, w, DeleteStep(w, c.delete));
    DeleteEffect(s.(processed := s.processed + {m}), w, m, c.delete);
    DeleteEffect(s.(unprocessed := s.unprocessed + {m}), w, m, c.delete);
  }

  lemma ReportStored(s: State, w: nat, m: Message, storeOk: bool)
    ensures Apply(Goto(s, w, Reporting(m)), Step(w, storeOk, false)) ==
            if storeOk then Goto(s.(unprocessed := s.unprocessed + {m}), w, Deleting(m)) else Goto(s, w, Idle)
  {}

  lemma ReportScriptEffect(s: State, w: nat, m: Message, storeOk: bool, d: DeleteResult)
    requires m in s.sent && IsFree(s, w)
    ensures Exec(s, ReportScript(w, m, storeOk, d)) ==
              State(s.sent, if storeOk && Removes(d) then s.queue - {m} else s.queue, s.processed,
                    if storeOk then s.unprocessed + {m} else s.unprocessed, s.disabled, s.workers[w := Idle])
  {
    var head := [ProcessingError(w, m), Step(w, storeOk, false)];
    assert ReportScript(w, m, storeOk, d) == head + [DeleteStep(w, d)];
    ExecConcat(s, head, [DeleteStep(w, d)]);
    ExecTwo(s, ProcessingError(w, m), Step(w, storeOk, false));
    assert Apply(s, ProcessingError(w, m)) == Goto(s, w, Reporting(m));
    ReportStored(s, w, m, storeOk);
    ExecOne(Exec(s, head), DeleteStep(w, d));
    IdleStays(s, w, DeleteStep(w, d));
    DeleteEffect(s.(unprocessed := s.unprocessed + {m}), w, m, d);
  }

  // ---------- a batch ----------

  /** The message may go: it was handled, or else stored. */
  predicate Settles(m: Message, secret: Option<string>, c: Calls) {
    Handles(m, secret, c.hookOk) || c.storeOk
  }

  /** handleMessage throws for a message of an enabled consumer. */
  predicate Throws(m: Message, secret: Option<string>, c: Calls) {
    Settles(m, secret, c) && c.delete.FailedToRemove?
  }

  function Completions(n: nat): seq<Callback> {
    if n == 0 then [] else Completions(n - 1) + [Completed]
  }

  /** What handling leaves behind: emissions, insertions into the store, and what left the queue. */
  datatype Effect = Effect(emitted: seq<Emission>, stored: seq<Message>, handled: set<Message>, removed: set<Message>)

  const NO_EFFECT := Effect([], [], {}, {})

  /** An enabled consumer's effect for one message. */
  function MessageEffect(m: Message, secret: Option<string>, c: Calls): Effect {
    if Handles(m, secret, c.hookOk) then
      Effect(Expected(m.body.value, secret, c.hookOk).value, [], {m}, if Removes(c.delete) then {m} else {})
    else if c.storeOk then
      Effect([], [m], {}, if Removes(c.delete) then {m} else {})
    else
      NO_EFFECT
  }

  function Then(e: Effect, f: Effect): Effect {
    Effect(e.emitted + f.emitted, e.stored + f.stored, e.handled + f.handled, e.removed + f.removed)
  }

  /** What a consumer has done so far, and the queue. */
  datatype Tally = Tally(emitted: seq<Emission>, unprocessed: seq<Message>, processed: set<Message>,
                         queue: set<Message>)

  function Plus(t: Tally, e: Effect): Tally {
    Tally(t.emitted + e.emitted, t.unprocessed + e.stored, t.processed + e.handled, t.queue - e.removed)
  }

  lemma PlusThen(t: Tally, e: Effect, f: Effect)
    ensures Plus(Plus(t, e), f) == Plus(t, Then(e, f))
  {
    assert t.queue - e.removed - f.removed == t.queue - (e.removed + f.removed);
  }

  lemma PlusNothing(t: Tally)
    ensures Plus(t, NO_EFFECT) == t
  {
    assert t.queue - {} == t.queue && t.processed + {} == t.processed;
  }

  /** Its effect for the first n messages of a batch. */
  function BatchEffect(ms: seq<Message>, cs: seq<Calls>, secret: Option<string>, n: nat): Effect
    requires n <= |ms| == |cs|
  {
    if n == 0 then NO_EFFECT else Then(BatchEffect(ms, cs, secret, n - 1), MessageEffect(ms[n - 1], secret, cs[n - 1]))
  }

  /** After the first n messages of a batch; a disabled consumer does nothing with them. */
  function BatchTally(t: Tally, ms: seq<Message>, cs: seq<Calls>, secret: Option<string>, disabled: bool, n: nat): Tally
    requires n <= |ms| == |cs|
  {
    if disabled then t else Plus(t, BatchEffect(ms, cs, secret, n))
  }

  lemma BatchStep(t: Tally, ms: seq<Message>, cs: seq<Calls>, secret: Option<string>, disabled: bool, n: nat)
    requires n < |ms| == |cs|
    ensures Plus(BatchTally(t, ms, cs, secret, disabled, n),
                 if disabled then NO_EFFECT else MessageEffect(ms[n], secret, cs[n])) ==
            BatchTally(t, ms, cs, secret, disabled, n + 1)
  {
    PlusThen(t, BatchEffect(ms, cs, secret, n), MessageEffect(ms[n], secret, cs[n]));
    PlusNothing(t);
  }

  /** The first n messages of a batch are handled without a throw. */
  predicate RunsThrough(ms: seq<Message>, cs: seq<Calls>, secret: Option<string>, disabled: bool, n: nat)
    requires n <= |ms| == |cs|
  {
    forall i | 0 <= i < n :: !disabled && !Throws(ms[i], secret, cs[i])
  }

  /** count is the first message that throws, or the end of the batch when none does. */
  predicate StopsAt(ms: seq<Message>, cs: seq<Calls>, secret: Option<string>, disabled: bool, threw: bool, count: nat)
    requires |ms| == |cs|
  {
    && count <= |ms| && (threw <==> count < |ms|) && RunsThrough(ms, cs, secret, disabled, count)
    && (threw ==> disabled || Throws(ms[count], secret, cs[count]))
  }

  /** A message leaves the queue only when a delivery of it in this batch was handled or stored and
      then removed; what is handled and what is stored is settled delivery by delivery. */
  lemma {:induction false} BatchSettles(ms: seq<Message>, cs: seq<Calls>, secret: Option<string>, n: nat, m: Message)
    requires n <= |ms| == |cs|
    ensures var e := BatchEffect(ms, cs, secret, n);
            && (m in e.handled <==> exists i :: 0 <= i < n && ms[i] == m && Handles(m, secret, cs[i].hookOk))
            && (m in e.stored <==>
                exists i :: 0 <= i < n && ms[i] == m && !Handles(m, secret, cs[i].hookOk) && cs[i].storeOk)
            && (m in e.removed <==>
                exists i :: 0 <= i < n && ms[i] == m && Settles(m, secret, cs[i]) && Removes(cs[i].delete))
  {
    if n > 0 {
      BatchSettles(ms, cs, secret, n - 1, m);
    }
  }

  /** A batch emits exactly what its messages ask for. */
  lemma {:induction false} BatchEmits(ms: seq<Message>, cs: seq<Calls>, secret: Option<string>, n: nat, e: Emission)
    requires n <= |ms| == |cs|
    ensures e in BatchEffect(ms, cs, secret, n).emitted <==>
            exists i :: 0 <= i < n && Asks(ms[i], secret, cs[i].hookOk, e)
  {
    if n > 0 {
      BatchEmits(ms, cs, secret, n - 1, e);
      ExpectedIffAsked(ms[n - 1], secret, cs[n - 1].hookOk);
    }
  }

  /** No batch disables routes or login unless one of its messages asks for just that with the
      environment's hash; and no message emits twice. */
  lemma {:induction false} DisablingIsAuthorized(ms: seq<Message>, cs: seq<Calls>, secret: Option<string>, n: nat)
    requires n <= |ms| == |cs|
    ensures var emitted := BatchEffect(ms, cs, secret, n).emitted;
            && |emitted| <= n
            && forall e | e in emitted && IsDisabling(e) :: exists i :: 0 <= i < n && Authorizes(ms[i], secret, e)
  {
    if n > 0 {
      DisablingIsAuthorized(ms, cs, secret, n - 1);
      var last := MessageEffect(ms[n - 1], secret, cs[n - 1]).emitted;
      assert forall e | e in last && IsDisabling(e) :: Authorizes(ms[n - 1], secret, e);
    }
  }

  /** A disabled consumer's message: refused, then given to the processing-error callback, it ends
      in the store, unhandled, and leaves the queue unless the store or the removal fails. */
  lemma DisabledStillStores(s: State, w: nat, m: Message, handled: bool, c: Calls, storeOk: bool, d: DeleteResult)
    requires s.disabled && Conserved(s) && m in s.queue && IsFree(s, w)
    ensures Exec(s, HandleScript(w, m, handled, c) + ReportScript(w, m, storeOk, d)) ==
            State(s.sent, if storeOk && Removes(d) then s.queue - {m} else s.queue, s.processed,
                  if storeOk then s.unprocessed + {m} else s.unprocessed, true, s.workers[w := Idle])
  {
    ExecConcat(s, HandleScript(w, m, handled, c), ReportScript(w, m, storeOk, d));
    HandleScriptEffect(s, w, m, handled, c);
    var t := s.(workers := s.workers[w := Idle]);
    assert Exec(s, HandleScript(w, m, handled, c)) == t;
    ReportScriptEffect(t, w, m, storeOk, d);
    assert s.workers[w := Idle][w := Idle] == s.workers[w := Idle];
  }

  lemma HandleIsMachineRun(queue: set<Message>, processed: set<Message>, unprocessed: seq<Message>, disabled: bool,
                           m: Message, secret: Option<string>, c: Calls)
    requires m in queue
    ensures var e := if disabled then NO_EFFECT else MessageEffect(m, secret, c);
            MachineOf(queue - e.removed, processed + e.handled, unprocessed + e.stored, disabled) ==
            Exec(MachineOf(queue, processed, unprocessed, disabled),
              HandleScript(0, m, Handles(m, secret, c.hookOk), c))
  {
    var e := if disabled then NO_EFFECT else MessageEffect(m, secret, c);
    HandleScriptEffect(MachineOf(queue, processed, unprocessed, disabled), 0, m, Handles(m, secret, c.hookOk), c);
    MachineMoves(queue, processed, unprocessed, disabled, m, e.handled != {}, e.stored != [], e.removed != {});
    assert queue - {} == queue && processed + {} == processed && unprocessed + [] == unprocessed;
  }

  /** The first n deliveries of a batch, one after the other. */
  ghost function BatchScript(ms: seq<Message>, cs: seq<Calls>, secret: Option<string>, n: nat): seq<Action>
    requires n <= |ms| == |cs|
  {
    if n == 0 then []
    else
      var m, c := ms[n - 1], cs[n - 1];
      BatchScript(ms, cs, secret, n - 1) + HandleScript(0, m, Handles(m, secret, c.hookOk), c)
  }

  /** Distinct messages, all of them in the queue. */
  predicate QueuedOnce(ms: seq<Message>, queue: set<Message>) {
    (forall m | m in ms :: m in queue) && forall i, j | 0 <= i < j < |ms| :: ms[i] != ms[j]
  }

  ghost function MachineAt(t: Tally, disabled: bool): State {
    MachineOf(t.queue, t.processed, t.unprocessed, disabled)
  }

  lemma StillQueued(t: Tally, ms: seq<Message>, cs: seq<Calls>, secret: Option<string>, disabled: bool, n: nat)
    requires n < |ms| == |cs| && QueuedOnce(ms, t.queue)
    ensures ms[n] in BatchTally(t, ms, cs, secret, disabled, n).queue
  {
    BatchSettles(ms, cs, secret, n, ms[n]);
    assert ms[n] in ms;
  }

  lemma DeliveryIsMachineRun(t: Tally, disabled: bool, m: Message, secret: Option<string>, c: Calls)
    requires m in t.queue
    ensures var u := Plus(t, if disabled then NO_EFFECT else MessageEffect(m, secret, c));
            MachineAt(u, disabled) == Exec(MachineAt(t, disabled), HandleScript(0, m, Handles(m, secret, c.hookOk), c))
  {
    HandleIsMachineRun(t.queue, t.processed, t.unprocessed, disabled, m, secret, c);
  }

  /** So a batch is a run of the machine as well. */
  lemma {:induction false} BatchIsMachineRun(t: Tally, ms: seq<Message>, cs: seq<Calls>, secret: Option<string>,
                                             disabled: bool, n: nat)
    requires n <= |ms| == |cs| && QueuedOnce(ms, t.queue)
    ensures MachineAt(BatchTally(t, ms, cs, secret, disabled, n), disabled) ==
            Exec(MachineAt(t, disabled), BatchScript(ms, cs, secret, n))
  {
    if n == 0 {
      PlusNothing(t);
    } else {
      BatchIsMachineRun(t, ms, cs, secret, disabled, n - 1);
      StillQueued(t, ms, cs, secret, disabled, n - 1);
      DeliveryIsMachineRun(BatchTally(t, ms, cs, secret, disabled, n - 1), disabled, ms[n - 1], secret, cs[n - 1]);
      BatchStep(t, ms, cs, secret, disabled, n - 1);
      ExecConcat(MachineAt(t, disabled), BatchScript(ms, cs, secret, n - 1),
                 HandleScript(0, ms[n - 1], Handles(ms[n - 1], secret, cs[n - 1].hookOk), cs[n - 1]));
    }
  }

  class EventsQueueConsumer {
    const handler: EventsQueueHandler
    var errorsCount: nat
    var disabled: bool
    var queue: set<Message>
    ghost var processed: set<Message>
    ghost var log: seq<Callback>

    constructor (handler: EventsQueueHandler)
      ensures Valid() && this.handler == handler && queue == {} && processed == {} && !disabled && log == []
    {
      this.handler, errorsCount, disabled, queue, processed, log := handler, 0, false, {}, {}, [];
    }

    ghost predicate Valid()
      reads this
    {
      errorsCount == ErrorsSince(log)
    }

    /** The machine state this consumer stands for, with its one worker free. */
    ghost function Machine(): State
      reads this, handler
    {
      MachineOf(queue, processed, handler.unprocessed, disabled)
    }

    ghost function Totals(): Tally
      reads this, handler
    {
      Tally(handler.emitted, handler.unprocessed, processed, queue)
    }

    method Disable()
      modifies this`disabled
      ensures disabled
    {
      disabled := true;
    }

    method Enable()
      modifies this`disabled
      ensures !disabled
    {
      disabled := false;
    }

    method DeleteMessage(m: Message, d: DeleteResult) returns (threw: bool)
      modifies this`queue
      ensures queue == if Removes(d) then old(queue) - {m} else old(queue)
      ensures threw <==> d.FailedToRemove?
    {
      if Removes(d) {
        queue := queue - {m};
      }
      threw := d.FailedToRemove?;
    }

    method HandleMessage(m: Message, c: Calls) returns (threw: bool)
      requires Valid()
      modifies this`errorsCount, this`queue, this`processed, this`log, handler`emitted, handler`unprocessed
      ensures Valid() && log == old(log) + [if threw then Threw else Completed]
      ensures threw <==> disabled || Throws(m, handler.envSecretHash, c)
      ensures Totals() ==
              Plus(old(Totals()), if disabled then NO_EFFECT else MessageEffect(m, handler.envSecretHash, c))
      ensures m in old(queue) ==>
                Machine() == Exec(old(Machine()), HandleScript(0, m, Handles(m, handler.envSecretHash, c.hookOk), c))
    {
      if m in queue {
        HandleIsMachineRun(queue, processed, handler.unprocessed, disabled, m, handler.envSecretHash, c);
      }
      PlusNothing(Totals());
      threw := true;
      if !disabled {
        threw := ExecuteAndDelete(m, c);
      }
      if !threw {
        errorsCount := 0;
      }
      log := log + [if threw then Threw else Completed];
      assert log[..|log| - 1] == old(log);
    }

    /** The handler, and the queue delete when it is done with the message. */
    method ExecuteAndDelete(m: Message, c: Calls) returns (threw: bool)
      modifies this`queue, this`processed, handler`emitted, handler`unprocessed
      ensures threw <==> Throws(m, handler.envSecretHash, c)
      ensures Totals() == Plus(old(Totals()), MessageEffect(m, handler.envSecretHash, c))
    {
      var done := handler.Execute(m, c.hookOk, c.storeOk);
      if Handles(m, handler.envSecretHash, c.hookOk) {
        processed := processed + {m};
      }
      threw := false;
      if done {
        threw := DeleteMessage(m, c.delete);
      }
    }

    /** Nothing is thrown on: a failed insert or delete is caught and reported. */
    method HandleProcessingError(m: Message, storeOk: bool, d: DeleteResult)
      modifies this`queue, handler`unprocessed
      ensures handler.unprocessed == if storeOk then old(handler.unprocessed) + [m] else old(handler.unprocessed)
      ensures queue == if storeOk && Removes(d) then old(queue) - {m} else old(queue)
      ensures m in old(queue) ==> Machine() == Exec(old(Machine()), ReportScript(0, m, storeOk, d))
    {
      if m in queue {
        ReportScriptEffect(Machine(), 0, m, storeOk, d);
        MachineMoves(queue, processed, handler.unprocessed, disabled, m, false, storeOk, storeOk && Removes(d));
      }
      if storeOk {
        handler.unprocessed := handler.unprocessed + [m];
        var _ := DeleteMessage(m, d);
      }
    }

    method IncreaseError(ghost c: Callback) returns (threw: bool)
      requires Valid() && IsError(c)
      modifies this`errorsCount, this`log
      ensures Valid() && log == old(log) + [c]
      ensures threw <==> ErrorsSince(log) >= 10
    {
      errorsCount := errorsCount + 1;
      log := log + [c];
      assert log[..|log| - 1] == old(log);
      threw := errorsCount >= 10;
    }

    method HandleError() returns (threw: bool)
      requires Valid()
      modifies this`errorsCount, this`log
      ensures Valid() && log == old(log) + [ConsumeError] && (threw <==> ErrorsSince(log) >= 10)
    {
      threw := IncreaseError(ConsumeError);
    }

    method HandleTimeoutError() returns (threw: bool)
      requires Valid()
      modifies this`errorsCount, this`log
      ensures Valid() && log == old(log) + [TimeoutError] && (threw <==> ErrorsSince(log) >= 10)
    {
      threw := IncreaseError(TimeoutError);
    }

    /** The loop stops at the first message whose handling throws; the rest is not looked at. */
    method HandleMessageBatch(ms: seq<Message>, cs: seq<Calls>) returns (threw: bool, count: nat)
      requires Valid() && |cs| == |ms|
      modifies this`errorsCount, this`queue, this`processed, this`log, handler`emitted, handler`unprocessed
      ensures Valid() && StopsAt(ms, cs, handler.envSecretHash, disabled, threw, count)
      ensures log == old(log) + Completions(count) + if threw then [Threw] else []
      ensures var n := if threw then count + 1 else count;
              Totals() == BatchTally(old(Totals()), ms, cs, handler.envSecretHash, disabled, n)
      ensures QueuedOnce(ms, old(queue)) ==>
                Machine() == Exec(old(Machine()),
                                  BatchScript(ms, cs, handler.envSecretHash, if threw then count + 1 else count))
    {
      threw, count := HandleEach(ms, cs);
      ghost var secret, n := handler.envSecretHash, if threw then count + 1 else count;
      if QueuedOnce(ms, old(queue)) {
        BatchIsMachineRun(old(Totals()), ms, cs, secret, disabled, n);
      }
    }

    /** The loop of handleMessageBatch. */
    method HandleEach(ms: seq<Message>, cs: seq<Calls>) returns (threw: bool, count: nat)
      requires Valid() && |cs| == |ms|
      modifies this`errorsCount, this`queue, this`processed, this`log, handler`emitted, handler`unprocessed
      ensures Valid() && StopsAt(ms, cs, handler.envSecretHash, disabled, threw, count)
      ensures log == old(log) + Completions(count) + if threw then [Threw] else []
      ensures var n := if threw then count + 1 else count;
              Totals() == BatchTally(old(Totals()), ms, cs, handler.envSecretHash, disabled, n)
    {
      threw, count := false, 0;
      ghost var start, secret, before := Totals(), handler.envSecretHash, log;
      PlusNothing(start);
      while count < |ms|
        invariant count <= |ms| && Valid() && !threw && RunsThrough(ms, cs, secret, disabled, count)
        invariant log == before + Completions(count)
        invariant Totals() == BatchTally(start, ms, cs, secret, disabled, count)
      {
        BatchStep(start, ms, cs, secret, disabled, count);
        threw := HandleMessage(ms[count], cs[count]);
        if threw {
          return;
        }
        count := count + 1;
      }
    }
  }
}
