/** The events queue, its handler and its dead-letter store as interleaved deliveries: any number of
    workers, redelivery at any time, and a failure at every call. Retention expiry is left out. */
module MessageQueue {
  import opened Options

  datatype Schema = DomainEvent | Broadcast | NewConnection | DisableAllRoutes | DisableLogin

  /** What a payload has under envSecretHash; anything but a text or null is Missing. */
  datatype SecretHash = Missing | NullHash | Hash(text: string)

  /** A body the schema accepts. */
  datatype Payload = Payload(schema: Schema, event: string, envSecretHash: SecretHash, disable: bool)

  /** body is None when it is missing, is not JSON, or fails the schema. */
  datatype Message = Message(id: string, body: Option<Payload>)

  /** Where one delivery stands. */
  datatype Worker =
    | Idle
    | Received(m: Message)   // handleMessage called
    | Handling(m: Message)   // in the message handler
    | Storing(m: Message)    // the handler's catch, before the insert
    | Reporting(m: Message)  // handleProcessingError, before the insert
    | Deleting(m: Message)   // before the queue delete

  /** processed holds the messages some handler run completed for. */
  datatype State = State(sent: set<Message>, queue: set<Message>, processed: set<Message>,
                         unprocessed: set<Message>, disabled: bool, workers: map<nat, Worker>)

  /** Step says how the call at hand ends: ok is what the caller sees, done whether a write that
      reports a failure took place all the same. */
  datatype Action =
    | Send(m: Message)
    | Receive(w: nat, m: Message)
    | ProcessingError(w: nat, m: Message)
    | Step(w: nat, ok: bool, done: bool)
    | Crash(w: nat)
    | SetDisabled(disabled: bool)

  const INIT := State({}, {}, {}, {}, false, map[])

  predicate IsFree(s: State, w: nat) {
    w !in s.workers || s.workers[w].Idle?
  }

  function Goto(s: State, w: nat, worker: Worker): State {
    s.(workers := s.workers[w := worker])
  }

  function StepWorker(s: State, w: nat, ok: bool, done: bool): State
    requires w in s.workers
  {
    match s.workers[w]
    case Idle => s
    case Received(m) => Goto(s, w, if s.disabled then Idle else Handling(m))
    case Handling(m) =>
      if ok then Goto(s.(processed := s.processed + {m}), w, Deleting(m)) else Goto(s, w, Storing(m))
    case Storing(m) =>
      Goto(if ok || done then s.(unprocessed := s.unprocessed + {m}) else s, w, if ok then Deleting(m) else Idle)
    case Reporting(m) =>
      Goto(if ok || done then s.(unprocessed := s.unprocessed + {m}) else s, w, if ok then Deleting(m) else Idle)
    case Deleting(m) =>
      Goto(if ok || done then s.(queue := s.queue - {m}) else s, w, Idle)
  }

  function Apply(s: State, a: Action): State {
    match a
    case Send(m) => if m in s.sent then s else s.(sent := s.sent + {m}, queue := s.queue + {m})
    case Receive(w, m) => if m in s.queue && IsFree(s, w) then Goto(s, w, Received(m)) else s
    case ProcessingError(w, m) => if m in s.sent && IsFree(s, w) then Goto(s, w, Reporting(m)) else s
    case Step(w, ok, done) => if w in s.workers then StepWorker(s, w, ok, done) else s
    case Crash(w) => if w in s.workers then Goto(s, w, Idle) else s
    case SetDisabled(disabled) => s.(disabled := disabled)
  }

  function Exec(s: State, actions: seq<Action>): State
    decreases |actions|
  {
    if actions == [] then s else Exec(Apply(s, actions[0]), actions[1..])
  }

  /** What happens to the queue from outside: messages are sent once, any queued one may be delivered
      to any free worker, any sent one reported to one, a worker may stop anywhere, and the consumer
      is switched. */
  lemma OutsideEffects(s: State, w: nat, m: Message, on: bool)
    ensures Apply(s, Send(m)) == if m in s.sent then s else s.(sent := s.sent + {m}, queue := s.queue + {m})
    ensures m in s.queue && IsFree(s, w) ==> Apply(s, Receive(w, m)) == s.(workers := s.workers[w := Received(m)])
    ensures m in s.sent && IsFree(s, w) ==>
            Apply(s, ProcessingError(w, m)) == s.(workers := s.workers[w := Reporting(m)])
    ensures w in s.workers ==> Apply(s, Crash(w)) == s.(workers := s.workers[w := Idle])
    ensures Apply(s, SetDisabled(on)) == s.(disabled := on)
  {}

  /** An insert or a removal that reports a failure may have taken place or not, and the caller goes
      on as if it had not. */
  lemma FailedWritesMayStand(s: State, w: nat, m: Message, done: bool)
    requires w in s.workers
    ensures s.workers[w] == Storing(m) || s.workers[w] == Reporting(m) ==>
              StepWorker(s, w, false, done) ==
              Goto(s.(unprocessed := if done then s.unprocessed + {m} else s.unprocessed), w, Idle)
    ensures s.workers[w] == Deleting(m) ==>
              StepWorker(s, w, false, done) == Goto(s.(queue := if done then s.queue - {m} else s.queue), w, Idle)
  {}

  // ---------- conservation ----------

  ghost predicate Conserved(s: State) {
    s.sent == s.queue + s.processed + s.unprocessed
  }

  ghost predicate WorkerOk(s: State, w: Worker) {
    && (!w.Idle? ==> w.m in s.sent)
    && (w.Deleting? ==> w.m in s.processed + s.unprocessed)
  }

  ghost predicate Inv(s: State) {
    Conserved(s) && forall w | w in s.workers :: WorkerOk(s, s.workers[w])
  }

  /** Nothing leaves sent, processed or unprocessed, and what leaves the queue is in one of the latter. */
  ghost predicate Grows(s: State, t: State) {
    && s.sent == t.sent && s.processed <= t.processed && s.unprocessed <= t.unprocessed && t.queue <= s.queue
    && s.queue - t.queue <= t.processed + t.unprocessed
       && t.processed + t.unprocessed <= s.processed + s.unprocessed + s.sent
  }

  lemma StepGrows(s: State, w: nat, ok: bool, done: bool)
    requires w in s.workers && WorkerOk(s, s.workers[w])
    ensures var t := StepWorker(s, w, ok, done);
            Grows(s, t) && t.workers == s.workers[w := t.workers[w]] && WorkerOk(t, t.workers[w])
  {}

  lemma StepKeepsInv(s: State, w: nat, ok: bool, done: bool)
    requires Inv(s) && w in s.workers
    ensures Inv(StepWorker(s, w, ok, done))
  {
    StepGrows(s, w, ok, done);
  }

  lemma ApplyKeepsInv(s: State, a: Action)
    requires Inv(s)
    ensures Inv(Apply(s, a))
  {
    if a.Step? && a.w in s.workers {
      StepKeepsInv(s, a.w, a.ok, a.done);
    }
  }

  /** In every reachable state each message ever sent is still queued, or was handled, or is in the
      dead-letter store; and nothing is there that was not sent. */
  lemma {:induction false} NoMessageIsLost(s: State, actions: seq<Action>)
    requires Inv(s)
    ensures Inv(Exec(s, actions)) && Conserved(Exec(s, actions))
    decreases |actions|
  {
    if actions != [] {
      ApplyKeepsInv(s, actions[0]);
      NoMessageIsLost(Apply(s, actions[0]), actions[1..]);
    }
  }

  lemma NoMessageIsLostFromStart(actions: seq<Action>)
    ensures Conserved(Exec(INIT, actions))
  {
    NoMessageIsLost(INIT, actions);
  }

  /** A message leaves the queue only once it was handled or stored, and both are for good. */
  lemma {:induction false} OutcomesAreForGood(s: State, actions: seq<Action>)
    requires Inv(s)
    ensures var t := Exec(s, actions);
            && s.sent <= t.sent && s.processed <= t.processed && s.unprocessed <= t.unprocessed
            && s.queue - t.queue <= t.processed + t.unprocessed
    decreases |actions|
  {
    if actions != [] {
      ApplyKeepsInv(s, actions[0]);
      OutcomesAreForGood(Apply(s, actions[0]), actions[1..]);
      NoMessageIsLost(s, actions);
    }
  }

  /** Once disabled, and past the handler runs already under way, nothing is handled any more,
      until it is enabled again; messages can still reach the store. */
  lemma {:induction false} DisabledHandlesNothing(s: State, actions: seq<Action>)
    requires s.disabled && (forall w | w in s.workers :: !s.workers[w].Handling?)
    requires forall a | a in actions :: !a.SetDisabled? || a.disabled
    ensures Exec(s, actions).processed == s.processed && Exec(s, actions).disabled
    decreases |actions|
  {
    if actions != [] {
      var t := Apply(s, actions[0]);
      assert actions[0] in actions;
      assert forall w | w in t.workers :: !t.workers[w].Handling?;
      DisabledHandlesNothing(t, actions[1..]);
    }
  }
}
