/**
  The transactional entry point of state-changing commands: idempotency records, trace events and
  outbox rows are written together with the command's own changes, or not at all.
 */
module Commands {
  import opened Options

  // ----- what a command brings and what it leaves

  datatype Context = Context(commandId: string, traceId: string, idempotencyKey: string)

  datatype Message = Message(outboxId: string, topic: string, payload: string, idempotencyKey: string)

  datatype CommandOutcome = CommandOutcome(
    data: string, aggregateType: string, aggregateId: string, revision: int,
    status: int, eventType: string, messages: seq<Message>)

  // A command either raises or returns the changed domain state and its outcome.
  datatype Called<D> = Raises | Returns(domain: D, outcome: CommandOutcome)

  datatype Call<!D> = Call(
    scope: string, key: string, request: string, context: Context, callback: D -> Called<D>)

  datatype Body = Body(
    data: string, commandId: string, traceId: string, idempotencyKey: string, idempotentReplay: bool,
    aggregateType: string, aggregateId: string, revision: int)

  datatype Record = Record(
    requestHash: string, commandId: string, completed: bool, status: int, body: Option<Body>)

  datatype Event = Event(key: string, eventType: string, aggregateType: string, aggregateId: string, revision: int)

  datatype CommandError = IdempotencyConflict | InProgress | CallbackRaised | EventRejected | OutboxRejected

  datatype Execution = Executed(status: int, body: Body, replay: bool) | Raised(error: CommandError)

  // Everything a transaction may change.
  datatype Store<D> = Store(
    records: map<(string, string), Record>, events: seq<Event>, outbox: map<string, Message>, domain: D)

  // ----- the single writes of a transaction

  function ResponseBody(outcome: CommandOutcome, context: Context): Body {
    Body(outcome.data, context.commandId, context.traceId, context.idempotencyKey, false,
         outcome.aggregateType, outcome.aggregateId, outcome.revision)
  }

  function EventOf(outcome: CommandOutcome, context: Context): Event {
    Event(context.commandId + ":" + outcome.eventType, outcome.eventType,
          outcome.aggregateType, outcome.aggregateId, outcome.revision)
  }

  // Event keys are unique and revisions positive.
  predicate EventFits(events: seq<Event>, event: Event) {
    event.revision >= 1 && forall i :: 0 <= i < |events| ==> events[i].key != event.key
  }

  predicate OutboxIdUsed(outbox: map<string, Message>, outboxId: string) {
    exists key <- outbox :: outbox[key].outboxId == outboxId
  }

  // A message is inserted unless its id or its key is taken; what is then found under the key must be
  // the same message.
  function Enqueue(outbox: map<string, Message>, m: Message): Option<map<string, Message>> {
    if m.idempotencyKey in outbox then
      var found := outbox[m.idempotencyKey];
      if found.payload == m.payload && found.topic == m.topic then Some(outbox) else None
    else if OutboxIdUsed(outbox, m.outboxId) then None
    else Some(outbox[m.idempotencyKey := m])
  }

  function EnqueueAll(outbox: map<string, Message>, messages: seq<Message>): Option<map<string, Message>> {
    if messages == [] then Some(outbox)
    else
      match EnqueueAll(outbox, messages[..|messages| - 1])
      case None => None
      case Some(before) => Enqueue(before, messages[|messages| - 1])
  }

  // ----- one command as a transaction

  // The answer to a command whose key is already recorded.
  function Replay(record: Record, requestHash: string): Execution {
    if record.requestHash != requestHash then Raised(IdempotencyConflict)
    else if !record.completed || record.body.None? then Raised(InProgress)
    else Executed(if record.status != 0 then record.status else 200,
                  record.body.value.(idempotentReplay := true), true)
  }

  // A command under a new key.
  function FirstTime<D>(store: Store<D>, hash: string -> string, call: Call<D>): (Store<D>, Execution) {
    match call.callback(store.domain)
    case Raises => (store, Raised(CallbackRaised))
    case Returns(domain, outcome) =>
      var event := EventOf(outcome, call.context);
      var outbox := EnqueueAll(store.outbox, outcome.messages);
      if !EventFits(store.events, event) then (store, Raised(EventRejected))
      else if outbox.None? then (store, Raised(OutboxRejected))
      else
        var body := ResponseBody(outcome, call.context);
        var record := Record(hash(call.request), call.context.commandId, true, outcome.status, Some(body));
        (Store(store.records[(call.scope, call.key) := record], store.events + [event], outbox.value, domain),
         Executed(outcome.status, body, false))
  }

  function Step<D>(store: Store<D>, hash: string -> string, call: Call<D>): (Store<D>, Execution) {
    if (call.scope, call.key) in store.records then
      (store, Replay(store.records[(call.scope, call.key)], hash(call.request)))
    else FirstTime(store, hash, call)
  }

  /** The command handler over its store.  Each write goes to the store at once; when anything fails,
      the unit of work puts back the store it found. */
  class CommandHandler<!D(==)> {
    const hash: string -> string
    var store: Store<D>

    constructor (hash: string -> string, domain: D)
      ensures this.hash == hash && store == Store(map[], [], map[], domain)
    {
      this.hash := hash;
      store := Store(map[], [], map[], domain);
    }

    method Begin(call: Call<D>) returns (record: Record, replay: bool, conflict: bool)
      modifies this
      ensures replay == ((call.scope, call.key) in old(store).records)
      ensures replay ==> store == old(store) && record == store.records[(call.scope, call.key)]
      ensures !replay ==> record == Record(hash(call.request), call.context.commandId, false, 0, None)
      ensures !replay ==> store == old(store).(records := old(store).records[(call.scope, call.key) := record])
      ensures conflict == (record.requestHash != hash(call.request))
    {
      replay := (call.scope, call.key) in store.records;
      if !replay {
        record := Record(hash(call.request), call.context.commandId, false, 0, None);
        store := store.(records := store.records[(call.scope, call.key) := record]);
      }
      record := store.records[(call.scope, call.key)];
      conflict := record.requestHash != hash(call.request);
    }

    method EnqueueMessages(messages: seq<Message>) returns (ok: bool)
      modifies this
      ensures ok == EnqueueAll(old(store).outbox, messages).Some?
      ensures ok ==> store == old(store).(outbox := EnqueueAll(old(store).outbox, messages).value)
    {
      ok := true;
      var i := 0;
      while i < |messages|
        invariant i <= |messages| && EnqueueAll(old(store).outbox, messages[..i]).Some?
        invariant store == old(store).(outbox := EnqueueAll(old(store).outbox, messages[..i]).value)
      {
        assert messages[..i + 1][..i] == messages[..i];
        var outbox := Enqueue(store.outbox, messages[i]);
        if outbox.None? {
          NeverLater(old(store).outbox, messages, i + 1);
          return false;
        }
        store := store.(outbox := outbox.value);
        i := i + 1;
      }
      assert messages[..i] == messages;
    }

    /** A command is one step of the store: recorded under its key with its event and messages, or
        answered from the record, or refused without a trace. */
    method Execute(call: Call<D>) returns (execution: Execution)
      modifies this
      ensures (store, execution) == Step(old(store), hash, call)
    {
      var before := store;
      var record, replay, conflict := Begin(call);
      if conflict {
        store := before;
        return Raised(IdempotencyConflict);
      }
      if replay {
        if !record.completed || record.body.None? {
          return Raised(InProgress);
        }
        return Executed(if record.status != 0 then record.status else 200,
                        record.body.value.(idempotentReplay := true), true);
      }
      var called := call.callback(store.domain);
      if called.Raises? {
        store := before;
        return Raised(CallbackRaised);
      }
      store := store.(domain := called.domain);
      var outcome := called.outcome;
      var body := ResponseBody(outcome, call.context);
      var event := EventOf(outcome, call.context);
      if !EventFits(store.events, event) {
        store := before;
        return Raised(EventRejected);
      }
      store := store.(events := store.events + [event]);
      var enqueued := EnqueueMessages(outcome.messages);
      if !enqueued {
        store := before;
        return Raised(OutboxRejected);
      }
      var completed := Record(record.requestHash, record.commandId, true, outcome.status, Some(body));
      store := store.(records := store.records[(call.scope, call.key) := completed]);
      assert store.records == before.records[(call.scope, call.key) := completed];
      return Executed(outcome.status, body, false);
    }
  }

  lemma {:induction false} NeverLater(outbox: map<string, Message>, messages: seq<Message>, n: nat)
    requires n <= |messages| && EnqueueAll(outbox, messages[..n]).None?
    ensures EnqueueAll(outbox, messages).None?
    decreases |messages|
  {
    if n < |messages| {
      assert messages[..|messages| - 1][..n] == messages[..n];
      NeverLater(outbox, messages[..|messages| - 1], n);
    } else {
      assert messages[..n] == messages;
    }
  }

  // ----- runs: any sequence of commands, from any store

  function Run<D>(store: Store<D>, hash: string -> string, calls: seq<Call<D>>): Store<D> {
    if calls == [] then store
    else Step(Run(store, hash, calls[..|calls| - 1]), hash, calls[|calls| - 1]).0
  }

  // The answer to call `i` of a run.
  function Answer<D>(store: Store<D>, hash: string -> string, calls: seq<Call<D>>, i: nat): Execution
    requires i < |calls|
  {
    Step(Run(store, hash, calls[..i]), hash, calls[i]).1
  }

  // The call runs and is recorded, in this store.
  predicate CommitsIn<D>(before: Store<D>, hash: string -> string, call: Call<D>) {
    Step(before, hash, call).1.Executed? && !Step(before, hash, call).1.replay
  }

  // Call `i` of a run commits its command.
  predicate Commits<D>(store: Store<D>, hash: string -> string, calls: seq<Call<D>>, i: nat)
    requires i < |calls|
  {
    CommitsIn(Run(store, hash, calls[..i]), hash, calls[i])
  }

  // The last call of a run, as a step.
  lemma {:induction false} LastStep<D>(store: Store<D>, hash: string -> string, calls: seq<Call<D>>,
                                       before: seq<Call<D>>, last: Call<D>)
    requires calls != [] && before == calls[..|calls| - 1] && last == calls[|calls| - 1]
    ensures Run(store, hash, calls) == Step(Run(store, hash, before), hash, last).0
    ensures Commits(store, hash, calls, |before|) <==> CommitsIn(Run(store, hash, before), hash, last)
  {
  }

  function KeyOf<D>(call: Call<D>): (string, string) {
    (call.scope, call.key)
  }

  lemma {:induction false} RunKeepsRecord<D>(store: Store<D>, hash: string -> string, calls: seq<Call<D>>,
                                             before: seq<Call<D>>, key: (string, string))
    requires calls != [] && before == calls[..|calls| - 1] && key in Run(store, hash, before).records
    ensures key in Run(store, hash, calls).records
    ensures Run(store, hash, calls).records[key] == Run(store, hash, before).records[key]
  {
  }

  // Records, once there, stay as they are.
  lemma {:induction false} RecordsStay<D>(store: Store<D>, hash: string -> string, calls: seq<Call<D>>, i: nat,
                                          key: (string, string))
    requires i <= |calls| && key in Run(store, hash, calls[..i]).records
    ensures key in Run(store, hash, calls).records
    ensures Run(store, hash, calls).records[key] == Run(store, hash, calls[..i]).records[key]
    decreases |calls|
  {
    if i < |calls| {
      var before := calls[..|calls| - 1];
      assert before[..i] == calls[..i];
      RecordsStay(store, hash, before, i, key);
      RunKeepsRecord(store, hash, calls, before, key);
    } else {
      assert calls[..i] == calls;
    }
  }

  lemma {:induction false} CommitRecords<D>(store: Store<D>, hash: string -> string, calls: seq<Call<D>>, i: nat)
    requires i < |calls| && Commits(store, hash, calls, i)
    ensures var a := Answer(store, hash, calls, i);
            var records := Run(store, hash, calls[..i + 1]).records;
            && KeyOf(calls[i]) in records
            && records[KeyOf(calls[i])]
               == Record(hash(calls[i].request), calls[i].context.commandId, true, a.status, Some(a.body))
            && !a.body.idempotentReplay
  {
    assert calls[..i + 1][..i] == calls[..i];
  }

  // The record of a committed call is there for every later call.
  lemma {:induction false} RecordLater<D>(store: Store<D>, hash: string -> string, calls: seq<Call<D>>, i: nat, j: nat,
                                          records: map<(string, string), Record>)
    requires i < j < |calls| && Commits(store, hash, calls, i) && records == Run(store, hash, calls[..j]).records
    ensures var a := Answer(store, hash, calls, i);
            && KeyOf(calls[i]) in records
            && records[KeyOf(calls[i])]
               == Record(hash(calls[i].request), calls[i].context.commandId, true, a.status, Some(a.body))
            && !a.body.idempotentReplay
  {
    CommitRecords(store, hash, calls, i);
    assert calls[..j][..i + 1] == calls[..i + 1];
    RecordsStay(store, hash, calls[..j], i + 1, KeyOf(calls[i]));
  }

  /** Exactly once: in any run at most one call under the same scope and key commits its command. */
  lemma CommitsOnce<D>(store: Store<D>, hash: string -> string, calls: seq<Call<D>>, i: nat, j: nat)
    requires i < j < |calls| && KeyOf(calls[i]) == KeyOf(calls[j])
    ensures !(Commits(store, hash, calls, i) && Commits(store, hash, calls, j))
  {
    if Commits(store, hash, calls, i) {
      RecordLater(store, hash, calls, i, j, Run(store, hash, calls[..j]).records);
    }
  }

  // A call whose key is recorded is answered from the record.
  lemma StepReplays<D>(store: Store<D>, hash: string -> string, call: Call<D>, requestHash: string, commandId: string,
                       status: int, body: Body)
    requires KeyOf(call) in store.records
    requires store.records[KeyOf(call)] == Record(requestHash, commandId, true, status, Some(body))
    ensures Step(store, hash, call).0 == store
    ensures Step(store, hash, call).1
            == if hash(call.request) == requestHash
               then Executed(if status != 0 then status else 200, body.(idempotentReplay := true), true)
               else Raised(IdempotencyConflict)
  {
  }

  /** A later call under the key of a committed one changes nothing, whatever its callback would now
      do: the same request gets the first body with only the replay flag set, any request with
      another hash is a conflict. */
  lemma {:induction false} ReplayAnswers<D>(store: Store<D>, hash: string -> string, calls: seq<Call<D>>, i: nat,
                                            j: nat)
    requires i < j < |calls| && KeyOf(calls[i]) == KeyOf(calls[j]) && Commits(store, hash, calls, i)
    ensures Run(store, hash, calls[..j + 1]) == Run(store, hash, calls[..j])
    ensures var first := Answer(store, hash, calls, i);
            Answer(store, hash, calls, j)
            == if hash(calls[j].request) == hash(calls[i].request)
               then Executed(if first.status != 0 then first.status else 200,
                             first.body.(idempotentReplay := true), true)
               else Raised(IdempotencyConflict)
  {
    var first := Answer(store, hash, calls, i);
    RecordLater(store, hash, calls, i, j, Run(store, hash, calls[..j]).records);
    StepReplays(Run(store, hash, calls[..j]), hash, calls[j], hash(calls[i].request), calls[i].context.commandId,
                first.status, first.body);
    assert calls[..j + 1][..j] == calls[..j];
    LastStep(store, hash, calls[..j + 1], calls[..j], calls[j]);
  }

  /** A command that raises leaves nothing behind: its key stays free, so it may be retried. */
  lemma FailureLeavesNothing<D>(store: Store<D>, hash: string -> string, call: Call<D>)
    requires Step(store, hash, call).1.Raised?
    ensures Step(store, hash, call).0 == store
    ensures Step(store, hash, call).1.error in {CallbackRaised, EventRejected, OutboxRejected} <==>
              KeyOf(call) !in store.records
  {
  }

  ghost predicate AllCompleted<D>(store: Store<D>) {
    forall key <- store.records :: store.records[key].completed && store.records[key].body.Some?
  }

  /** No committed store holds a pending record, so no caller is ever told that a command is in progress. */
  lemma {:induction false} NeverInProgress<D>(store: Store<D>, hash: string -> string, calls: seq<Call<D>>)
    requires AllCompleted(store)
    ensures AllCompleted(Run(store, hash, calls))
    ensures forall i :: 0 <= i < |calls| ==> Answer(store, hash, calls, i) != Raised(InProgress)
  {
    if calls != [] {
      var n := |calls| - 1;
      NeverInProgress(store, hash, calls[..n]);
      forall i | 0 <= i < |calls| ensures Answer(store, hash, calls, i) != Raised(InProgress) {
        if i < n {
          assert calls[..n][..i] == calls[..i];
          assert Answer(store, hash, calls[..n], i) != Raised(InProgress);
        }
      }
    }
  }

  // ----- a run is what its committed commands do, once each

  // The committed calls of a run, in order.
  function Committed<D>(store: Store<D>, hash: string -> string, calls: seq<Call<D>>): seq<Call<D>> {
    if calls == [] then []
    else
      Committed(store, hash, calls[..|calls| - 1])
      + if Commits(store, hash, calls, |calls| - 1) then [calls[|calls| - 1]] else []
  }

  function KeysOf<D>(calls: seq<Call<D>>): set<(string, string)> {
    if calls == [] then {} else KeysOf(calls[..|calls| - 1]) + {KeyOf(calls[|calls| - 1])}
  }

  // What the last callback returns when the callbacks run alone, one after the other.
  function DomainAfter<D>(domain: D, calls: seq<Call<D>>): Called<D> {
    if calls == [] then Returns(domain, CommandOutcome("", "", "", 0, 0, "", []))
    else
      match DomainAfter(domain, calls[..|calls| - 1])
      case Raises => Raises
      case Returns(before, _) => calls[|calls| - 1].callback(before)
  }

  // The outcomes of the callbacks run alone, up to the first that raises.
  function Outcomes<D>(domain: D, calls: seq<Call<D>>): (outcomes: seq<CommandOutcome>)
    ensures DomainAfter(domain, calls).Returns? ==> |outcomes| == |calls|
  {
    if calls == [] then []
    else
      Outcomes(domain, calls[..|calls| - 1])
      + match DomainAfter(domain, calls) case Raises => [] case Returns(_, outcome) => [outcome]
  }

  // The events and the messages that these outcomes ask for.
  function EventsOf<D>(calls: seq<Call<D>>, outcomes: seq<CommandOutcome>): seq<Event>
    requires |calls| == |outcomes|
  {
    seq(|calls|, i requires 0 <= i < |calls| => EventOf(outcomes[i], calls[i].context))
  }

  function MessagesOf(outcomes: seq<CommandOutcome>): seq<Message> {
    if outcomes == [] then []
    else MessagesOf(outcomes[..|outcomes| - 1]) + outcomes[|outcomes| - 1].messages
  }

  lemma {:induction false} EnqueueSplit(outbox: map<string, Message>, a: seq<Message>, b: seq<Message>)
    requires EnqueueAll(outbox, a).Some?
    ensures EnqueueAll(outbox, a + b) == EnqueueAll(EnqueueAll(outbox, a).value, b)
  {
    if b == [] {
      assert a + b == a;
    } else {
      var n := |b| - 1;
      assert (a + b)[..|a + b| - 1] == a + b[..n];
      EnqueueSplit(outbox, a, b[..n]);
    }
  }

  // What the store holds is what the committed callbacks leave, run alone and once each.
  ghost predicate Played<D>(store: Store<D>, committed: seq<Call<D>>, after: Store<D>) {
    && DomainAfter(store.domain, committed).Returns?
    && after.domain == DomainAfter(store.domain, committed).domain
    && after.events == store.events + EventsOf(committed, Outcomes(store.domain, committed))
    && EnqueueAll(store.outbox, MessagesOf(Outcomes(store.domain, committed))) == Some(after.outbox)
    && after.records.Keys == store.records.Keys + KeysOf(committed)
  }

  lemma {:induction false} MoreCommitted<D>(domain: D, committed: seq<Call<D>>, last: Call<D>, outcome: CommandOutcome)
    requires DomainAfter(domain, committed).Returns?
    requires last.callback(DomainAfter(domain, committed).domain).Returns?
    requires last.callback(DomainAfter(domain, committed).domain).outcome == outcome
    ensures DomainAfter(domain, committed + [last]) == last.callback(DomainAfter(domain, committed).domain)
    ensures KeysOf(committed + [last]) == KeysOf(committed) + {KeyOf(last)}
    ensures Outcomes(domain, committed + [last]) == Outcomes(domain, committed) + [outcome]
  {
    var more := committed + [last];
    assert more[..|more| - 1] == committed && more[|more| - 1] == last;
  }

  // What the last call of a run adds, if it commits.
  ghost predicate Adds<D>(before: Store<D>, last: Call<D>, outcome: CommandOutcome, after: Store<D>) {
    && last.callback(before.domain) == Returns(after.domain, outcome)
    && after.events == before.events + [EventOf(outcome, last.context)]
    && EnqueueAll(before.outbox, outcome.messages) == Some(after.outbox)
    && after.records.Keys == before.records.Keys + {KeyOf(last)}
  }

  lemma StepAdds<D>(before: Store<D>, hash: string -> string, call: Call<D>) returns (outcome: CommandOutcome)
    ensures if CommitsIn(before, hash, call)
            then Adds(before, call, outcome, Step(before, hash, call).0)
            else Step(before, hash, call).0 == before
  {
    var called := call.callback(before.domain);
    outcome := if called.Returns? then called.outcome else CommandOutcome("", "", "", 0, 0, "", []);
  }

  lemma MoreEvents<D>(events: seq<Event>, calls: seq<Call<D>>, outcomes: seq<CommandOutcome>, last: Call<D>,
                      outcome: CommandOutcome)
    requires |calls| == |outcomes|
    ensures events + EventsOf(calls, outcomes) + [EventOf(outcome, last.context)]
            == events + EventsOf(calls + [last], outcomes + [outcome])
  {
  }

  lemma {:induction false} MoreMessages(outbox: map<string, Message>, outcomes: seq<CommandOutcome>,
                                        outcome: CommandOutcome)
    requires EnqueueAll(outbox, MessagesOf(outcomes)).Some?
    ensures EnqueueAll(outbox, MessagesOf(outcomes + [outcome]))
            == EnqueueAll(EnqueueAll(outbox, MessagesOf(outcomes)).value, outcome.messages)
  {
    var more := outcomes + [outcome];
    assert more[..|more| - 1] == outcomes && more[|more| - 1] == outcome;
    EnqueueSplit(outbox, MessagesOf(outcomes), outcome.messages);
  }

  lemma PlayedMore<D>(store: Store<D>, committed: seq<Call<D>>, before: Store<D>, last: Call<D>,
                      outcome: CommandOutcome, after: Store<D>)
    requires Played(store, committed, before) && Adds(before, last, outcome, after)
    ensures Played(store, committed + [last], after)
  {
    var outcomes := Outcomes(store.domain, committed);
    MoreCommitted(store.domain, committed, last, outcome);
    MoreEvents(store.events, committed, outcomes, last, outcome);
    MoreMessages(store.outbox, outcomes, outcome);
  }

  lemma NothingPlayed<D>(store: Store<D>)
    ensures Played(store, [], store)
  {
    assert EventsOf<D>([], []) == [];
  }

  // One call more.
  lemma PlayedOn<D>(store: Store<D>, hash: string -> string, committed: seq<Call<D>>, before: Store<D>, call: Call<D>)
    requires Played(store, committed, before)
    ensures Played(store, if CommitsIn(before, hash, call) then committed + [call] else committed,
                   Step(before, hash, call).0)
  {
    var outcome := StepAdds(before, hash, call);
    if CommitsIn(before, hash, call) {
      PlayedMore(store, committed, before, call, outcome, Step(before, hash, call).0);
    }
  }

  lemma {:induction false} CommittedMore<D>(store: Store<D>, hash: string -> string, calls: seq<Call<D>>,
                                            before: seq<Call<D>>, last: Call<D>)
    requires calls != [] && before == calls[..|calls| - 1] && last == calls[|calls| - 1]
    ensures Run(store, hash, calls) == Step(Run(store, hash, before), hash, last).0
    ensures Committed(store, hash, calls)
            == if CommitsIn(Run(store, hash, before), hash, last)
               then Committed(store, hash, before) + [last]
               else Committed(store, hash, before)
  {
  }

  /** A run is what its committed commands do, once each and in order: its domain is that of their callbacks,
      it adds exactly the event of each, its outbox is that of enqueueing all their messages, and it has one
      record for each. */
  lemma {:induction false} RunIsItsCommits<D>(store: Store<D>, hash: string -> string, calls: seq<Call<D>>)
    ensures Played(store, Committed(store, hash, calls), Run(store, hash, calls))
  {
    if calls == [] {
      NothingPlayed(store);
    } else {
      var before, last := calls[..|calls| - 1], calls[|calls| - 1];
      RunIsItsCommits(store, hash, before);
      PlayedOn(store, hash, Committed(store, hash, before), Run(store, hash, before), last);
      CommittedMore(store, hash, calls, before, last);
    }
  }

  // ----- the outbox, message by message

  predicate SameMessage(a: Message, b: Message) {
    a.topic == b.topic && a.payload == b.payload
  }

  // Message `i` is the first with its key, and the key is free.
  predicate NewAt(outbox: map<string, Message>, messages: seq<Message>, i: nat)
    requires i < |messages|
  {
    && messages[i].idempotencyKey !in outbox
    && forall j :: 0 <= j < i ==> messages[j].idempotencyKey != messages[i].idempotencyKey
  }

  // Message `i` repeats what is sent under its key already, or comes with an id of its own.
  ghost predicate FitsAt(outbox: map<string, Message>, messages: seq<Message>, i: nat)
    requires i < |messages|
  {
    var m := messages[i];
    && (m.idempotencyKey in outbox ==> SameMessage(outbox[m.idempotencyKey], m))
    && (forall j :: 0 <= j < i && messages[j].idempotencyKey == m.idempotencyKey ==> SameMessage(messages[j], m))
    && (NewAt(outbox, messages, i) ==>
          && (forall key <- outbox :: outbox[key].outboxId != m.outboxId)
          && (forall j :: 0 <= j < i && NewAt(outbox, messages, j) ==> messages[j].outboxId != m.outboxId))
  }

  ghost predicate AllFit(outbox: map<string, Message>, messages: seq<Message>) {
    forall i :: 0 <= i < |messages| ==> FitsAt(outbox, messages, i)
  }

  // The outbox keeps its rows and has in addition exactly the new messages.
  ghost predicate Filled(outbox: map<string, Message>, messages: seq<Message>, after: map<string, Message>) {
    && (forall key <- outbox :: key in after && after[key] == outbox[key])
    && (forall i :: 0 <= i < |messages| ==>
          messages[i].idempotencyKey in after && SameMessage(after[messages[i].idempotencyKey], messages[i]))
    && (forall i :: 0 <= i < |messages| && NewAt(outbox, messages, i) ==>
          after[messages[i].idempotencyKey] == messages[i])
    && (forall key <- after :: key in outbox || IsNewKey(outbox, messages, key))
  }

  ghost predicate IsNewKey(outbox: map<string, Message>, messages: seq<Message>, key: string) {
    exists i :: 0 <= i < |messages| && NewAt(outbox, messages, i) && messages[i].idempotencyKey == key
  }

  lemma FirstWithKey(outbox: map<string, Message>, messages: seq<Message>, n: nat) returns (i: nat)
    requires n < |messages| && messages[n].idempotencyKey !in outbox
    ensures i <= n && NewAt(outbox, messages, i) && messages[i].idempotencyKey == messages[n].idempotencyKey
  {
    i := n;
    while exists j :: 0 <= j < i && messages[j].idempotencyKey == messages[n].idempotencyKey
      invariant i <= n && messages[i].idempotencyKey == messages[n].idempotencyKey
      decreases i
    {
      var j :| 0 <= j < i && messages[j].idempotencyKey == messages[n].idempotencyKey;
      i := j;
    }
  }

  lemma FitsBefore(outbox: map<string, Message>, before: seq<Message>, m: Message, i: nat)
    requires i < |before|
    ensures NewAt(outbox, before + [m], i) <==> NewAt(outbox, before, i)
    ensures FitsAt(outbox, before + [m], i) <==> FitsAt(outbox, before, i)
  {
    var all := before + [m];
    assert forall j :: 0 <= j <= i ==> all[j] == before[j];
    assert forall j :: 0 <= j < i ==> (NewAt(outbox, all, j) <==> NewAt(outbox, before, j));
  }

  // Whether the last message can be enqueued.
  lemma LastFits(outbox: map<string, Message>, before: seq<Message>, m: Message, filled: map<string, Message>)
    requires Filled(outbox, before, filled) && AllFit(outbox, before)
    ensures Enqueue(filled, m).Some? <==> FitsAt(outbox, before + [m], |before|)
  {
    var all := before + [m];
    var n := |before|;
    forall i | 0 <= i < n ensures NewAt(outbox, all, i) <==> NewAt(outbox, before, i) {
      FitsBefore(outbox, before, m, i);
    }
    assert all[n] == m;
    if m.idempotencyKey in filled {
      if m.idempotencyKey !in outbox {
        var i :| 0 <= i < n && NewAt(outbox, before, i) && before[i].idempotencyKey == m.idempotencyKey;
        assert all[i] == before[i];
        assert !NewAt(outbox, all, n);
        forall j | 0 <= j < n && all[j].idempotencyKey == m.idempotencyKey
          ensures SameMessage(all[j], m) <==> SameMessage(filled[m.idempotencyKey], m)
        {
          assert all[j] == before[j];
        }
      } else {
        forall j | 0 <= j < n && all[j].idempotencyKey == m.idempotencyKey
          ensures SameMessage(all[j], m) <==> SameMessage(filled[m.idempotencyKey], m)
        {
          assert all[j] == before[j];
        }
      }
    } else {
      NewIdIsFree(outbox, before, m, filled);
    }
  }

  lemma NewIdIsFree(outbox: map<string, Message>, before: seq<Message>, m: Message, filled: map<string, Message>)
    requires Filled(outbox, before, filled) && m.idempotencyKey !in filled
    ensures !OutboxIdUsed(filled, m.outboxId) <==> FitsAt(outbox, before + [m], |before|)
  {
    var all := before + [m];
    forall j | 0 <= j < |before| ensures all[j] == before[j] && all[j].idempotencyKey != m.idempotencyKey {
    }
    forall i | 0 <= i < |before| ensures NewAt(outbox, all, i) <==> NewAt(outbox, before, i) {
      FitsBefore(outbox, before, m, i);
    }
    assert NewAt(outbox, all, |before|);
    if OutboxIdUsed(filled, m.outboxId) {
      var key :| key in filled && filled[key].outboxId == m.outboxId;
      if key !in outbox {
        var i :| 0 <= i < |before| && NewAt(outbox, before, i) && before[i].idempotencyKey == key;
        assert NewAt(outbox, all, i) && all[i].outboxId == m.outboxId;
      }
    } else {
      forall j | 0 <= j < |before| && NewAt(outbox, all, j) ensures all[j].outboxId != m.outboxId {
        assert filled[before[j].idempotencyKey] == before[j];
      }
    }
  }

  lemma FilledMore(outbox: map<string, Message>, before: seq<Message>, m: Message, filled: map<string, Message>)
    requires Filled(outbox, before, filled) && Enqueue(filled, m).Some?
    ensures Filled(outbox, before + [m], Enqueue(filled, m).value)
  {
    var all, after := before + [m], Enqueue(filled, m).value;
    forall i | 0 <= i < |before| ensures all[i] == before[i] && (NewAt(outbox, all, i) <==> NewAt(outbox, before, i)) {
      FitsBefore(outbox, before, m, i);
    }
    assert all[|before|] == m;
    forall key | key in after && key !in outbox ensures IsNewKey(outbox, all, key) {
      if key in filled {
        var i :| 0 <= i < |before| && NewAt(outbox, before, i) && before[i].idempotencyKey == key;
        assert NewAt(outbox, all, i) && all[i].idempotencyKey == key;
      } else {
        assert NewAt(outbox, all, |before|);
      }
    }
    if m.idempotencyKey in filled && m.idempotencyKey !in outbox {
      var i :| 0 <= i < |before| && NewAt(outbox, before, i) && before[i].idempotencyKey == m.idempotencyKey;
      assert all[i].idempotencyKey == m.idempotencyKey;
      assert !NewAt(outbox, all, |before|);
    }
  }

  lemma AllFitMore(outbox: map<string, Message>, before: seq<Message>, m: Message)
    ensures AllFit(outbox, before + [m]) <==> AllFit(outbox, before) && FitsAt(outbox, before + [m], |before|)
  {
    forall i | 0 <= i < |before| ensures FitsAt(outbox, before + [m], i) <==> FitsAt(outbox, before, i) {
      FitsBefore(outbox, before, m, i);
    }
  }

  /** Messages are enqueued exactly when each repeats what is sent under its key or comes with a new id; then the
      outbox keeps its rows and holds every message under its key, and nothing else. */
  lemma {:induction false} EnqueueAllMeans(outbox: map<string, Message>, messages: seq<Message>)
    ensures EnqueueAll(outbox, messages).Some? <==> AllFit(outbox, messages)
    ensures EnqueueAll(outbox, messages).Some? ==> Filled(outbox, messages, EnqueueAll(outbox, messages).value)
  {
    if messages != [] {
      var before, m := messages[..|messages| - 1], messages[|messages| - 1];
      EnqueueAllMeans(outbox, before);
      assert messages == before + [m];
      AllFitMore(outbox, before, m);
      if EnqueueAll(outbox, before).Some? {
        LastFits(outbox, before, m, EnqueueAll(outbox, before).value);
        if EnqueueAll(outbox, messages).Some? {
          FilledMore(outbox, before, m, EnqueueAll(outbox, before).value);
        }
      }
    }
  }

  // ----- when a call commits, what it writes, and what a run leaves in the outbox

  predicate IdsUnique(outbox: map<string, Message>) {
    forall a <- outbox, b <- outbox :: outbox[a].outboxId == outbox[b].outboxId ==> a == b
  }

  /** A call commits exactly when its scope and key are free, its callback returns, with a positive revision, its
      event key is not used, and its messages fit the outbox. */
  lemma CommitsExactly<D>(store: Store<D>, hash: string -> string, call: Call<D>)
    ensures CommitsIn(store, hash, call)
            <==> (call.scope, call.key) !in store.records
                 && call.callback(store.domain).Returns?
                 && (var outcome := call.callback(store.domain).outcome;
                     && outcome.revision >= 1
                     && (forall i :: 0 <= i < |store.events| ==>
                           store.events[i].key != call.context.commandId + ":" + outcome.eventType)
                     && AllFit(store.outbox, outcome.messages))
  {
    if call.callback(store.domain).Returns? {
      EnqueueAllMeans(store.outbox, call.callback(store.domain).outcome.messages);
    }
  }

  /** A call that commits writes the domain its callback returns, one event and one record that name it, and its
      messages; it is answered with the outcome. */
  lemma CommitWrites<D>(store: Store<D>, hash: string -> string, call: Call<D>, outcome: CommandOutcome,
                       after: Store<D>)
    requires CommitsIn(store, hash, call) && after == Step(store, hash, call).0
    requires outcome == call.callback(store.domain).outcome
    ensures after.domain == call.callback(store.domain).domain
    ensures after.events == store.events + [Event(
              call.context.commandId + ":" + outcome.eventType, outcome.eventType, outcome.aggregateType,
              outcome.aggregateId, outcome.revision)]
    ensures var body := Body(outcome.data, call.context.commandId, call.context.traceId, call.context.idempotencyKey,
                             false, outcome.aggregateType, outcome.aggregateId, outcome.revision);
            && Step(store, hash, call).1 == Executed(outcome.status, body, false)
            && after.records == store.records[(call.scope, call.key) :=
                 Record(hash(call.request), call.context.commandId, true, outcome.status, Some(body))]
    ensures Filled(store.outbox, outcome.messages, after.outbox)
  {
    EnqueueAllMeans(store.outbox, outcome.messages);
  }

  lemma IdsStayUnique(outbox: map<string, Message>, messages: seq<Message>, after: map<string, Message>)
    requires IdsUnique(outbox) && AllFit(outbox, messages) && Filled(outbox, messages, after)
    ensures IdsUnique(after)
  {
    forall a, b | a in after && b in after && after[a].outboxId == after[b].outboxId ensures a == b {
      if a in outbox && b !in outbox {
        NewIdDiffers(outbox, messages, after, a, b);
      } else if a !in outbox && b in outbox {
        NewIdDiffers(outbox, messages, after, b, a);
      } else if a !in outbox && b !in outbox {
        NewIdsDiffer(outbox, messages, after, a, b);
      }
    }
  }

  lemma NewIdDiffers(
    outbox: map<string, Message>, messages: seq<Message>, after: map<string, Message>, a: string, b: string)
    requires AllFit(outbox, messages) && Filled(outbox, messages, after)
    requires a in outbox && b in after && b !in outbox
    ensures after[a].outboxId != after[b].outboxId
  {
    var i :| 0 <= i < |messages| && NewAt(outbox, messages, i) && messages[i].idempotencyKey == b;
    assert FitsAt(outbox, messages, i);
  }

  lemma NewIdsDiffer(
    outbox: map<string, Message>, messages: seq<Message>, after: map<string, Message>, a: string, b: string)
    requires AllFit(outbox, messages) && Filled(outbox, messages, after)
    requires a in after && a !in outbox && b in after && b !in outbox
    requires after[a].outboxId == after[b].outboxId
    ensures a == b
  {
    var i :| 0 <= i < |messages| && NewAt(outbox, messages, i) && messages[i].idempotencyKey == a;
    var j :| 0 <= j < |messages| && NewAt(outbox, messages, j) && messages[j].idempotencyKey == b;
    assert FitsAt(outbox, messages, i) && FitsAt(outbox, messages, j);
  }

  // What the callback of the committed call `i` of a run returned.
  function OutcomeAt<D>(store: Store<D>, hash: string -> string, calls: seq<Call<D>>, i: nat): CommandOutcome
    requires i < |calls| && Commits(store, hash, calls, i)
  {
    calls[i].callback(Run(store, hash, calls[..i]).domain).outcome
  }

  // The row is a message of a committed call.
  ghost predicate SentByCommit<D>(store: Store<D>, hash: string -> string, calls: seq<Call<D>>, row: Message) {
    exists i :: 0 <= i < |calls| && Commits(store, hash, calls, i) && row in OutcomeAt(store, hash, calls, i).messages
  }

  ghost predicate Delivered(outbox: map<string, Message>, messages: seq<Message>) {
    forall m <- messages :: m.idempotencyKey in outbox && SameMessage(outbox[m.idempotencyKey], m)
  }

  ghost predicate OutboxGrows(before: map<string, Message>, after: map<string, Message>) {
    forall key <- before :: key in after && after[key] == before[key]
  }

  // Every row was there before or is a message of a committed call, under its own key.
  ghost predicate OnlySent<D>(
    store: Store<D>, hash: string -> string, calls: seq<Call<D>>, outbox: map<string, Message>)
  {
    forall key <- outbox :: key !in store.outbox ==>
      outbox[key].idempotencyKey == key && SentByCommit(store, hash, calls, outbox[key])
  }

  ghost predicate AllDelivered<D>(
    store: Store<D>, hash: string -> string, calls: seq<Call<D>>, outbox: map<string, Message>)
  {
    forall i :: 0 <= i < |calls| && Commits(store, hash, calls, i) ==>
      Delivered(outbox, OutcomeAt(store, hash, calls, i).messages)
  }

  lemma SameCommits<D>(store: Store<D>, hash: string -> string, calls: seq<Call<D>>, before: seq<Call<D>>, i: nat)
    requires calls != [] && before == calls[..|calls| - 1] && i < |before|
    ensures Commits(store, hash, calls, i) <==> Commits(store, hash, before, i)
    ensures Commits(store, hash, calls, i) ==> OutcomeAt(store, hash, calls, i) == OutcomeAt(store, hash, before, i)
  {
    assert before[..i] == calls[..i];
  }

  lemma FilledGrows(outbox: map<string, Message>, messages: seq<Message>, after: map<string, Message>)
    requires Filled(outbox, messages, after)
    ensures OutboxGrows(outbox, after) && Delivered(after, messages)
    ensures forall key <- after :: key !in outbox ==> after[key].idempotencyKey == key && after[key] in messages
  {
    forall key | key in after && key !in outbox ensures after[key].idempotencyKey == key && after[key] in messages {
      var i :| 0 <= i < |messages| && NewAt(outbox, messages, i) && messages[i].idempotencyKey == key;
      assert after[key] == messages[i];
    }
  }

  lemma StepOutbox<D>(ran: Store<D>, hash: string -> string, call: Call<D>)
    ensures if CommitsIn(ran, hash, call)
            then && call.callback(ran.domain).Returns?
                 && AllFit(ran.outbox, call.callback(ran.domain).outcome.messages)
                 && Filled(ran.outbox, call.callback(ran.domain).outcome.messages, Step(ran, hash, call).0.outbox)
            else Step(ran, hash, call).0.outbox == ran.outbox
  {
    if CommitsIn(ran, hash, call) {
      CommitsExactly(ran, hash, call);
      CommitWrites(ran, hash, call, call.callback(ran.domain).outcome, Step(ran, hash, call).0);
    }
  }

  lemma {:induction false} LastOutcome<D>(store: Store<D>, hash: string -> string, calls: seq<Call<D>>,
                                          before: seq<Call<D>>, last: Call<D>)
    requires calls != [] && before == calls[..|calls| - 1] && last == calls[|calls| - 1]
    requires Commits(store, hash, calls, |before|)
    ensures OutcomeAt(store, hash, calls, |before|) == last.callback(Run(store, hash, before).domain).outcome
  {
  }

  lemma DeliveredOn<D>(store: Store<D>, hash: string -> string, calls: seq<Call<D>>, before: seq<Call<D>>,
                       was: map<string, Message>, now: map<string, Message>)
    requires calls != [] && before == calls[..|calls| - 1]
    requires AllDelivered(store, hash, before, was) && OutboxGrows(was, now)
    requires Commits(store, hash, calls, |before|) ==>
               Delivered(now, OutcomeAt(store, hash, calls, |before|).messages)
    ensures AllDelivered(store, hash, calls, now)
  {
    forall i | 0 <= i < |calls| && Commits(store, hash, calls, i)
      ensures Delivered(now, OutcomeAt(store, hash, calls, i).messages)
    {
      if i < |before| {
        SameCommits(store, hash, calls, before, i);
      }
    }
  }

  lemma OnlySentOn<D>(store: Store<D>, hash: string -> string, calls: seq<Call<D>>, before: seq<Call<D>>,
                      was: map<string, Message>, now: map<string, Message>)
    requires calls != [] && before == calls[..|calls| - 1]
    requires OnlySent(store, hash, before, was) && OutboxGrows(was, now) && OutboxGrows(store.outbox, was)
    requires forall key <- now :: key !in was ==>
               now[key].idempotencyKey == key && SentByCommit(store, hash, calls, now[key])
    ensures OnlySent(store, hash, calls, now)
  {
    forall key | key in now && key !in store.outbox
      ensures now[key].idempotencyKey == key && SentByCommit(store, hash, calls, now[key])
    {
      if key in was {
        var i :| 0 <= i < |before| && Commits(store, hash, before, i)
                 && was[key] in OutcomeAt(store, hash, before, i).messages;
        SameCommits(store, hash, calls, before, i);
      }
    }
  }

  // One call more.
  lemma OutboxOn<D>(store: Store<D>, hash: string -> string, calls: seq<Call<D>>, before: seq<Call<D>>,
                    was: map<string, Message>, now: map<string, Message>)
    requires calls != [] && before == calls[..|calls| - 1]
    requires OutboxGrows(store.outbox, was) && AllDelivered(store, hash, before, was)
    requires OnlySent(store, hash, before, was) && (IdsUnique(store.outbox) ==> IdsUnique(was))
    requires if Commits(store, hash, calls, |before|)
             then && AllFit(was, OutcomeAt(store, hash, calls, |before|).messages)
                  && Filled(was, OutcomeAt(store, hash, calls, |before|).messages, now)
             else now == was
    ensures OutboxGrows(store.outbox, now) && AllDelivered(store, hash, calls, now)
    ensures OnlySent(store, hash, calls, now) && (IdsUnique(store.outbox) ==> IdsUnique(now))
  {
    if Commits(store, hash, calls, |before|) {
      var messages := OutcomeAt(store, hash, calls, |before|).messages;
      FilledGrows(was, messages, now);
      if IdsUnique(was) {
        IdsStayUnique(was, messages, now);
      }
    }
    DeliveredOn(store, hash, calls, before, was, now);
    OnlySentOn(store, hash, calls, before, was, now);
  }

  /** Over any run: rows of the outbox never change, every message of every committed call is in it under its key,
      every row that was not there before is such a message, and outbox ids stay unique. */
  lemma {:induction false} OutboxOfRun<D>(store: Store<D>, hash: string -> string, calls: seq<Call<D>>)
    ensures OutboxGrows(store.outbox, Run(store, hash, calls).outbox)
    ensures AllDelivered(store, hash, calls, Run(store, hash, calls).outbox)
    ensures OnlySent(store, hash, calls, Run(store, hash, calls).outbox)
    ensures IdsUnique(store.outbox) ==> IdsUnique(Run(store, hash, calls).outbox)
  {
    if calls != [] {
      var before := calls[..|calls| - 1];
      OutboxOfRun(store, hash, before);
      LastStep(store, hash, calls, before, calls[|before|]);
      if Commits(store, hash, calls, |before|) {
        LastOutcome(store, hash, calls, before, calls[|before|]);
      }
      StepOutbox(Run(store, hash, before), hash, calls[|before|]);
      OutboxOn(store, hash, calls, before, Run(store, hash, before).outbox, Run(store, hash, calls).outbox);
    }
  }
}
