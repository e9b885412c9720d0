/**
 Durable execution of script batches.  A batch is journalled before any of its scripts runs; each
 result then replaces its journal record in an outbox, from which a flusher publishes it.  Handlers
 of several batches, the flusher and crashes interleave at every store call and every publication.
 */
module DurableExecution {
  import opened Options

  const OUTBOX_MAX_ENTRIES := 500

  /** The key under which journal and outbox file a request. */
  datatype Key = Key(text: string)

  function EntryKey(execution: string, script: Option<string>): Key {
    Key(if script.Some? then execution + ":" + script.value else execution)
  }

  /** How the journal recognizes the records of an execution. */
  predicate BelongsTo(execution: string, key: Key) {
    key.text == execution || execution + ":" <= key.text
  }

  // ---------------------------------------------------------------------------------------------
  // State
  // ---------------------------------------------------------------------------------------------

  /** The request at `index` of a batch, filed under `key`; a schedule may name a script twice, and then two
      requests share a key. */
  datatype Claim = Claim(batch: nat, index: nat, key: Key)

  datatype Report = Ran | Interrupted | NotExecuted

  datatype Result = Result(claim: Claim, report: Report)

  datatype Record = Record(claim: Claim, started: bool)

  datatype Entry = Entry(result: Result, created: nat)

  datatype Mode = Durable | Direct | Skipped

  /** The entry keys of a message's requests, and how the message was accepted. */
  datatype Batch = Batch(keys: seq<Key>, mode: Mode)

  /** The store: journal and outbox.  As bookkeeping, the requests of journalled batches, and those whose
      results were published or pruned. */
  datatype Ledger = Ledger(
    accepted: set<Claim>,
    journal: map<Key, Record>,
    outbox: map<Key, Entry>,
    sent: set<Claim>,
    pruned: set<Claim>)

  datatype Stage = Marking | Executing | Completing | Pruning | Publishing | Clearing

  /** Where the handler of a batch stands. */
  datatype Handler = Handler(alive: bool, next: nat, stage: Stage)
  {
    /** How many requests have been executed, and of how many the execution may have begun. */
    function Executed(): nat {
      next + if stage == Marking || stage == Executing then 0 else 1
    }

    function Begun(): nat {
      next + if stage == Marking then 0 else 1
    }
  }

  datatype Flusher =
    | Idle
    | Pass(listed: set<Claim>)
    | Holding(result: Result, listed: set<Claim>)
    | Removing(claim: Claim, listed: set<Claim>)

  datatype World = World(
    serving: bool,
    ledger: Ledger,
    batches: seq<Batch>,
    handlers: seq<Handler>,
    flusher: Flusher,
    ran: seq<Claim>,
    published: set<Result>,
    unmarked: set<Claim>)

  const Initial := World(false, Ledger({}, map[], map[], {}, {}), [], [], Idle, [], {}, {})

  // ---------------------------------------------------------------------------------------------
  // Store calls
  // ---------------------------------------------------------------------------------------------

  function Keys(execution: string, scripts: seq<Option<string>>): (keys: seq<Key>)
    ensures |keys| == |scripts|
    ensures forall i :: 0 <= i < |keys| ==> keys[i] == EntryKey(execution, scripts[i])
  {
    seq(|scripts|, i requires 0 <= i < |scripts| => EntryKey(execution, scripts[i]))
  }

  predicate InFlight(journal: map<Key, Record>, execution: string) {
    exists key | key in journal :: BelongsTo(execution, key)
  }

  function LastIndex(keys: seq<Key>, key: Key): (i: nat)
    requires key in keys
    ensures i < |keys| && keys[i] == key && forall j :: i < j < |keys| ==> keys[j] != key
  {
    if keys[|keys| - 1] == key then |keys| - 1 else LastIndex(keys[..|keys| - 1], key)
  }

  /** The records of a batch go into the journal in one transaction; of requests with the same key the last
      one leaves its record. */
  function Journalled(l: Ledger, keys: seq<Key>, batch: nat): Ledger {
    l.(
      accepted := l.accepted + set i | 0 <= i < |keys| :: Claim(batch, i, keys[i]),
      journal := l.journal + map key | key in keys :: Record(Claim(batch, LastIndex(keys, key), key), false))
  }

  /** The entry goes into the outbox and the journal record away, in one transaction. */
  function Store(l: Ledger, entry: Entry): Ledger {
    var key := entry.result.claim.key;
    l.(outbox := l.outbox[key := entry], journal := l.journal - {key})
  }

  function Pruned(l: Ledger, victims: set<Key>): Ledger {
    l.(
      outbox := l.outbox - victims,
      pruned := l.pruned + set key | key in victims && key in l.outbox :: l.outbox[key].result.claim)
  }

  /** Pruning drops the oldest entries over the cap, or, if there is none over it or the store fails,
      nothing. */
  predicate CanPrune(outbox: map<Key, Entry>, victims: set<Key>) {
    || victims == {}
    || (&& |outbox| > OUTBOX_MAX_ENTRIES
        && victims <= outbox.Keys
        && |outbox| == OUTBOX_MAX_ENTRIES + |victims|
        && forall k, l | k in victims && l in outbox.Keys - victims :: outbox[k].created <= outbox[l].created)
  }

  // ---------------------------------------------------------------------------------------------
  // Steps
  // ---------------------------------------------------------------------------------------------

  /** A failed store call leaves the store as it was. */
  datatype Action =
    | Deliver(execution: string, scripts: seq<Option<string>>, journalled: bool)
    | Mark(batch: nat, ok: bool)
    | Execute(batch: nat)
    | Complete(batch: nat, ok: bool, now: nat)
    | Prune(batch: nat, victims: set<Key>)
    | Publish(batch: nat, ok: bool)
    | Clear(batch: nat, ok: bool)
    | ListPending
    | LoadPayload(claim: Claim)
    | Send(ok: bool)
    | Remove(ok: bool)
    | GiveUp
    | Crash
    | Recover(key: Key, now: nat)
    | RecoverPrune(victims: set<Key>)
    | Serve

  predicate OfHandler(a: Action) {
    a.Mark? || a.Execute? || a.Complete? || a.Prune? || a.Publish? || a.Clear?
  }

  predicate OfFlusher(a: Action) {
    a.ListPending? || a.LoadPayload? || a.Send? || a.Remove? || a.GiveUp?
  }

  predicate At(w: World, b: nat, stage: Stage) {
    && b < |w.batches| && b < |w.handlers|
    && w.batches[b].mode != Skipped && w.handlers[b].next < |w.batches[b].keys|
    && w.handlers[b].alive && w.handlers[b].stage == stage
  }

  /** The request a handler stands at. */
  function Standing(w: World, b: nat): Claim
    requires b < |w.batches| && b < |w.handlers| && w.handlers[b].next < |w.batches[b].keys|
  {
    Claim(b, w.handlers[b].next, w.batches[b].keys[w.handlers[b].next])
  }

  predicate Enabled(w: World, a: Action) {
    match a
    case Deliver(_, _, _) => w.serving
    case Mark(b, _) => At(w, b, Marking)
    case Execute(b) => At(w, b, Executing)
    case Complete(b, _, _) => At(w, b, Completing)
    case Prune(b, victims) => At(w, b, Pruning) && CanPrune(w.ledger.outbox, victims)
    case Publish(b, _) => At(w, b, Publishing)
    case Clear(b, _) => At(w, b, Clearing)
    case ListPending => w.serving && w.flusher.Idle?
    case LoadPayload(claim) => w.flusher.Pass? && claim in w.flusher.listed
    case Send(_) => w.flusher.Holding?
    case Remove(_) => w.flusher.Removing?
    case GiveUp => !w.flusher.Removing?
    case Crash => true
    case Recover(key, _) => !w.serving && key in w.ledger.journal
    case RecoverPrune(victims) => !w.serving && CanPrune(w.ledger.outbox, victims)
    case Serve => !w.serving
  }

  /** What a handler's step does to the store. */
  function HandlerLedger(l: Ledger, a: Action, claim: Claim): Ledger
    requires OfHandler(a)
  {
    match a
    case Mark(_, ok) =>
      if ok && claim.key in l.journal then l.(journal := l.journal[claim.key := l.journal[claim.key].(started := true)])
      else l
    case Execute(_) => l
    case Complete(_, ok, now) => if ok then Store(l, Entry(Result(claim, Ran), now)) else l
    case Prune(_, victims) => Pruned(l, victims)
    case Publish(_, ok) => if ok then l.(sent := l.sent + {claim}) else l
    case Clear(_, ok) => if ok then l.(journal := l.journal - {claim.key}) else l
  }

  /** Where it takes the handler. */
  function Moved(h: Handler, a: Action, mode: Mode): Handler
    requires OfHandler(a)
  {
    var nextRequest := h.(next := h.next + 1, stage := if mode == Durable then Marking else Executing);
    match a
    case Mark(_, _) => h.(stage := Executing)
    case Execute(_) => h.(stage := if mode == Durable then Completing else Publishing)
    case Complete(_, ok, _) => h.(stage := if ok then Pruning else Publishing)
    case Prune(_, _) => nextRequest
    case Publish(_, ok) => if ok && mode == Durable then h.(stage := Clearing) else nextRequest
    case Clear(_, _) => nextRequest
  }

  /** One step of the handler of a message. */
  function HandlerStep(w: World, a: Action): World
    requires Enabled(w, a) && OfHandler(a)
  {
    var b := a.batch;
    var batch, h := w.batches[b], w.handlers[b];
    var claim := Standing(w, b);
    w.(
      ledger := HandlerLedger(w.ledger, a, claim),
      handlers := w.handlers[b := Moved(h, a, batch.mode)],
      ran := if a.Execute? then w.ran + [claim] else w.ran,
      published := if a.Publish? && a.ok then w.published + {Result(claim, Ran)} else w.published,
      unmarked := if a.Mark? && !a.ok then w.unmarked + {claim} else w.unmarked)
  }

  /** One step of the outbox flusher.  Only a failed removal does not end its pass. */
  function FlusherStep(w: World, a: Action): World
    requires Enabled(w, a) && OfFlusher(a)
  {
    var f, l := w.flusher, w.ledger;
    match a
    case ListPending => w.(flusher := Pass(set key | key in l.outbox :: l.outbox[key].result.claim))
    case LoadPayload(claim) =>
      var rest := f.listed - {claim};
      w.(flusher := if claim.key in l.outbox then Holding(l.outbox[claim.key].result, rest) else Removing(claim, rest))
    case Send(ok) =>
      if ok then w.(
        flusher := Removing(f.result.claim, f.listed),
        ledger := l.(sent := l.sent + {f.result.claim}),
        published := w.published + {f.result})
      else w.(flusher := Idle)
    case Remove(ok) => w.(flusher := Pass(f.listed), ledger := if ok then l.(outbox := l.outbox - {f.claim.key}) else l)
    case GiveUp => w.(flusher := if f.Holding? then Pass(f.listed) else Idle)
  }

  /** A message arrives: its batch is journalled, skipped because the execution is in flight, or, if the
      journal fails, run without the store. */
  function Accept(w: World, execution: string, keys: seq<Key>, journalled: bool): World {
    var mode := if !journalled then Direct else if InFlight(w.ledger.journal, execution) then Skipped else Durable;
    w.(
      ledger := if mode == Durable then Journalled(w.ledger, keys, |w.batches|) else w.ledger,
      batches := w.batches + [Batch(keys, mode)],
      handlers := w.handlers + [Handler(true, 0, if mode == Durable then Marking else Executing)])
  }

  function Stopped(handlers: seq<Handler>): seq<Handler> {
    seq(|handlers|, i requires 0 <= i < |handlers| => handlers[i].(alive := false))
  }

  function Recovered(l: Ledger, key: Key, now: nat): Ledger
    requires key in l.journal
  {
    var record := l.journal[key];
    Store(l, Entry(Result(record.claim, if record.started then Interrupted else NotExecuted), now))
  }

  function Apply(w: World, a: Action): World
    requires Enabled(w, a)
  {
    if OfHandler(a) then HandlerStep(w, a)
    else if OfFlusher(a) then FlusherStep(w, a)
    else if a.Deliver? then Accept(w, a.execution, Keys(a.execution, a.scripts), a.journalled)
    else if a.Crash? then w.(serving := false, handlers := Stopped(w.handlers), flusher := Idle)
    else if a.Recover? then w.(ledger := Recovered(w.ledger, a.key, a.now))
    else if a.RecoverPrune? then w.(ledger := Pruned(w.ledger, a.victims))
    else w.(serving := true)
  }

  /** A step that is not enabled does nothing. */
  function Next(w: World, a: Action): World {
    if Enabled(w, a) then Apply(w, a) else w
  }

  /** A run of the system, crashes included: the steps taken, the latest last. */
  datatype History = Start | Then(past: History, action: Action)

  function After(h: History): World {
    if h.Start? then Initial else Next(After(h.past), h.action)
  }

  // ---------------------------------------------------------------------------------------------
  // Where the result of an accepted request is
  // ---------------------------------------------------------------------------------------------

  predicate InJournal(l: Ledger, c: Claim) {
    c.key in l.journal && l.journal[c.key].claim == c
  }

  predicate InOutbox(l: Ledger, c: Claim) {
    c.key in l.outbox && l.outbox[c.key].result.claim == c
  }

  /** The result is still to come after a crash, waits in the outbox, or is accounted for. */
  predicate Somewhere(l: Ledger, c: Claim) {
    InJournal(l, c) || InOutbox(l, c) || c in l.sent || c in l.pruned
  }

  /** A live handler has not finished with the request. */
  predicate Held(w: World, c: Claim) {
    && c.batch < |w.handlers| && w.handlers[c.batch].alive
    && (w.handlers[c.batch].next < c.index
        || (w.handlers[c.batch].next == c.index && w.handlers[c.batch].stage != Pruning))
  }

  /** The flusher has loaded the result and not published it yet. */
  predicate InHand(w: World, c: Claim) {
    w.flusher.Holding? && w.flusher.result.claim == c
  }

  predicate Present(w: World, c: Claim) {
    Held(w, c) || InHand(w, c) || Somewhere(w.ledger, c)
  }

  predicate OnlyInOutbox(l: Ledger, c: Claim) {
    InOutbox(l, c) && !InJournal(l, c) && c !in l.sent && c !in l.pruned
  }

  predicate OnlyInJournal(l: Ledger, c: Claim) {
    InJournal(l, c) && !InOutbox(l, c) && c !in l.sent && c !in l.pruned
  }

  /** No other accepted request shares its key: neither of the same batch nor of one delivered again. */
  ghost predicate Uncontested(l: Ledger, c: Claim) {
    forall d | d in l.accepted :: d.key == c.key ==> d == c
  }

  // ---------------------------------------------------------------------------------------------
  // What every run keeps
  // ---------------------------------------------------------------------------------------------

  /** The accepted requests are those of the batches that were journalled. */
  ghost predicate AcceptedFrom(l: Ledger, batches: seq<Batch>) {
    forall c :: c in l.accepted <==>
      && c.batch < |batches| && batches[c.batch].mode == Durable
      && c.index < |batches[c.batch].keys| && batches[c.batch].keys[c.index] == c.key
  }

  /** Records are filed under their keys; of the requests of a batch with one key, the last has the record. */
  ghost predicate JournalOk(l: Ledger) {
    forall key | key in l.journal ::
      var c := l.journal[key].claim;
      c in l.accepted && c.key == key && forall d | d in l.accepted :: d.batch == c.batch && d.key == key ==> d.index <= c.index
  }

  /** The handler is done with the request and its record is gone. */
  predicate Settled(w: World, c: Claim) {
    c in w.ledger.accepted && !InJournal(w.ledger, c) && !Held(w, c)
  }

  ghost predicate OutboxOk(w: World) {
    forall key | key in w.ledger.outbox ::
      w.ledger.outbox[key].result.claim.key == key && Settled(w, w.ledger.outbox[key].result.claim)
  }

  ghost predicate FlusherOk(w: World) {
    var f := w.flusher;
    && (!f.Idle? ==> forall c | c in f.listed :: Settled(w, c))
    && (f.Holding? ==> Settled(w, f.result.claim))
    && (f.Removing? ==> Settled(w, f.claim) && (f.claim in w.ledger.sent || !InOutbox(w.ledger, f.claim)))
  }

  predicate Staged(l: Ledger, b: nat, batch: Batch, h: Handler) {
    && h.next <= |batch.keys|
    && (batch.mode == Direct ==> h.stage == Executing || h.stage == Publishing)
    && (batch.mode == Skipped ==> h.next == 0 && h.stage == Executing)
    && (batch.mode == Durable && h.stage == Clearing && h.next < |batch.keys| ==>
          Claim(b, h.next, batch.keys[h.next]) in l.sent)
    && (h.next == |batch.keys| ==> h.stage == Marking || h.stage == Executing)
  }

  ghost predicate HandlersOk(w: World) {
    && |w.handlers| == |w.batches|
    && (forall b :: 0 <= b < |w.batches| ==> Staged(w.ledger, b, w.batches[b], w.handlers[b]))
    && (!w.serving ==> w.flusher.Idle? && forall b :: 0 <= b < |w.handlers| ==> !w.handlers[b].alive)
    && (forall c :: c in w.ledger.sent || c in w.ledger.pruned ==> c.batch < |w.batches|)
  }

  ghost predicate Inv(w: World) {
    AcceptedFrom(w.ledger, w.batches) && JournalOk(w.ledger) && HandlersOk(w) && OutboxOk(w) && FlusherOk(w)
  }

  // ---------------------------------------------------------------------------------------------
  // A step of a handler
  // ---------------------------------------------------------------------------------------------

  lemma HandlerStands(w: World, a: Action)
    requires Inv(w) && OfHandler(a) && Enabled(w, a)
    ensures a.batch < |w.batches| == |w.handlers| && w.handlers[a.batch].next < |w.batches[a.batch].keys|
    ensures var d := Standing(w, a.batch);
            && (w.batches[a.batch].mode == Durable ==> d in w.ledger.accepted)
            && (!a.Publish? && !a.Execute? ==> w.batches[a.batch].mode == Durable)
            && (a.Clear? ==> d in w.ledger.sent)
            && (forall c | c in w.ledger.accepted && c.batch == a.batch && c.index == d.index :: c == d)
  {
    assert Staged(w.ledger, a.batch, w.batches[a.batch], w.handlers[a.batch]);
  }

  lemma HandlerMoved(w: World, a: Action)
    requires Enabled(w, a) && OfHandler(a)
    ensures var v := Apply(w, a);
            && v.ledger == HandlerLedger(w.ledger, a, Standing(w, a.batch))
            && v.batches == w.batches && v.flusher == w.flusher && v.serving == w.serving
            && v.handlers == w.handlers[a.batch := Moved(w.handlers[a.batch], a, w.batches[a.batch].mode)]
  {
  }

  lemma HoldsMoved(w: World, v: World, a: Action, d: Claim)
    requires Enabled(w, a) && OfHandler(a) && d == Standing(w, a.batch)
    requires v.handlers == w.handlers[a.batch := Moved(w.handlers[a.batch], a, w.batches[a.batch].mode)]
    requires forall c | c in w.ledger.accepted && c.batch == a.batch && c.index == d.index :: c == d
    ensures Held(w, d) <==> !a.Prune?
    ensures forall c | c in w.ledger.accepted && c != d :: Held(v, c) == Held(w, c)
    ensures Held(v, d) ==> Held(w, d)
    ensures a.Complete? && a.ok ==> !Held(v, d)
  {
  }

  /** What a handler's step does to the requests: `d` is the one it stands at. */
  lemma HandlerFacts(w: World, a: Action) returns (d: Claim)
    requires Inv(w) && OfHandler(a) && Enabled(w, a)
    ensures a.batch < |w.batches| == |w.handlers| && w.handlers[a.batch].next < |w.batches[a.batch].keys|
    ensures d == Standing(w, a.batch)
    ensures var v := Apply(w, a);
            && v.ledger == HandlerLedger(w.ledger, a, d)
            && v.batches == w.batches && v.flusher == w.flusher && v.serving == w.serving
            && v.handlers == w.handlers[a.batch := Moved(w.handlers[a.batch], a, w.batches[a.batch].mode)]
    ensures Held(w, d) <==> !a.Prune?
    ensures !a.Publish? && !a.Execute? ==> d in w.ledger.accepted
    ensures a.Clear? ==> d in w.ledger.sent
    ensures forall c | c in w.ledger.accepted && c != d :: Held(Apply(w, a), c) == Held(w, c)
    ensures Held(Apply(w, a), d) ==> Held(w, d)
    ensures a.Complete? && a.ok ==> !Held(Apply(w, a), d)
  {
    d := Standing(w, a.batch);
    HandlerStands(w, a);
    HandlerMoved(w, a);
    HoldsMoved(w, Apply(w, a), a, d);
  }

  /** Effects of a handler on the store: records only go, and an entry that comes is that of `d`. */
  lemma HandlerLedgerFacts(l: Ledger, a: Action, d: Claim)
    requires OfHandler(a)
    ensures var m := HandlerLedger(l, a, d);
            && m.accepted == l.accepted && l.sent <= m.sent <= l.sent + {d} && l.pruned <= m.pruned
            && (forall key | key in m.journal :: key in l.journal && m.journal[key].claim == l.journal[key].claim)
            && (forall key | key in m.outbox ::
                  || (key in l.outbox && m.outbox[key] == l.outbox[key])
                  || (a.Complete? && a.ok && key == d.key && m.outbox[key].result == Result(d, Ran)))
            && (a.Complete? && a.ok ==> d.key !in m.journal)
            && (forall c | c in m.pruned :: c in l.pruned || exists key :: key in l.outbox && l.outbox[key].result.claim == c)
  {
  }

  lemma HandlerKeepsSettled(w: World, a: Action)
    requires Inv(w) && OfHandler(a) && Enabled(w, a)
    ensures forall c :: Settled(w, c) ==> Settled(Apply(w, a), c)
  {
    var d := HandlerFacts(w, a);
    HandlerLedgerFacts(w.ledger, a, d);
  }

  lemma HandlerStaged(w: World, a: Action)
    requires Inv(w) && OfHandler(a) && Enabled(w, a)
    ensures HandlersOk(Apply(w, a))
  {
    var v := Apply(w, a);
    var d := HandlerFacts(w, a);
    HandlerLedgerFacts(w.ledger, a, d);
    forall b | 0 <= b < |v.batches| ensures Staged(v.ledger, b, v.batches[b], v.handlers[b]) {
      assert Staged(w.ledger, b, w.batches[b], w.handlers[b]);
    }
  }

  lemma HandlerInv(w: World, a: Action)
    requires Inv(w) && OfHandler(a) && Enabled(w, a)
    ensures Inv(Apply(w, a))
  {
    var v := Apply(w, a);
    var d := HandlerFacts(w, a);
    HandlerLedgerFacts(w.ledger, a, d);
    HandlerKeepsSettled(w, a);
    HandlerStaged(w, a);
    assert a.Complete? && a.ok ==> Settled(v, d);
  }

  // ---------------------------------------------------------------------------------------------
  // The other steps
  // ---------------------------------------------------------------------------------------------

  lemma NewKeysNotJournalled(journal: map<Key, Record>, execution: string, scripts: seq<Option<string>>)
    requires !InFlight(journal, execution)
    ensures forall key | key in Keys(execution, scripts) :: key !in journal
  {
    var keys := Keys(execution, scripts);
    forall key | key in keys ensures key !in journal {
      var i :| 0 <= i < |keys| && keys[i] == key;
      assert BelongsTo(execution, EntryKey(execution, scripts[i]));
    }
  }

  lemma JournalledAccepts(l: Ledger, keys: seq<Key>, batches: seq<Batch>)
    requires AcceptedFrom(l, batches)
    ensures AcceptedFrom(Journalled(l, keys, |batches|), batches + [Batch(keys, Durable)])
  {
    var m := Journalled(l, keys, |batches|);
    forall c ensures c in m.accepted <==> c in l.accepted || (c.batch == |batches| && c.index < |keys| && keys[c.index] == c.key) {
      if c.batch == |batches| && c.index < |keys| && keys[c.index] == c.key {
        assert c == Claim(|batches|, c.index, keys[c.index]);
      }
    }
  }

  /** Journalling a batch leaves all records that are there. */
  lemma JournalledFacts(l: Ledger, keys: seq<Key>, batches: seq<Batch>)
    requires AcceptedFrom(l, batches) && JournalOk(l)
    requires forall key | key in keys :: key !in l.journal
    ensures var m := Journalled(l, keys, |batches|);
            && JournalOk(m)
            && (forall c | c in l.accepted :: c in m.accepted && InJournal(m, c) == InJournal(l, c))
            && (forall c | c in m.accepted :: c in l.accepted || c.batch == |batches|)
  {
    var m := Journalled(l, keys, |batches|);
    forall key | key in m.journal
      ensures var c := m.journal[key].claim;
              c in m.accepted && c.key == key && forall d | d in m.accepted :: d.batch == c.batch && d.key == key ==> d.index <= c.index
    {
      if key in keys {
        assert m.journal[key].claim == Claim(|batches|, LastIndex(keys, key), key);
      } else {
        assert m.journal[key] == l.journal[key];
      }
    }
  }

  lemma AcceptInv(w: World, a: Action)
    requires Inv(w) && a.Deliver? && Enabled(w, a)
    ensures Inv(Apply(w, a))
    ensures forall c | c in w.ledger.accepted ::
              InJournal(Apply(w, a).ledger, c) == InJournal(w.ledger, c) && Held(Apply(w, a), c) == Held(w, c)
  {
    var v := Apply(w, a);
    var keys := Keys(a.execution, a.scripts);
    if v.batches[|w.batches|].mode == Durable {
      NewKeysNotJournalled(w.ledger.journal, a.execution, a.scripts);
      JournalledAccepts(w.ledger, keys, w.batches);
      JournalledFacts(w.ledger, keys, w.batches);
    }
    forall c | Settled(w, c) ensures Settled(v, c) {
    }
    forall b | 0 <= b < |v.batches| ensures Staged(v.ledger, b, v.batches[b], v.handlers[b]) {
      if b < |w.batches| {
        assert Staged(w.ledger, b, w.batches[b], w.handlers[b]);
      }
    }
  }

  /** The flusher leaves journal and handlers alone; entries only go, and what it publishes it knew. */
  lemma FlusherFacts(w: World, a: Action)
    requires Inv(w) && OfFlusher(a) && Enabled(w, a)
    ensures var v := Apply(w, a);
            && v.handlers == w.handlers && v.batches == w.batches && v.serving == w.serving
            && v.ledger.journal == w.ledger.journal && v.ledger.accepted == w.ledger.accepted
            && v.ledger.pruned == w.ledger.pruned && w.ledger.sent <= v.ledger.sent
            && (forall key | key in v.ledger.outbox :: key in w.ledger.outbox && v.ledger.outbox[key] == w.ledger.outbox[key])
            && (forall c | c in v.ledger.sent :: c in w.ledger.sent || Settled(w, c))
  {
  }

  lemma FlusherStaysOk(w: World, a: Action)
    requires Inv(w) && OfFlusher(a) && Enabled(w, a)
    ensures FlusherOk(Apply(w, a))
  {
    var v := Apply(w, a);
    FlusherFacts(w, a);
    assert forall c :: Settled(v, c) == Settled(w, c);
  }

  lemma FlusherStaged(w: World, a: Action)
    requires Inv(w) && OfFlusher(a) && Enabled(w, a)
    ensures HandlersOk(Apply(w, a))
  {
    var v := Apply(w, a);
    FlusherFacts(w, a);
    forall b | 0 <= b < |v.batches| ensures Staged(v.ledger, b, v.batches[b], v.handlers[b]) {
      assert Staged(w.ledger, b, w.batches[b], w.handlers[b]);
    }
  }

  lemma FlusherInv(w: World, a: Action)
    requires Inv(w) && OfFlusher(a) && Enabled(w, a)
    ensures Inv(Apply(w, a))
  {
    var v := Apply(w, a);
    FlusherFacts(w, a);
    FlusherStaysOk(w, a);
    FlusherStaged(w, a);
    assert forall c :: Settled(v, c) == Settled(w, c);
  }

  /** Crashing, recovering and starting to serve. */
  lemma RestartInv(w: World, a: Action)
    requires Inv(w) && Enabled(w, a) && !OfFlusher(a) && !OfHandler(a) && !a.Deliver?
    ensures Inv(Apply(w, a))
  {
    var v := Apply(w, a);
    forall c | Settled(w, c) ensures Settled(v, c) {
    }
    if a.Recover? {
      assert Settled(v, w.ledger.journal[a.key].claim);
    }
    forall b | 0 <= b < |v.batches| ensures Staged(v.ledger, b, v.batches[b], v.handlers[b]) {
      assert Staged(w.ledger, b, w.batches[b], w.handlers[b]);
    }
  }

  lemma NextInv(w: World, a: Action)
    requires Inv(w) && Enabled(w, a)
    ensures Inv(Apply(w, a))
  {
    if a.Deliver? {
      AcceptInv(w, a);
    } else if OfHandler(a) {
      HandlerInv(w, a);
    } else if OfFlusher(a) {
      FlusherInv(w, a);
    } else {
      RestartInv(w, a);
    }
  }

  lemma {:induction false} RunInv(h: History)
    ensures Inv(After(h))
  {
    if h.Then? {
      RunInv(h.past);
      if Enabled(After(h.past), h.action) {
        NextInv(After(h.past), h.action);
      }
    }
  }

  // ---------------------------------------------------------------------------------------------
  // When a result goes missing
  // ---------------------------------------------------------------------------------------------

  /** The step takes away what waits in the outbox under `key`: another result is stored there, by a handler
      or by recovery, or the flusher removes it. */
  predicate Displaces(w: World, a: Action, key: Key)
    requires Enabled(w, a)
  {
    || (a.Complete? && a.ok && Standing(w, a.batch).key == key)
    || (a.Recover? && a.key == key)
    || (a.Remove? && a.ok && w.flusher.claim.key == key)
  }

  /** The step takes away the journal record under `key`: a handler stored or published a result of it. */
  predicate TakesRecord(w: World, a: Action, key: Key)
    requires Enabled(w, a)
  {
    (a.Complete? || a.Clear?) && a.ok && Standing(w, a.batch).key == key
  }

  /** The step takes away the only thing left of `c`: a live handler that crashes or fails to publish, what
      the flusher holds, an unpublished outbox entry, or a journal record. */
  predicate Misses(w: World, a: Action, c: Claim) {
    && Enabled(w, a)
    && (|| (Held(w, c) && !Somewhere(w.ledger, c) && (a.Crash? || (a.Publish? && !a.ok && Standing(w, a.batch) == c)))
        || (InHand(w, c) && !Somewhere(w.ledger, c) && (a.Crash? || a.GiveUp? || (a.Send? && !a.ok)))
        || (!InHand(w, c) && OnlyInOutbox(w.ledger, c) && Displaces(w, a, c.key))
        || (!Held(w, c) && OnlyInJournal(w.ledger, c) && TakesRecord(w, a, c.key)))
  }

  /** A result in the outbox or in the flusher's hand is not awaited any more. */
  ghost predicate Exclusive(w: World, c: Claim) {
    InHand(w, c) || InOutbox(w.ledger, c) ==> !Held(w, c) && !InJournal(w.ledger, c)
  }

  lemma PlacesExclude(w: World, c: Claim)
    requires Inv(w)
    ensures Exclusive(w, c)
  {
  }

  ghost predicate FiledUnderKeys(l: Ledger) {
    forall key | key in l.outbox :: l.outbox[key].result.claim.key == key
  }

  lemma PruningMoves(l: Ledger, victims: set<Key>, c: Claim)
    requires FiledUnderKeys(l)
    ensures var m := Pruned(l, victims);
            InOutbox(m, c) || c in m.pruned <==> InOutbox(l, c) || c in l.pruned
  {
  }

  /** Where a step of a handler that stands at `d` leaves another request, */
  lemma HandlerAndOther(l: Ledger, a: Action, d: Claim, c: Claim)
    requires OfHandler(a) && c != d && FiledUnderKeys(l)
    ensures var m := HandlerLedger(l, a, d);
            && (InJournal(m, c) <==> InJournal(l, c) && !((a.Complete? || a.Clear?) && a.ok && d.key == c.key))
            && (c in m.sent <==> c in l.sent)
            && (InOutbox(m, c) || c in m.pruned <==>
                  c in l.pruned || (InOutbox(l, c) && !(a.Complete? && a.ok && d.key == c.key)))
  {
    if a.Prune? {
      PruningMoves(l, a.victims, c);
    }
  }

  /** and `d` itself. */
  lemma HandlerAndOwn(l: Ledger, a: Action, d: Claim)
    requires OfHandler(a) && FiledUnderKeys(l)
    ensures var m := HandlerLedger(l, a, d);
            && (InJournal(m, d) <==> InJournal(l, d) && !((a.Complete? || a.Clear?) && a.ok))
            && (d in m.sent <==> d in l.sent || (a.Publish? && a.ok))
            && (InOutbox(m, d) || d in m.pruned <==> d in l.pruned || InOutbox(l, d) || (a.Complete? && a.ok))
  {
    if a.Prune? {
      PruningMoves(l, a.victims, d);
    }
  }

  lemma HandlerHolds(w: World, a: Action)
    requires Inv(w) && OfHandler(a) && Enabled(w, a) && Standing(w, a.batch) in w.ledger.accepted
    ensures Held(Apply(w, a), Standing(w, a.batch))
            <==> a.Mark? || a.Execute? || (a.Complete? && !a.ok) || (a.Publish? && a.ok)
  {
    var d := HandlerFacts(w, a);
    assert Apply(w, a).handlers[a.batch] == Moved(w.handlers[a.batch], a, Durable);
  }

  lemma OwnMoves(w: World, v: World, a: Action, c: Claim)
    requires OfHandler(a) && Enabled(w, a) && c == Standing(w, a.batch) && Exclusive(w, c)
    requires Held(w, c) == !a.Prune? && InHand(v, c) == InHand(w, c)
    requires Held(v, c) <==> a.Mark? || a.Execute? || (a.Complete? && !a.ok) || (a.Publish? && a.ok)
    requires a.Clear? ==> c in w.ledger.sent
    requires InJournal(v.ledger, c) <==> InJournal(w.ledger, c) && !((a.Complete? || a.Clear?) && a.ok)
    requires c in v.ledger.sent <==> c in w.ledger.sent || (a.Publish? && a.ok)
    requires InOutbox(v.ledger, c) || c in v.ledger.pruned
             <==> c in w.ledger.pruned || InOutbox(w.ledger, c) || (a.Complete? && a.ok)
    ensures Present(v, c) <==> Present(w, c) && !Misses(w, a, c)
  {
  }

  lemma OtherMoves(w: World, v: World, a: Action, c: Claim)
    requires OfHandler(a) && Enabled(w, a) && c != Standing(w, a.batch) && Exclusive(w, c)
    requires Held(v, c) == Held(w, c) && InHand(v, c) == InHand(w, c)
    requires InJournal(v.ledger, c)
             <==> InJournal(w.ledger, c) && !((a.Complete? || a.Clear?) && a.ok && Standing(w, a.batch).key == c.key)
    requires c in v.ledger.sent <==> c in w.ledger.sent
    requires InOutbox(v.ledger, c) || c in v.ledger.pruned
             <==> c in w.ledger.pruned || (InOutbox(w.ledger, c) && !(a.Complete? && a.ok && Standing(w, a.batch).key == c.key))
    ensures Present(v, c) <==> Present(w, c) && !Misses(w, a, c)
  {
  }

  lemma HandlerMisses(w: World, a: Action, c: Claim)
    requires Inv(w) && c in w.ledger.accepted && OfHandler(a) && Enabled(w, a)
    ensures Present(Apply(w, a), c) <==> Present(w, c) && !Misses(w, a, c)
  {
    PlacesExclude(w, c);
    var d := HandlerFacts(w, a);
    if c == d {
      HandlerHolds(w, a);
      HandlerAndOwn(w.ledger, a, d);
      OwnMoves(w, Apply(w, a), a, c);
    } else {
      HandlerAndOther(w.ledger, a, d, c);
      OtherMoves(w, Apply(w, a), a, c);
    }
  }

  lemma FlusherPlaces(w: World, a: Action, c: Claim)
    requires Inv(w) && OfFlusher(a) && Enabled(w, a)
    ensures var v := Apply(w, a);
            && Held(v, c) == Held(w, c) && InJournal(v.ledger, c) == InJournal(w.ledger, c)
            && (c in v.ledger.pruned <==> c in w.ledger.pruned)
            && (c in v.ledger.sent <==> c in w.ledger.sent || (a.Send? && a.ok && InHand(w, c)))
            && (InOutbox(v.ledger, c) <==> InOutbox(w.ledger, c) && !(a.Remove? && a.ok && w.flusher.claim.key == c.key))
            && (InHand(v, c) ==> InOutbox(w.ledger, c))
            && (InHand(w, c) ==> a.Send? || a.GiveUp?)
            && (a.Remove? ==> !InHand(v, c))
  {
  }

  lemma FlusherMoves(w: World, v: World, a: Action, c: Claim)
    requires OfFlusher(a) && Enabled(w, a) && Exclusive(w, c)
    requires Held(v, c) == Held(w, c) && InJournal(v.ledger, c) == InJournal(w.ledger, c)
    requires c in v.ledger.pruned <==> c in w.ledger.pruned
    requires c in v.ledger.sent <==> c in w.ledger.sent || (a.Send? && a.ok && InHand(w, c))
    requires InOutbox(v.ledger, c) <==> InOutbox(w.ledger, c) && !(a.Remove? && a.ok && w.flusher.claim.key == c.key)
    requires InHand(v, c) ==> InOutbox(w.ledger, c)
    requires InHand(w, c) ==> a.Send? || a.GiveUp?
    requires a.Remove? ==> !InHand(v, c)
    ensures Present(v, c) <==> Present(w, c) && !Misses(w, a, c)
  {
  }

  lemma FlusherMisses(w: World, a: Action, c: Claim)
    requires Inv(w) && c in w.ledger.accepted && OfFlusher(a) && Enabled(w, a)
    ensures Present(Apply(w, a), c) <==> Present(w, c) && !Misses(w, a, c)
  {
    PlacesExclude(w, c);
    FlusherPlaces(w, a, c);
    FlusherMoves(w, Apply(w, a), a, c);
  }

  lemma RecoverPlaces(w: World, a: Action, c: Claim)
    requires Inv(w) && a.Recover? && Enabled(w, a)
    ensures var l, m := w.ledger, Apply(w, a).ledger;
            && (InJournal(m, c) <==> InJournal(l, c) && c.key != a.key)
            && m.sent == l.sent && m.pruned == l.pruned
            && (InOutbox(m, c) <==> if c.key == a.key then InJournal(l, c) else InOutbox(l, c))
  {
  }

  lemma RecoverMisses(w: World, a: Action, c: Claim)
    requires Inv(w) && c in w.ledger.accepted && a.Recover? && Enabled(w, a)
    ensures Present(Apply(w, a), c) <==> Present(w, c) && !Misses(w, a, c)
  {
    PlacesExclude(w, c);
    RecoverPlaces(w, a, c);
    assert Held(Apply(w, a), c) == Held(w, c) && InHand(Apply(w, a), c) == InHand(w, c);
  }

  lemma PruneMisses(w: World, a: Action, c: Claim)
    requires FiledUnderKeys(w.ledger) && a.RecoverPrune? && Enabled(w, a)
    ensures Present(Apply(w, a), c) <==> Present(w, c) && !Misses(w, a, c)
  {
    PruningMoves(w.ledger, a.victims, c);
  }

  lemma CrashMisses(w: World, c: Claim)
    ensures Present(Apply(w, Crash), c) <==> Present(w, c) && !Misses(w, Crash, c)
  {
  }

  lemma RestartMisses(w: World, a: Action, c: Claim)
    requires Inv(w) && c in w.ledger.accepted && Enabled(w, a) && !OfFlusher(a) && !OfHandler(a) && !a.Deliver?
    ensures Present(Apply(w, a), c) <==> Present(w, c) && !Misses(w, a, c)
  {
    if a.Recover? {
      RecoverMisses(w, a, c);
    } else if a.RecoverPrune? {
      PruneMisses(w, a, c);
    } else if a.Crash? {
      CrashMisses(w, c);
    }
  }

  lemma AcceptMisses(w: World, a: Action, c: Claim)
    requires Inv(w) && a.Deliver? && Enabled(w, a) && c in Apply(w, a).ledger.accepted
    ensures if c in w.ledger.accepted then Present(Apply(w, a), c) == Present(w, c) && !Misses(w, a, c)
            else Present(Apply(w, a), c)
  {
    AcceptInv(w, a);
    assert Apply(w, a).ledger.outbox == w.ledger.outbox;
  }

  lemma StepMisses(w: World, a: Action, c: Claim)
    requires Inv(w) && Enabled(w, a) && c in w.ledger.accepted
    ensures Present(Apply(w, a), c) <==> Present(w, c) && !Misses(w, a, c)
    ensures c in Apply(w, a).ledger.accepted
  {
    if a.Deliver? {
      AcceptMisses(w, a, c);
      AcceptInv(w, a);
    } else if OfHandler(a) {
      HandlerMisses(w, a, c);
      var d := HandlerFacts(w, a);
      HandlerLedgerFacts(w.ledger, a, d);
    } else if OfFlusher(a) {
      FlusherMisses(w, a, c);
    } else {
      RestartMisses(w, a, c);
    }
  }

  /** Some step of the run took away the last thing left of `c`. */
  ghost predicate WentMissing(h: History, c: Claim) {
    h.Then? && (WentMissing(h.past, c) || (c in After(h.past).ledger.accepted && Misses(After(h.past), h.action, c)))
  }

  lemma AcceptsWhatIsNew(w: World, a: Action, c: Claim)
    requires Inv(w) && Enabled(w, a) && c in Apply(w, a).ledger.accepted && c !in w.ledger.accepted
    ensures a.Deliver?
  {
    if OfHandler(a) {
      var d := HandlerFacts(w, a);
      HandlerLedgerFacts(w.ledger, a, d);
    }
  }

  lemma {:induction false} NeverMissed(h: History, c: Claim)
    requires c !in After(h).ledger.accepted
    ensures !WentMissing(h, c)
  {
    if h.Then? {
      RunInv(h.past);
      if c in After(h.past).ledger.accepted && Enabled(After(h.past), h.action) {
        StepMisses(After(h.past), h.action, c);
      }
      NeverMissed(h.past, c);
    }
  }

  /** In every run, crashes included and whatever is named twice or delivered again: the result of a request
      of a journalled batch is awaited by a live handler, covered by the journal, in the outbox or the
      flusher's hand, published or pruned, exactly if no step of the run was one that takes away the last of
      these. */
  lemma {:induction false} NoResultIsForgotten(h: History, c: Claim)
    requires c in After(h).ledger.accepted
    ensures Present(After(h), c) <==> !WentMissing(h, c)
  {
    if h.Then? {
      var w := After(h.past);
      RunInv(h.past);
      if Enabled(w, h.action) {
        if c in w.ledger.accepted {
          NoResultIsForgotten(h.past, c);
          StepMisses(w, h.action, c);
        } else {
          AcceptsWhatIsNew(w, h.action, c);
          AcceptMisses(w, h.action, c);
          NeverMissed(h.past, c);
        }
      } else {
        NoResultIsForgotten(h.past, c);
      }
    }
  }

  // ---------------------------------------------------------------------------------------------
  // Requests that share their key with no other
  // ---------------------------------------------------------------------------------------------

  ghost predicate Kept(w: World, c: Claim) {
    Somewhere(w.ledger, c) && (Held(w, c) ==> InJournal(w.ledger, c))
  }

  lemma HandlerKeeps(w: World, a: Action, c: Claim)
    requires Inv(w) && OfHandler(a) && Enabled(w, a)
    requires c in w.ledger.accepted && Uncontested(w.ledger, c) && Kept(w, c)
    ensures Kept(Apply(w, a), c)
  {
    PlacesExclude(w, c);
    var d := HandlerFacts(w, a);
    if c == d {
      HandlerHolds(w, a);
      HandlerAndOwn(w.ledger, a, d);
    } else {
      HandlerAndOther(w.ledger, a, d, c);
    }
  }

  lemma FlusherKeeps(w: World, a: Action, c: Claim)
    requires Inv(w) && OfFlusher(a) && Enabled(w, a)
    requires c in w.ledger.accepted && Uncontested(w.ledger, c) && Kept(w, c)
    ensures Kept(Apply(w, a), c)
  {
    FlusherPlaces(w, a, c);
  }

  lemma RestartKeeps(w: World, a: Action, c: Claim)
    requires Inv(w) && Enabled(w, a) && !OfFlusher(a) && !OfHandler(a) && !a.Deliver?
    requires c in w.ledger.accepted && Uncontested(w.ledger, c) && Kept(w, c)
    ensures Kept(Apply(w, a), c)
  {
    if a.Recover? {
      RecoverPlaces(w, a, c);
    } else if a.RecoverPrune? {
      PruningMoves(w.ledger, a.victims, c);
    }
  }

  lemma AcceptKeeps(w: World, a: Action, c: Claim)
    requires Inv(w) && a.Deliver? && Enabled(w, a)
    requires c in Apply(w, a).ledger.accepted && Uncontested(Apply(w, a).ledger, c)
    requires c in w.ledger.accepted ==> Kept(w, c)
    ensures Kept(Apply(w, a), c)
  {
    AcceptInv(w, a);
    var l := Apply(w, a).ledger;
    if c !in w.ledger.accepted {
      var keys := Keys(a.execution, a.scripts);
      assert c == Claim(|w.batches|, c.index, keys[c.index]) && c.key in keys;
      assert l.journal[c.key].claim in l.accepted;
    }
  }

  lemma SameAccepted(w: World, a: Action)
    requires Inv(w) && Enabled(w, a) && !a.Deliver?
    ensures Apply(w, a).ledger.accepted == w.ledger.accepted
  {
    if OfHandler(a) {
      var d := HandlerFacts(w, a);
      HandlerLedgerFacts(w.ledger, a, d);
    }
  }

  /** A request whose key no other accepted request has: in every run its result is covered by the journal,
      in the outbox, published or pruned. */
  lemma {:induction false} UncontestedResultIsKept(h: History, c: Claim)
    requires c in After(h).ledger.accepted && Uncontested(After(h).ledger, c)
    ensures Kept(After(h), c)
  {
    if h.Then? {
      var w := After(h.past);
      RunInv(h.past);
      if Enabled(w, h.action) {
        if h.action.Deliver? {
          AcceptInv(w, h.action);
          if c in w.ledger.accepted {
            assert forall d | d in w.ledger.accepted :: d in After(h).ledger.accepted;
            UncontestedResultIsKept(h.past, c);
          }
          AcceptKeeps(w, h.action, c);
        } else {
          SameAccepted(w, h.action);
          UncontestedResultIsKept(h.past, c);
          if OfHandler(h.action) {
            HandlerKeeps(w, h.action, c);
          } else if OfFlusher(h.action) {
            FlusherKeeps(w, h.action, c);
          } else {
            RestartKeeps(w, h.action, c);
          }
        }
      } else {
        UncontestedResultIsKept(h.past, c);
      }
    }
  }

  /** When the journal is empty, nothing depends on it. */
  lemma KeptAfterRecovery(h: History)
    requires After(h).ledger.journal == map[]
    ensures var l := After(h).ledger;
            forall c | c in l.accepted && Uncontested(l, c) :: InOutbox(l, c) || c in l.sent || c in l.pruned
  {
    var l := After(h).ledger;
    forall c | c in l.accepted && Uncontested(l, c) ensures InOutbox(l, c) || c in l.sent || c in l.pruned {
      UncontestedResultIsKept(h, c);
    }
  }

  // ---------------------------------------------------------------------------------------------
  // Requests that name the same script in one batch
  // ---------------------------------------------------------------------------------------------

  /** Two requests of one accepted batch have the same key, `early` coming first. */
  predicate Twins(l: Ledger, early: Claim, late: Claim) {
    early in l.accepted && late in l.accepted && early.batch == late.batch && early.index < late.index && early.key == late.key
  }

  /** When the later of two such requests stores its result, the result of the earlier one is lost exactly if
      it still waits in the outbox unpublished, and not in the flusher's hand. */
  lemma EarlierTwinLostIff(h: History, a: Action, early: Claim, late: Claim)
    requires Twins(After(h).ledger, early, late)
    requires a.Complete? && a.ok && Enabled(After(h), a) && Standing(After(h), a.batch) == late
    requires Present(After(h), early)
    ensures !Present(After(Then(h, a)), early) <==> OnlyInOutbox(After(h).ledger, early) && !InHand(After(h), early)
  {
    RunInv(h);
    var w := After(h);
    StepMisses(w, a, early);
    assert !Held(w, early);
    assert !InJournal(w.ledger, early);
  }

  /** Storing the result of one takes the only record of the other. */
  lemma TwinsShareARecord(h: History, a: Action, c: Claim)
    requires a.Complete? && a.ok && Enabled(After(h), a)
    requires c.key == Standing(After(h), a.batch).key
    ensures !InJournal(After(Then(h, a)).ledger, c)
  {
    RunInv(h);
    var d := HandlerFacts(After(h), a);
    HandlerLedgerFacts(After(h).ledger, a, d);
  }

  /** A record that is gone does not come back. */
  lemma RecordsDoNotReturn(h: History, a: Action, c: Claim)
    requires c in After(h).ledger.accepted && !InJournal(After(h).ledger, c)
    ensures c in After(Then(h, a)).ledger.accepted && !InJournal(After(Then(h, a)).ledger, c)
  {
    var w := After(h);
    RunInv(h);
    if Enabled(w, a) {
      if OfHandler(a) {
        var d := HandlerFacts(w, a);
        HandlerLedgerFacts(w.ledger, a, d);
      } else if a.Deliver? {
        AcceptInv(w, a);
      }
    }
  }

  /** So the later one runs without a record: until its handler is done its result goes missing exactly by a
      crash, or if it can neither be stored nor published. */
  lemma LaterTwinLostIff(h: History, a: Action, late: Claim)
    requires late in After(h).ledger.accepted && Held(After(h), late) && !Somewhere(After(h).ledger, late)
    ensures !Present(After(Then(h, a)), late)
            <==> a.Crash? || (Enabled(After(h), a) && a.Publish? && !a.ok && Standing(After(h), a.batch) == late)
  {
    RunInv(h);
    PlacesExclude(After(h), late);
    if Enabled(After(h), a) {
      StepMisses(After(h), a, late);
    }
  }

  /** Pruning drops results only from an outbox over its cap, and leaves the newest 500. */
  lemma PruningKeepsNewest(w: World, a: Action, c: Claim)
    requires c in Next(w, a).ledger.pruned && c !in w.ledger.pruned
    ensures var before, after := w.ledger.outbox, Next(w, a).ledger.outbox;
            && |before| > 500 && |after| == 500
            && (forall k | k in after :: k in before && after[k] == before[k])
            && (forall k, l | k in before.Keys - after.Keys && l in after :: before[k].created <= before[l].created)
  {
    var before, after := w.ledger.outbox, Next(w, a).ledger.outbox;
    assert a.Prune? || a.RecoverPrune?;
    assert after == before - a.victims;
    assert after.Keys == before.Keys - a.victims;
    assert |before.Keys| == |after.Keys| + |a.victims|;
  }

  // ---------------------------------------------------------------------------------------------
  // Which messages are skipped
  // ---------------------------------------------------------------------------------------------

  /** `text` is `execution`, or `execution` followed by a colon and more. */
  predicate Names(text: string, execution: string) {
    || text == execution
    || (|text| > |execution| && text[..|execution|] == execution && text[|execution|] == ':')
  }

  lemma NamesIsBelongsTo(execution: string, key: Key)
    ensures BelongsTo(execution, key) <==> Names(key.text, execution)
  {
    if |key.text| > |execution| && key.text[..|execution|] == execution && key.text[|execution|] == ':' {
      assert key.text[..|execution| + 1] == execution + ":";
    }
  }

  /** A message that reaches the journal is skipped exactly if a record is there under its execution, or under
      its execution followed by a colon and more; otherwise its batch is accepted. */
  lemma SkippedExactlyInFlight(h: History, execution: string, scripts: seq<Option<string>>)
    requires After(h).serving
    ensures var w, v := After(h), After(Then(h, Deliver(execution, scripts, true)));
            && |v.batches| == |w.batches| + 1
            && v.batches[|w.batches|].mode ==
                 if exists key | key in w.ledger.journal :: Names(key.text, execution) then Skipped else Durable
  {
    forall key ensures BelongsTo(execution, key) <==> Names(key.text, execution) {
      NamesIsBelongsTo(execution, key);
    }
  }

  /** The message brings a request whose key is its execution, followed by a colon and the script if there is
      one. */
  predicate Brings(a: Action, key: Key) {
    && a.Deliver? && a.journalled
    && exists script | script in a.scripts ::
         key.text == a.execution + if script.Some? then ":" + script.value else ""
  }

  /** A message of the run brought a request that is filed under `key`. */
  predicate Delivered(h: History, key: Key) {
    h.Then? && (Delivered(h.past, key) || Brings(h.action, key))
  }

  lemma KeyText(execution: string, script: Option<string>)
    ensures EntryKey(execution, script).text == execution + if script.Some? then ":" + script.value else ""
  {
    assert execution + "" == execution;
  }

  lemma KeyIsBrought(a: Action, key: Key)
    requires a.Deliver? && a.journalled && key in Keys(a.execution, a.scripts)
    ensures Brings(a, key)
  {
    var keys := Keys(a.execution, a.scripts);
    var i :| 0 <= i < |keys| && keys[i] == key;
    KeyText(a.execution, a.scripts[i]);
    assert a.scripts[i] in a.scripts;
  }

  lemma NewKeyIsDelivered(w: World, a: Action, key: Key)
    requires Inv(w) && Enabled(w, a)
    ensures key in Apply(w, a).ledger.journal && key !in w.ledger.journal ==> Brings(a, key)
  {
    if OfHandler(a) {
      var d := HandlerFacts(w, a);
      HandlerLedgerFacts(w.ledger, a, d);
    } else if a.Deliver? && a.journalled && key in Keys(a.execution, a.scripts) {
      KeyIsBrought(a, key);
    }
  }

  lemma {:induction false} JournalFromMessages(h: History)
    ensures forall key | key in After(h).ledger.journal :: Delivered(h, key)
  {
    if h.Then? {
      var w, v := After(h.past), After(h);
      JournalFromMessages(h.past);
      RunInv(h.past);
      forall key | key in v.ledger.journal ensures Delivered(h, key) {
        if Enabled(w, h.action) {
          NewKeyIsDelivered(w, h.action, key);
        }
      }
    }
  }

  /** So, in every run: a message is skipped only if an earlier one brought a request that is still in the
      journal, of the same execution or of one whose name continues this one's after a colon. */
  lemma SkippedOnlyForAnEarlierMessage(h: History, execution: string, scripts: seq<Option<string>>) returns (key: Key)
    requires After(h).serving
    requires var v := After(Then(h, Deliver(execution, scripts, true)));
             |v.batches| > |After(h).batches| && v.batches[|After(h).batches|].mode == Skipped
    ensures key in After(h).ledger.journal && Delivered(h, key) && Names(key.text, execution)
  {
    SkippedExactlyInFlight(h, execution, scripts);
    key :| key in After(h).ledger.journal && Names(key.text, execution);
    JournalFromMessages(h);
  }

  /** Requests of one execution share a key only if they name the same script. */
  lemma KeysOfDistinctScripts(execution: string, a: Option<string>, b: Option<string>)
    ensures EntryKey(execution, a) == EntryKey(execution, b) <==> a == b
  {
    KeyText(execution, a);
    KeyText(execution, b);
    if EntryKey(execution, a) == EntryKey(execution, b) {
      var text := EntryKey(execution, a).text;
      assert a.Some? ==> text[|execution| + 1..] == a.value;
      assert b.Some? ==> text[|execution| + 1..] == b.value;
    }
  }

  // ---------------------------------------------------------------------------------------------
  // Entries are dated when they are stored
  // ---------------------------------------------------------------------------------------------

  /** A step of the run stored this result at this time. */
  ghost predicate StoredThen(h: History, key: Key, entry: Entry) {
    h.Then? &&
      (|| StoredThen(h.past, key, entry)
       || (h.action.Complete? && h.action.ok && h.action.now == entry.created && entry.result.report == Ran)
       || (h.action.Recover? && h.action.key == key && h.action.now == entry.created && entry.result.report != Ran))
  }

  lemma NewEntryIsDated(w: World, a: Action, key: Key)
    requires Inv(w) && Enabled(w, a) && key in Apply(w, a).ledger.outbox
    requires !(key in w.ledger.outbox && Apply(w, a).ledger.outbox[key] == w.ledger.outbox[key])
    ensures var entry := Apply(w, a).ledger.outbox[key];
            || (a.Complete? && a.ok && a.now == entry.created && entry.result.report == Ran)
            || (a.Recover? && a.key == key && a.now == entry.created && entry.result.report != Ran)
  {
    if OfHandler(a) {
      var d := HandlerFacts(w, a);
      HandlerLedgerFacts(w.ledger, a, d);
    } else if OfFlusher(a) {
      FlusherFacts(w, a);
    }
  }

  lemma {:induction false} EntriesAreDated(h: History)
    ensures forall key | key in After(h).ledger.outbox :: StoredThen(h, key, After(h).ledger.outbox[key])
  {
    if h.Then? {
      var w, v := After(h.past), After(h);
      EntriesAreDated(h.past);
      RunInv(h.past);
      forall key | key in v.ledger.outbox ensures StoredThen(h, key, v.ledger.outbox[key]) {
        if Enabled(w, h.action) && !(key in w.ledger.outbox && v.ledger.outbox[key] == w.ledger.outbox[key]) {
          NewEntryIsDated(w, h.action, key);
        }
      }
    }
  }

  // ---------------------------------------------------------------------------------------------
  // What the bookkeeping means
  // ---------------------------------------------------------------------------------------------

  /** A publication of the run that succeeded was of this result. */
  ghost predicate WasPublished(h: History, r: Result) {
    h.Then? &&
      (|| WasPublished(h.past, r)
       || (Enabled(After(h.past), h.action) && h.action.Publish? && h.action.ok
           && r == Result(Standing(After(h.past), h.action.batch), Ran))
       || (Enabled(After(h.past), h.action) && h.action.Send? && h.action.ok && r == After(h.past).flusher.result))
  }

  /** A marking of the run that failed was of this request. */
  ghost predicate MarkFailed(h: History, c: Claim) {
    h.Then? &&
      (|| MarkFailed(h.past, c)
       || (Enabled(After(h.past), h.action) && h.action.Mark? && !h.action.ok && c == Standing(After(h.past), h.action.batch)))
  }

  lemma PublishedByHandler(w: World, a: Action)
    requires Enabled(w, a) && OfHandler(a)
    ensures Apply(w, a).published == if a.Publish? && a.ok then w.published + {Result(Standing(w, a.batch), Ran)} else w.published
    ensures Apply(w, a).ledger.sent == if a.Publish? && a.ok then w.ledger.sent + {Standing(w, a.batch)} else w.ledger.sent
    ensures Apply(w, a).unmarked == if a.Mark? && !a.ok then w.unmarked + {Standing(w, a.batch)} else w.unmarked
  {
  }

  lemma PublishedByOthers(w: World, a: Action)
    requires Enabled(w, a) && !OfHandler(a)
    ensures Apply(w, a).published == if a.Send? && a.ok then w.published + {w.flusher.result} else w.published
    ensures Apply(w, a).ledger.sent == if a.Send? && a.ok then w.ledger.sent + {w.flusher.result.claim} else w.ledger.sent
    ensures Apply(w, a).unmarked == w.unmarked
  {
  }

  lemma PublishedStep(w: World, a: Action)
    requires Enabled(w, a)
    ensures Apply(w, a).published ==
              if a.Publish? && a.ok then w.published + {Result(Standing(w, a.batch), Ran)}
              else if a.Send? && a.ok then w.published + {w.flusher.result}
              else w.published
    ensures Apply(w, a).ledger.sent ==
              if a.Publish? && a.ok then w.ledger.sent + {Standing(w, a.batch)}
              else if a.Send? && a.ok then w.ledger.sent + {w.flusher.result.claim}
              else w.ledger.sent
    ensures Apply(w, a).unmarked == if a.Mark? && !a.ok then w.unmarked + {Standing(w, a.batch)} else w.unmarked
  {
    if OfHandler(a) {
      PublishedByHandler(w, a);
    } else {
      PublishedByOthers(w, a);
    }
  }

  lemma SentStep(w: World, a: Action)
    requires Enabled(w, a)
    requires forall c :: c in w.ledger.sent <==> exists r :: r in w.published && r.claim == c
    ensures forall c :: c in Apply(w, a).ledger.sent <==> exists r :: r in Apply(w, a).published && r.claim == c
  {
    var v := Apply(w, a);
    PublishedStep(w, a);
    assert w.published <= v.published;
    forall c | c in v.ledger.sent ensures exists r :: r in v.published && r.claim == c {
      if c in w.ledger.sent {
        var r :| r in w.published && r.claim == c;
        assert r in v.published;
      } else if a.Publish? {
        assert Result(Standing(w, a.batch), Ran) in v.published;
      } else {
        assert w.flusher.result in v.published;
      }
    }
  }

  /** Published are exactly the results of the publications that succeeded, by handlers and by the flusher;
      sent are the requests with such a result; and unmarked those whose marking failed. */
  lemma {:induction false} BookkeepingIsOfTheRun(h: History)
    ensures forall r :: r in After(h).published <==> WasPublished(h, r)
    ensures forall c :: c in After(h).ledger.sent <==> exists r :: r in After(h).published && r.claim == c
    ensures forall c :: c in After(h).unmarked <==> MarkFailed(h, c)
  {
    if h.Then? {
      var w, v := After(h.past), After(h);
      BookkeepingIsOfTheRun(h.past);
      if Enabled(w, h.action) {
        PublishedStep(w, h.action);
        SentStep(w, h.action);
      }
    }
  }

  // ---------------------------------------------------------------------------------------------
  // Every request runs once, in order
  // ---------------------------------------------------------------------------------------------

  /** The requests of a batch that were run, in the order they were. */
  function RunOf(ran: seq<Claim>, b: nat): seq<nat> {
    if ran == [] then []
    else
      var last := ran[|ran| - 1];
      RunOf(ran[..|ran| - 1], b) + if last.batch == b then [last.index] else []
  }

  /** Each of the first `n` requests once, in order. */
  function InTurn(n: nat): seq<nat> {
    seq(n, i => i)
  }

  lemma RunOfSnoc(ran: seq<Claim>, c: Claim, b: nat)
    ensures RunOf(ran + [c], b) == RunOf(ran, b) + if c.batch == b then [c.index] else []
  {
    assert (ran + [c])[..|ran|] == ran;
  }

  ghost predicate InOrder(w: World) {
    && |w.handlers| == |w.batches|
    && (forall b :: 0 <= b < |w.batches| ==>
          && w.handlers[b].Executed() <= |w.batches[b].keys|
          && (w.batches[b].mode == Skipped ==> w.handlers[b].Executed() == 0)
          && RunOf(w.ran, b) == InTurn(w.handlers[b].Executed()))
    && (forall b: nat :: b >= |w.batches| ==> RunOf(w.ran, b) == [])
  }

  lemma HandlerInOrder(w: World, a: Action)
    requires InOrder(w) && OfHandler(a) && Enabled(w, a)
    ensures InOrder(Apply(w, a))
  {
    var v := Apply(w, a);
    var h := w.handlers[a.batch];
    forall b: nat
      ensures RunOf(v.ran, b) == RunOf(w.ran, b) + if a.Execute? && b == a.batch then [h.next] else []
    {
      if a.Execute? {
        RunOfSnoc(w.ran, Standing(w, a.batch), b);
      }
    }
    forall b | 0 <= b < |v.batches|
      ensures v.handlers[b].Executed() <= |v.batches[b].keys|
      ensures v.batches[b].mode == Skipped ==> v.handlers[b].Executed() == 0
      ensures RunOf(v.ran, b) == InTurn(v.handlers[b].Executed())
    {
      assert RunOf(w.ran, b) == InTurn(w.handlers[b].Executed());
    }
  }

  /** In every run, for whatever failures, crashes and interleavings, and also when the same script is
      named twice: what ran of each batch is the batch's own first requests, each once and in order; of
      a skipped batch it is nothing. */
  lemma {:induction false} RunsInOrder(h: History)
    ensures InOrder(After(h))
  {
    if h.Then? {
      RunsInOrder(h.past);
      var w := After(h.past);
      if Enabled(w, h.action) {
        if OfHandler(h.action) {
          HandlerInOrder(w, h.action);
        } else {
          assert Apply(w, h.action).ran == w.ran;
          assert w.batches <= Apply(w, h.action).batches;
        }
      }
    }
  }

  // ---------------------------------------------------------------------------------------------
  // What a stored result says is true
  // ---------------------------------------------------------------------------------------------

  predicate HasBegun(w: World, d: Claim) {
    d.batch < |w.handlers| && d.index < w.handlers[d.batch].Begun()
  }

  /** Some accepted request under the key may have been executed, or been under way. */
  ghost predicate SomeBegun(w: World, key: Key) {
    exists d :: d in w.ledger.accepted && d.key == key && HasBegun(w, d)
  }

  /** No request of the batch under the key has begun, unless marking it as started had failed. */
  ghost predicate NoneBegun(w: World, b: nat, key: Key) {
    forall d | d in w.ledger.accepted :: d.batch == b && d.key == key ==> d in w.unmarked || !HasBegun(w, d)
  }

  /** `Ran` is said only of a request that was executed, `Interrupted` only if one under its key may have been,
      and `NotExecuted` only if none of its batch was, unless marking it had failed. */
  ghost predicate Truthful(w: World, r: Result) {
    && r.claim.batch < |w.handlers|
    && (r.report == Ran ==> r.claim.index < w.handlers[r.claim.batch].Executed())
    && (r.report == Interrupted ==> SomeBegun(w, r.claim.key))
    && (r.report == NotExecuted ==> NoneBegun(w, r.claim.batch, r.claim.key))
    && (r.report != Ran ==> !w.handlers[r.claim.batch].alive)
  }

  ghost predicate MarkedRight(w: World, record: Record) {
    && (record.started ==> SomeBegun(w, record.claim.key))
    && (!record.started ==> NoneBegun(w, record.claim.batch, record.claim.key))
  }

  ghost predicate ResultsTrue(w: World) {
    && (forall r | r in w.published :: Truthful(w, r))
    && (forall key | key in w.ledger.outbox :: Truthful(w, w.ledger.outbox[key].result))
    && (w.flusher.Holding? ==> Truthful(w, w.flusher.result))
  }

  ghost predicate JournalTrue(w: World) {
    forall key | key in w.ledger.journal :: MarkedRight(w, w.ledger.journal[key])
  }

  /** Handlers only advance, and only while they live; batches that come are new. */
  ghost predicate Advances(w: World, v: World) {
    && |w.handlers| <= |v.handlers| && w.unmarked <= v.unmarked && w.ledger.accepted <= v.ledger.accepted
    && (forall c | c in v.ledger.accepted :: c in w.ledger.accepted || c.batch >= |w.handlers|)
    && forall b :: 0 <= b < |w.handlers| ==>
         && (v.handlers[b].alive ==> w.handlers[b].alive)
         && (!w.handlers[b].alive ==> v.handlers[b] == w.handlers[b])
         && w.handlers[b].Executed() <= v.handlers[b].Executed()
         && w.handlers[b].Begun() <= v.handlers[b].Begun()
  }

  lemma SomeBegunStays(w: World, v: World, key: Key)
    requires Advances(w, v) && SomeBegun(w, key)
    ensures SomeBegun(v, key)
  {
    var d :| d in w.ledger.accepted && d.key == key && HasBegun(w, d);
    assert HasBegun(v, d);
  }

  lemma StayTruthful(w: World, v: World)
    requires Advances(w, v)
    ensures forall r :: Truthful(w, r) ==> Truthful(v, r)
  {
    forall r | Truthful(w, r) ensures Truthful(v, r) {
      if r.report == Interrupted {
        SomeBegunStays(w, v, r.claim.key);
      }
    }
  }

  lemma HandlerAdvances(w: World, a: Action)
    requires Inv(w) && OfHandler(a) && Enabled(w, a)
    ensures Advances(w, Apply(w, a))
  {
    var d := HandlerFacts(w, a);
    HandlerLedgerFacts(w.ledger, a, d);
  }

  lemma HandlerResults(w: World, a: Action)
    requires Inv(w) && ResultsTrue(w) && OfHandler(a) && Enabled(w, a)
    ensures ResultsTrue(Apply(w, a))
  {
    var v, b := Apply(w, a), a.batch;
    var d := HandlerFacts(w, a);
    HandlerLedgerFacts(w.ledger, a, d);
    HandlerAdvances(w, a);
    StayTruthful(w, v);
    if a.Complete? || a.Publish? {
      assert v.handlers[b].Executed() == d.index + 1;
      assert Truthful(v, Result(d, Ran));
    }
  }

  lemma BegunByMarking(w: World, a: Action, b: nat, key: Key)
    requires Inv(w) && a.Mark? && Enabled(w, a) && NoneBegun(w, b, key)
    requires key != Standing(w, a.batch).key || !a.ok
    ensures NoneBegun(Apply(w, a), b, key)
  {
    var v := Apply(w, a);
    var d := HandlerFacts(w, a);
    forall c | c in v.ledger.accepted && c.batch == b && c.key == key ensures c in v.unmarked || !HasBegun(v, c) {
      assert c in w.unmarked || !HasBegun(w, c);
      if c.batch == a.batch && c.index == d.index {
        assert c == d;
      }
    }
  }

  /** Marking sets the record's flag, or is known to have failed. */
  lemma MarkMarks(w: World, a: Action)
    requires Inv(w) && JournalTrue(w) && a.Mark? && Enabled(w, a)
    ensures JournalTrue(Apply(w, a))
  {
    var v := Apply(w, a);
    var d := HandlerFacts(w, a);
    HandlerAdvances(w, a);
    assert HasBegun(v, d);
    forall key | key in v.ledger.journal ensures MarkedRight(v, v.ledger.journal[key]) {
      var record := w.ledger.journal[key];
      assert MarkedRight(w, record);
      if record.started {
        SomeBegunStays(w, v, record.claim.key);
      } else if key != d.key || !a.ok {
        BegunByMarking(w, a, record.claim.batch, record.claim.key);
      } else {
        assert SomeBegun(v, key);
      }
    }
  }

  lemma HandlerMarks(w: World, a: Action)
    requires Inv(w) && JournalTrue(w) && OfHandler(a) && !a.Mark? && Enabled(w, a)
    ensures JournalTrue(Apply(w, a))
  {
    var v, b := Apply(w, a), a.batch;
    var d := HandlerFacts(w, a);
    HandlerLedgerFacts(w.ledger, a, d);
    HandlerAdvances(w, a);
    assert w.batches[b].mode == Durable ==> v.handlers[b].Begun() == w.handlers[b].Begun();
    forall key | key in v.ledger.journal ensures MarkedRight(v, v.ledger.journal[key]) {
      var record := w.ledger.journal[key];
      assert v.ledger.journal[key] == record && MarkedRight(w, record);
      if record.started {
        SomeBegunStays(w, v, record.claim.key);
      } else {
        assert forall c | c in v.ledger.accepted :: HasBegun(v, c) == HasBegun(w, c);
      }
    }
  }

  lemma AcceptAdvances(w: World, a: Action)
    requires Inv(w) && a.Deliver? && Enabled(w, a)
    ensures var v := Apply(w, a);
            && Advances(w, v)
            && (forall c | c in v.ledger.accepted :: HasBegun(v, c) == (c in w.ledger.accepted && HasBegun(w, c)))
            && (forall c | c in v.ledger.accepted && c !in w.ledger.accepted :: c.batch == |w.batches|)
  {
    AcceptInv(w, a);
  }

  lemma AcceptLeaves(w: World, a: Action)
    requires Inv(w) && a.Deliver? && Enabled(w, a)
    ensures var v := Apply(w, a);
            && v.published == w.published && v.ledger.outbox == w.ledger.outbox && v.flusher == w.flusher && v.unmarked == w.unmarked
            && (forall key | key in v.ledger.journal ::
                  || (key in w.ledger.journal && v.ledger.journal[key] == w.ledger.journal[key])
                  || (v.ledger.journal[key].claim.batch == |w.batches| && !v.ledger.journal[key].started))
  {
  }

  lemma AcceptMarks(w: World, v: World, key: Key)
    requires JournalTrue(w) && Advances(w, v) && v.unmarked == w.unmarked && key in v.ledger.journal
    requires forall c | c in v.ledger.accepted :: HasBegun(v, c) == (c in w.ledger.accepted && HasBegun(w, c))
    requires forall c | c in v.ledger.accepted && c !in w.ledger.accepted :: c.batch == |w.batches|
    requires forall c | c in w.ledger.accepted :: c.batch < |w.batches|
    requires || (key in w.ledger.journal && v.ledger.journal[key] == w.ledger.journal[key])
             || (v.ledger.journal[key].claim.batch == |w.batches| && !v.ledger.journal[key].started)
    ensures MarkedRight(v, v.ledger.journal[key])
  {
    var record := v.ledger.journal[key];
    if key in w.ledger.journal && record == w.ledger.journal[key] {
      assert MarkedRight(w, record);
      if record.started {
        SomeBegunStays(w, v, record.claim.key);
      }
    }
  }

  lemma AcceptTruth(w: World, a: Action)
    requires Inv(w) && ResultsTrue(w) && JournalTrue(w) && a.Deliver? && Enabled(w, a)
    ensures ResultsTrue(Apply(w, a)) && JournalTrue(Apply(w, a))
  {
    var v := Apply(w, a);
    AcceptAdvances(w, a);
    AcceptLeaves(w, a);
    StayTruthful(w, v);
    forall key | key in v.ledger.journal ensures MarkedRight(v, v.ledger.journal[key]) {
      AcceptMarks(w, v, key);
    }
  }

  /** Steps that move no handler. */
  lemma StillMarkedRight(w: World, v: World)
    requires JournalTrue(w) && v.ledger.accepted == w.ledger.accepted && v.unmarked == w.unmarked
    requires |v.handlers| == |w.handlers|
    requires forall b :: 0 <= b < |w.handlers| ==> v.handlers[b].Begun() == w.handlers[b].Begun()
    requires forall key | key in v.ledger.journal :: key in w.ledger.journal && v.ledger.journal[key] == w.ledger.journal[key]
    ensures JournalTrue(v)
  {
    forall key | key in v.ledger.journal ensures MarkedRight(v, v.ledger.journal[key]) {
      var record := w.ledger.journal[key];
      assert MarkedRight(w, record);
      if record.started {
        var d :| d in w.ledger.accepted && d.key == record.claim.key && HasBegun(w, d);
        assert HasBegun(v, d);
      }
    }
  }

  lemma RecoverTruth(w: World, a: Action)
    requires Inv(w) && ResultsTrue(w) && JournalTrue(w) && a.Recover? && Enabled(w, a)
    ensures ResultsTrue(Apply(w, a)) && JournalTrue(Apply(w, a))
  {
    var v := Apply(w, a);
    StayTruthful(w, v);
    StillMarkedRight(w, v);
    var record := w.ledger.journal[a.key];
    assert MarkedRight(w, record);
    assert Truthful(w, v.ledger.outbox[a.key].result);
  }

  lemma FlusherTruth(w: World, a: Action)
    requires Inv(w) && ResultsTrue(w) && JournalTrue(w) && Enabled(w, a) && OfFlusher(a)
    ensures ResultsTrue(Apply(w, a)) && JournalTrue(Apply(w, a))
  {
    FlusherFacts(w, a);
    StayTruthful(w, Apply(w, a));
    StillMarkedRight(w, Apply(w, a));
  }

  lemma RestartTruth(w: World, a: Action)
    requires ResultsTrue(w) && JournalTrue(w) && Enabled(w, a)
    requires a.Crash? || a.RecoverPrune? || a.Serve?
    ensures ResultsTrue(Apply(w, a)) && JournalTrue(Apply(w, a))
  {
    StayTruthful(w, Apply(w, a));
    StillMarkedRight(w, Apply(w, a));
  }

  /** In every run, whatever is stored or published about a request is true. */
  lemma {:induction false} ResultsAreTrue(h: History)
    ensures ResultsTrue(After(h)) && JournalTrue(After(h))
  {
    if h.Then? {
      ResultsAreTrue(h.past);
      RunInv(h.past);
      var w := After(h.past);
      if Enabled(w, h.action) {
        if OfHandler(h.action) {
          HandlerResults(w, h.action);
          if h.action.Mark? {
            MarkMarks(w, h.action);
          } else {
            HandlerMarks(w, h.action);
          }
        } else if h.action.Deliver? {
          AcceptTruth(w, h.action);
        } else if h.action.Recover? {
          RecoverTruth(w, h.action);
        } else if OfFlusher(h.action) {
          FlusherTruth(w, h.action);
        } else {
          RestartTruth(w, h.action);
        }
      }
    }
  }

  /** Of a request that shares its key with no other, `Interrupted` is said only if it may itself have been
      executed, and `NotExecuted` only if it was not or marking it had failed. */
  lemma UncontestedReportsAreTrue(h: History, r: Result)
    requires r in After(h).published
    requires r.claim in After(h).ledger.accepted && Uncontested(After(h).ledger, r.claim)
    ensures r.report == Interrupted ==> HasBegun(After(h), r.claim)
    ensures r.report == NotExecuted ==> r.claim in After(h).unmarked || !HasBegun(After(h), r.claim)
  {
    ResultsAreTrue(h);
    assert Truthful(After(h), r);
  }

  // ---------------------------------------------------------------------------------------------
  // Losing a result without any failure
  // ---------------------------------------------------------------------------------------------

  lemma Take(h: History, a: Action) returns (v: History)
    requires Enabled(After(h), a)
    ensures v == Then(h, a) && After(v) == Apply(After(h), a)
  {
    v := Then(h, a);
  }

  predicate Succeeds(a: Action) {
    && ((a.Mark? || a.Complete? || a.Publish? || a.Clear? || a.Send? || a.Remove?) ==> a.ok)
    && (a.Deliver? ==> a.journalled) && !a.Crash? && !a.GiveUp?
  }

  /** `v` continues `h` without a failure. */
  predicate Smooth(h: History, v: History) {
    v == h || (v.Then? && Succeeds(v.action) && Smooth(h, v.past))
  }

  lemma {:induction false} SmoothThen(a: History, b: History, c: History)
    requires Smooth(a, b) && Smooth(b, c)
    ensures Smooth(a, c)
  {
    if c != b {
      SmoothThen(a, b, c.past);
    }
  }

  lemma PruningNothing(l: Ledger)
    ensures Pruned(l, {}) == l
  {
    assert l.outbox - {} == l.outbox;
  }

  /** The handler of batch `b` marks its next request and executes it. */
  lemma RunsNext(h: History, b: nat) returns (v: History)
    requires At(After(h), b, Marking) && After(h).batches[b].mode == Durable
    ensures Smooth(h, v)
    ensures var w, u := After(h), After(v);
            && u == w.(
                 ran := w.ran + [Standing(w, b)],
                 ledger := w.ledger.(journal := u.ledger.journal),
                 handlers := w.handlers[b := w.handlers[b].(stage := Completing)])
            && u.ledger.journal - {Standing(w, b).key} == w.ledger.journal - {Standing(w, b).key}
  {
    var task := After(h).handlers[b];
    v := Take(h, Mark(b, true));
    assert After(v).handlers == After(h).handlers[b := task.(stage := Executing)];
    v := Take(v, Execute(b));
    assert After(v).handlers == After(h).handlers[b := task.(stage := Completing)];
  }

  lemma CompletesNext(h: History, b: nat) returns (v: History)
    requires At(After(h), b, Completing)
    ensures Smooth(h, v)
    ensures var w := After(h);
            After(v) == w.(
              ledger := Store(w.ledger, Entry(Result(Standing(w, b), Ran), 0)),
              handlers := w.handlers[b := w.handlers[b].(stage := Pruning)])
  {
    v := Take(h, Complete(b, true, 0));
  }

  lemma PrunesNothing(h: History, b: nat) returns (v: History)
    requires At(After(h), b, Pruning) && After(h).batches[b].mode == Durable
    ensures Smooth(h, v)
    ensures var w := After(h);
            After(v) == w.(handlers := w.handlers[b := Handler(true, w.handlers[b].next + 1, Marking)])
  {
    PruningNothing(After(h).ledger);
    v := Take(h, Prune(b, {}));
  }

  /** It stores the result, and nothing is pruned. */
  lemma StoresNext(h: History, b: nat) returns (v: History)
    requires At(After(h), b, Completing) && After(h).batches[b].mode == Durable
    ensures Smooth(h, v)
    ensures var w := After(h);
            After(v) == w.(
              ledger := Store(w.ledger, Entry(Result(Standing(w, b), Ran), 0)),
              handlers := w.handlers[b := Handler(true, w.handlers[b].next + 1, Marking)])
  {
    var stored := CompletesNext(h, b);
    v := PrunesNothing(stored, b);
    SmoothThen(h, stored, v);
    assert After(v).handlers == After(h).handlers[b := Handler(true, After(h).handlers[b].next + 1, Marking)];
  }

  /** The handler of batch `b` runs a request and stores its result, undisturbed. */
  lemma OneRequest(h: History, b: nat) returns (v: History)
    requires At(After(h), b, Marking) && After(h).batches[b].mode == Durable
    ensures Smooth(h, v)
    ensures var w := After(h);
            After(v) == w.(
              ran := w.ran + [Standing(w, b)],
              ledger := Store(w.ledger, Entry(Result(Standing(w, b), Ran), 0)),
              handlers := w.handlers[b := Handler(true, w.handlers[b].next + 1, Marking)])
  {
    var w := After(h);
    var u := RunsNext(h, b);
    v := StoresNext(u, b);
    SmoothThen(h, u, v);
    assert After(v).handlers == w.handlers[b := Handler(true, w.handlers[b].next + 1, Marking)];
  }

  /** It runs the first `n` requests undisturbed: nothing is published or pruned meanwhile. */
  lemma {:induction false} Requests(h: History, b: nat, n: nat) returns (v: History)
    requires b < |After(h).batches| == |After(h).handlers| && After(h).batches[b].mode == Durable
    requires After(h).handlers[b] == Handler(true, 0, Marking) && n <= |After(h).batches[b].keys|
    ensures Smooth(h, v)
    ensures var w, u := After(h), After(v);
            && u.batches == w.batches && |u.handlers| == |w.handlers| && u.handlers[b] == Handler(true, n, Marking)
            && u.flusher == w.flusher && u.ledger.sent == w.ledger.sent && u.ledger.pruned == w.ledger.pruned
            && u.ledger.accepted == w.ledger.accepted && u.serving == w.serving
    decreases n
  {
    v := h;
    if n > 0 {
      var u := Requests(h, b, n - 1);
      v := OneRequest(u, b);
      SmoothThen(h, u, v);
    }
  }

  lemma Arrives(h: History, execution: string, scripts: seq<Option<string>>) returns (v: History)
    requires After(h).serving && !InFlight(After(h).ledger.journal, execution) && |After(h).batches| == |After(h).handlers|
    ensures Smooth(h, v)
    ensures var w, u, keys := After(h), After(v), Keys(execution, scripts);
            && u == w.(
                 ledger := Journalled(w.ledger, keys, |w.batches|),
                 batches := w.batches + [Batch(keys, Durable)],
                 handlers := w.handlers + [Handler(true, 0, Marking)])
            && forall i :: 0 <= i < |keys| ==> Claim(|w.batches|, i, keys[i]) in u.ledger.accepted
  {
    v := Take(h, Deliver(execution, scripts, true));
    assert After(v) == Accept(After(h), execution, Keys(execution, scripts), true);
  }

  /** A result that comes is nowhere once another one is stored under its key before it is published. */
  lemma Overwritten(h: History, early: Claim) returns (v: History)
    requires var w := After(h);
             && At(w, early.batch, Marking) && w.batches[early.batch].mode == Durable
             && early.index < w.handlers[early.batch].next && Standing(w, early.batch).key == early.key
             && early !in w.ledger.sent && early !in w.ledger.pruned && !InHand(w, early)
    ensures Smooth(h, v)
    ensures !Present(After(v), early)
    ensures var w, u := After(h), After(v);
            u.handlers == w.handlers[early.batch := Handler(true, w.handlers[early.batch].next + 1, Marking)]
            && u.ledger.accepted == w.ledger.accepted
  {
    v := OneRequest(h, early.batch);
  }

  /** Any batch that names a script twice loses the earlier result if it is run undisturbed: no call fails,
      nothing crashes, every request up to the later one runs, and the result is nowhere. */
  lemma TwinResultIsLost(h: History, execution: string, scripts: seq<Option<string>>, i: nat, j: nat) returns (v: History)
    requires After(h).serving && !InFlight(After(h).ledger.journal, execution)
    requires i < j < |scripts| && EntryKey(execution, scripts[i]) == EntryKey(execution, scripts[j])
    ensures Smooth(h, v)
    ensures var w, early := After(v), Claim(|After(h).batches|, i, EntryKey(execution, scripts[i]));
            && early in w.ledger.accepted && RunOf(w.ran, early.batch) == InTurn(j + 1)
            && !Present(w, early)
  {
    RunInv(h);
    var b := |After(h).batches|;
    var early := Claim(b, i, EntryKey(execution, scripts[i]));
    assert early !in After(h).ledger.sent && early !in After(h).ledger.pruned && early !in After(h).ledger.accepted;
    assert !InHand(After(h), early);
    var arrived := Arrives(h, execution, scripts);
    var run := Requests(arrived, b, j);
    v := Overwritten(run, early);
    SmoothThen(arrived, run, v);
    SmoothThen(h, arrived, v);
    RunsInOrder(v);
  }

  /** With one result in the outbox, the flusher gets as far as having published but not removed it. */
  lemma Publishes(h: History, c: Claim) returns (v: History)
    requires After(h).serving && After(h).flusher == Idle
    requires After(h).ledger.outbox == map[c.key := Entry(Result(c, Ran), 0)]
    ensures Smooth(h, v)
    ensures var w := After(h);
            After(v) == w.(
              flusher := Removing(c, {}),
              ledger := w.ledger.(sent := w.ledger.sent + {c}),
              published := w.published + {Result(c, Ran)})
  {
    var listed := Take(h, ListPending);
    assert After(listed).flusher.listed == {c} && Smooth(h, listed);
    var loaded := Take(listed, LoadPayload(c));
    assert After(loaded).flusher.listed == {} && Smooth(h, loaded);
    v := Take(loaded, Send(true));
  }

  lemma ArrivesX(h: History) returns (v: History)
    requires After(h).serving && After(h).ledger.journal == map[] && |After(h).batches| == |After(h).handlers|
    ensures Smooth(h, v)
    ensures var w, u, c := After(h), After(v), Claim(|After(h).batches|, 0, Key("x"));
            && u.serving && u.flusher == w.flusher && u.batches == w.batches + [Batch([c.key], Durable)]
            && u.handlers == w.handlers + [Handler(true, 0, Marking)] && c in u.ledger.accepted
            && u.ledger.journal.Keys == {c.key} && u.ledger.outbox == w.ledger.outbox
            && u.ledger.sent == w.ledger.sent && u.ledger.pruned == w.ledger.pruned && u.ran == w.ran
            && Standing(u, c.batch) == c
  {
    v := Arrives(h, "x", [None]);
    var keys := Keys("x", [None]);
    assert keys == [Key("x")];
    assert Claim(|After(h).batches|, 0, keys[0]) in After(v).ledger.accepted;
  }

  /** Its one request runs and its result is stored. */
  lemma RunsX(h: History, b: nat) returns (v: History)
    requires At(After(h), b, Marking) && After(h).batches[b].mode == Durable
    requires After(h).ledger.journal.Keys == {Standing(After(h), b).key}
    ensures Smooth(h, v)
    ensures var w, u, c := After(h), After(v), Standing(After(h), b);
            && u.serving == w.serving && u.flusher == w.flusher && u.batches == w.batches && |u.handlers| == |w.handlers|
            && u.handlers[b] == Handler(true, w.handlers[b].next + 1, Marking)
            && u.ledger.journal == map[] && u.ledger.outbox == w.ledger.outbox[c.key := Entry(Result(c, Ran), 0)]
            && u.ledger.sent == w.ledger.sent && u.ledger.pruned == w.ledger.pruned && u.ledger.accepted == w.ledger.accepted
            && u.ran == w.ran + [c]
  {
    v := OneRequest(h, b);
  }

  /** The first result is published but not removed when the batch is delivered again. */
  lemma RedeliveryStarts() returns (h: History)
    ensures Smooth(Start, h)
    ensures var c, w := Claim(0, 0, Key("x")), After(h);
            && w.serving && w.flusher == Removing(c, {}) && |w.batches| == |w.handlers| == 1
            && w.ledger.journal == map[] && w.ledger.sent == {c} && w.ledger.pruned == {}
  {
    var c := Claim(0, 0, Key("x"));
    var served := Take(Start, Serve);
    assert Smooth(Start, served);
    var arrived := ArrivesX(served);
    SmoothThen(Start, served, arrived);
    var stored := RunsX(arrived, 0);
    SmoothThen(Start, arrived, stored);
    h := Publishes(stored, c);
    SmoothThen(Start, stored, h);
  }

  /** The flusher publishes and removes what is listed, if every call succeeds: one entry. */
  lemma FlushesOne(h: History, c: Claim) returns (v: History)
    requires After(h).flusher.Pass? && c in After(h).flusher.listed
    requires InOutbox(After(h).ledger, c)
    ensures Smooth(h, v)
    ensures var w, u := After(h), After(v);
            && u.flusher == Pass(w.flusher.listed - {c}) && u.serving == w.serving
            && u.ledger.outbox == w.ledger.outbox - {c.key} && u.ledger.sent == w.ledger.sent + {c}
            && w.published + {w.ledger.outbox[c.key].result} == u.published
  {
    var loaded := Take(h, LoadPayload(c));
    assert Smooth(h, loaded);
    var sent := Take(loaded, Send(true));
    assert Smooth(h, sent);
    v := Take(sent, Remove(true));
  }

  function KeysOf(claims: set<Claim>): set<Key> {
    set c | c in claims :: c.key
  }

  lemma OthersWait(l: Ledger, m: Ledger, left: set<Claim>, c: Claim)
    requires c in left && m.outbox == l.outbox - {c.key}
    requires forall d | d in left :: InOutbox(l, d)
    ensures forall d | d in left - {c} :: InOutbox(m, d)
    ensures left == (left - {c}) + {c} && KeysOf(left) == KeysOf(left - {c}) + {c.key}
    ensures m.outbox - KeysOf(left - {c}) == l.outbox - KeysOf(left)
  {
    assert forall d | d in left - {c} :: d.key != c.key;
    assert KeysOf(left) == KeysOf(left - {c}) + {c.key};
  }

  /** A pass that is not disturbed. */
  lemma {:induction false} FlushesListed(h: History, left: set<Claim>) returns (v: History)
    requires After(h).flusher == Pass(left)
    requires forall c | c in left :: InOutbox(After(h).ledger, c)
    ensures Smooth(h, v)
    ensures var w, u := After(h), After(v);
            && u.flusher == Pass({}) && u.ledger.sent == w.ledger.sent + left
            && u.ledger.outbox == w.ledger.outbox - KeysOf(left)
    decreases |left|
  {
    v := h;
    if left == {} {
      assert After(h).ledger.outbox - KeysOf(left) == After(h).ledger.outbox;
    } else {
      var c :| c in left;
      var one := FlushesOne(h, c);
      OthersWait(After(h).ledger, After(one).ledger, left, c);
      v := FlushesListed(one, left - {c});
      SmoothThen(h, one, v);
      assert After(v).ledger.outbox == After(h).ledger.outbox - {c.key} - KeysOf(left - {c});
    }
  }

  lemma ListsAll(h: History) returns (v: History)
    requires After(h).serving && After(h).flusher == Idle
    ensures Smooth(h, v) && After(v).flusher.Pass? && After(v).ledger == After(h).ledger
    ensures forall c :: c in After(v).flusher.listed <==> InOutbox(After(h).ledger, c)
    ensures KeysOf(After(v).flusher.listed) == After(h).ledger.outbox.Keys
  {
    RunInv(h);
    var outbox := After(h).ledger.outbox;
    v := Take(h, ListPending);
    assert forall key | key in outbox :: outbox[key].result.claim in After(v).flusher.listed && outbox[key].result.claim.key == key;
  }

  /** If nothing fails or interferes, one pass of the flusher publishes everything that waits and empties the
      outbox. */
  lemma FlushEmptiesOutbox(h: History) returns (v: History)
    requires After(h).serving && After(h).flusher == Idle
    ensures Smooth(h, v)
    ensures After(v).ledger.outbox == map[]
    ensures forall c | InOutbox(After(h).ledger, c) :: c in After(v).ledger.sent
  {
    var listed := ListsAll(h);
    v := FlushesListed(listed, After(listed).flusher.listed);
    SmoothThen(h, listed, v);
  }

  /** A batch that is redelivered after it completed runs again; if the flusher is between publishing the
      first result and removing it, it removes the second result unpublished. */
  lemma RedeliveryLosesAResult() returns (h: History)
    ensures Smooth(Start, h)
    ensures var w, c := After(h), Claim(1, 0, Key("x"));
            c in w.ledger.accepted && c in w.ran && !Present(w, c)
  {
    var published := RedeliveryStarts();
    var again := ArrivesX(published);
    SmoothThen(Start, published, again);
    var stored := RunsX(again, 1);
    SmoothThen(Start, again, stored);
    h := Take(stored, Remove(true));
    assert After(h).handlers == After(stored).handlers;
  }

  // ---------------------------------------------------------------------------------------------
  // The agent
  // ---------------------------------------------------------------------------------------------

  function Actions(h: History): seq<Action> {
    if h.Start? then [] else Actions(h.past) + [h.action]
  }

  /** Nothing that had happened is taken back. */
  predicate Extends(h: History, past: History) {
    Actions(past) <= Actions(h)
  }

  lemma OldestOf(outbox: map<Key, Entry>, keys: set<Key>) returns (oldest: Key)
    requires keys != {} && keys <= outbox.Keys
    ensures oldest in keys && forall l | l in keys :: outbox[oldest].created <= outbox[l].created
    decreases |keys|
  {
    var one :| one in keys;
    var rest := keys - {one};
    oldest := one;
    if rest != {} {
      var other := OldestOf(outbox, rest);
      if outbox[other].created < outbox[one].created {
        oldest := other;
      }
    }
    assert forall l | l in keys :: l == one || l in rest;
  }

  predicate NoNewer(outbox: map<Key, Entry>, victims: set<Key>, rest: set<Key>)
    requires victims + rest <= outbox.Keys
  {
    forall k, l | k in victims && l in rest :: outbox[k].created <= outbox[l].created
  }

  method TakeOldest(outbox: map<Key, Entry>, victims: set<Key>, rest: set<Key>) returns (oldest: Key)
    requires rest != {} && victims + rest <= outbox.Keys && NoNewer(outbox, victims, rest)
    ensures oldest in rest && NoNewer(outbox, victims + {oldest}, rest - {oldest})
  {
    ghost var some := OldestOf(outbox, rest);
    oldest :| oldest in rest && forall l | l in rest :: outbox[oldest].created <= outbox[l].created;
  }

  /** Picks the oldest entries over the cap. */
  method PruneOldest(outbox: map<Key, Entry>) returns (victims: set<Key>)
    ensures CanPrune(outbox, victims)
    ensures |outbox| > OUTBOX_MAX_ENTRIES ==> |outbox| == OUTBOX_MAX_ENTRIES + |victims|
    ensures |outbox| <= OUTBOX_MAX_ENTRIES ==> victims == {}
  {
    victims := {};
    var rest := outbox.Keys;
    while |rest| > OUTBOX_MAX_ENTRIES
      invariant rest !! victims && victims + rest == outbox.Keys
      invariant |rest| + |victims| == |outbox.Keys|
      invariant victims == {} || |rest| >= OUTBOX_MAX_ENTRIES
      invariant NoNewer(outbox, victims, rest)
      decreases |rest|
    {
      var oldest := TakeOldest(outbox, victims, rest);
      victims := victims + {oldest};
      rest := rest - {oldest};
    }
    assert outbox.Keys - victims == rest;
  }

  /** The steps that the handler of batch `b` has taken. */
  function Own(h: History, b: nat): seq<Action> {
    if h.Start? then []
    else Own(h.past, b) + if OfHandler(h.action) && h.action.batch == b then [h.action] else []
  }

  /** After a completion that failed: the record is cleared only if publishing succeeded. */
  predicate BestEffort(steps: seq<Action>, b: nat) {
    || steps == [Publish(b, false)]
    || (|steps| == 2 && steps[0] == Publish(b, true) && steps[1].Clear? && steps[1].batch == b)
  }

  /** The result is stored and the outbox pruned, or it is published as far as possible. */
  predicate StoredOrSent(steps: seq<Action>, b: nat) {
    && |steps| >= 2 && steps[0].Complete? && steps[0].batch == b
    && if steps[0].ok then |steps| == 2 && steps[1].Prune? && steps[1].batch == b else BestEffort(steps[1..], b)
  }

  /** One request: marked, executed, and its result stored or published. */
  predicate OneRequestOf(steps: seq<Action>, b: nat) {
    && |steps| >= 2 && steps[0].Mark? && steps[0].batch == b && steps[1] == Execute(b)
    && StoredOrSent(steps[2..], b)
  }

  /** Without the store: each request is executed and then its publication tried. */
  predicate DirectSteps(steps: seq<Action>, b: nat, n: nat) {
    && |steps| == 2 * n
    && forall k :: 0 <= k < n ==> steps[2 * k] == Execute(b) && steps[2 * k + 1].Publish? && steps[2 * k + 1].batch == b
  }

  lemma StepsJoin(before: seq<Action>, a: Action, end: seq<Action>)
    ensures before + ([a] + end) == before + [a] + end && ([a] + end)[1..] == end
  {
  }

  /** The agent's process.  Each store call, execution and publication may come out either way, and between
      any two of them the other handlers and the flusher may take any steps. */
  class Agent {
    var w: World
    ghost var history: History

    ghost predicate Valid()
      reads this
    {
      w == After(history)
    }

    method Do(a: Action)
      requires Valid() && Enabled(w, a)
      modifies this
      ensures Valid() && w == Apply(old(w), a) && history == Then(old(history), a)
    {
      w, history := Apply(w, a), Then(history, a);
    }

    /** What the others do in the meantime. */
    method Others(me: nat)
      requires Valid() && w.serving && me < |w.batches| && me < |w.handlers|
      modifies this
      ensures Valid() && Extends(history, old(history)) && w.serving
      ensures old(w.batches) <= w.batches && |old(w.handlers)| <= |w.handlers|
      ensures w.handlers[me] == old(w.handlers[me]) && Own(history, me) == Own(old(history), me)
    {
      var steps: nat :| steps >= 0;
      for i := 0 to steps
        invariant Valid() && Extends(history, old(history)) && w.serving
        invariant old(w.batches) <= w.batches && |old(w.handlers)| <= |w.handlers|
        invariant w.handlers[me] == old(w.handlers[me]) && Own(history, me) == Own(old(history), me)
      {
        var a: Action :| true;
        if Enabled(w, a) && !a.Crash? && !(OfHandler(a) && a.batch == me) {
          Do(a);
        }
      }
    }

    /** Runs the requests of a journalled batch one after the other. */
    method RunBatch(me: nat)
      requires Valid() && w.serving && me < |w.batches| && me < |w.handlers|
      requires w.batches[me].mode == Durable && w.handlers[me] == Handler(true, 0, Marking)
      modifies this
      ensures Valid() && Extends(history, old(history)) && w.serving
      ensures me < |w.batches| && w.batches[me] == old(w.batches[me])
      ensures RunOf(w.ran, me) == InTurn(|w.batches[me].keys|)
    {
      var keys := w.batches[me].keys;
      for i := 0 to |keys|
        invariant Valid() && Extends(history, old(history)) && w.serving
        invariant me < |w.batches| && me < |w.handlers| && w.batches[me] == Batch(keys, Durable)
        invariant w.handlers[me] == Handler(true, i, Marking)
      {
        ghost var steps := RunRequest(me);
      }
      RunsInOrder(history);
    }

    /** Handles one message: `me` is its batch. */
    method HandleDurable(execution: string, scripts: seq<Option<string>>) returns (me: nat)
      requires Valid() && w.serving && |w.batches| == |w.handlers|
      modifies this
      ensures Valid() && Extends(history, old(history)) && w.serving
      ensures me == |old(w.batches)| < |w.batches| && w.batches[me].keys == Keys(execution, scripts)
      ensures w.batches[me].mode != Direct ==>
                (w.batches[me].mode == Skipped <==> exists key | key in old(w.ledger.journal) :: Names(key.text, execution))
      ensures w.batches[me].mode == Skipped ==> RunOf(w.ran, me) == []
      ensures w.batches[me].mode != Skipped ==> RunOf(w.ran, me) == InTurn(|scripts|)
    {
      var keys := Keys(execution, scripts);
      me := |w.batches|;
      SkippedExactlyInFlight(history, execution, scripts);
      var journalled: bool := *;
      Do(Deliver(execution, scripts, journalled));
      if !journalled {
        ghost var steps := PublishDirectly(me);
        return;
      }
      if w.batches[me].mode == Skipped {
        RunsInOrder(history);
        return;
      }
      RunBatch(me);
    }

    /** Runs the next request of a journalled batch. */
    method RunRequest(me: nat) returns (ghost steps: seq<Action>)
      requires Valid() && w.serving && At(w, me, Marking) && w.batches[me].mode == Durable
      modifies this
      ensures Valid() && Extends(history, old(history)) && w.serving
      ensures me < |w.batches| && me < |w.handlers| && w.batches[me] == old(w.batches[me])
      ensures Own(history, me) == Own(old(history), me) + steps && OneRequestOf(steps, me)
      ensures w.handlers[me] == Handler(true, old(w.handlers[me].next) + 1, Marking)
    {
      var ok: bool := *;
      Do(Mark(me, ok));
      Others(me);
      Do(Execute(me));
      Others(me);
      ghost var before := Own(old(history), me);
      assert Own(history, me) == before + [Mark(me, ok)] + [Execute(me)];
      ghost var end := StoreResult(me);
      Others(me);
      steps := [Mark(me, ok)] + ([Execute(me)] + end);
      StepsJoin(before + [Mark(me, ok)], Execute(me), end);
      StepsJoin(before, Mark(me, ok), [Execute(me)] + end);
      assert steps[2..] == end;
    }

    /** Stores the result of the request that just ran, or else tries to publish it. */
    method StoreResult(me: nat) returns (ghost steps: seq<Action>)
      requires Valid() && w.serving && At(w, me, Completing) && w.batches[me].mode == Durable
      modifies this
      ensures Valid() && Extends(history, old(history)) && w.serving
      ensures me < |w.batches| && me < |w.handlers| && w.batches[me] == old(w.batches[me])
      ensures Own(history, me) == Own(old(history), me) + steps && StoredOrSent(steps, me)
      ensures w.handlers[me] == Handler(true, old(w.handlers[me].next) + 1, Marking)
    {
      var stored: bool := *;
      var now: nat :| now >= 0;
      Do(Complete(me, stored, now));
      Others(me);
      ghost var before, completed := Own(old(history), me), Complete(me, stored, now);
      assert Own(history, me) == before + [completed];
      ghost var end;
      if stored {
        end := PruneOverCap(me);
      } else {
        end := PublishBestEffort(me);
      }
      steps := [completed] + end;
      StepsJoin(before, completed, end);
    }

    /** Prunes the outbox after a result was stored; failing to does not matter. */
    method PruneOverCap(me: nat) returns (ghost steps: seq<Action>)
      requires Valid() && w.serving && At(w, me, Pruning) && w.batches[me].mode == Durable
      modifies this
      ensures Valid() && Extends(history, old(history)) && w.serving
      ensures me < |w.batches| && me < |w.handlers| && w.batches[me] == old(w.batches[me])
      ensures Own(history, me) == Own(old(history), me) + steps && |steps| == 1 && steps[0].Prune? && steps[0].batch == me
      ensures w.handlers[me] == Handler(true, old(w.handlers[me].next) + 1, Marking)
    {
      var pruned: bool := *;
      var victims := PruneOldest(w.ledger.outbox);
      Do(Prune(me, if pruned then victims else {}));
      steps := [Prune(me, if pruned then victims else {})];
    }

    /** Publishes a result that could not be stored, and then clears its journal record. */
    method PublishBestEffort(me: nat) returns (ghost steps: seq<Action>)
      requires Valid() && w.serving && At(w, me, Publishing) && w.batches[me].mode == Durable
      modifies this
      ensures Valid() && Extends(history, old(history)) && w.serving
      ensures me < |w.batches| && me < |w.handlers| && w.batches[me] == old(w.batches[me])
      ensures Own(history, me) == Own(old(history), me) + steps && BestEffort(steps, me)
      ensures w.handlers[me] == Handler(true, old(w.handlers[me].next) + 1, Marking)
    {
      var published: bool := *;
      Do(Publish(me, published));
      steps := [Publish(me, published)];
      if published {
        Others(me);
        var ok: bool := *;
        Do(Clear(me, ok));
        steps := steps + [Clear(me, ok)];
      }
    }

    /** Turns one journal record into a result. */
    method RecoverRecord(key: Key)
      requires Valid() && !w.serving && key in w.ledger.journal
      modifies this
      ensures Valid() && Extends(history, old(history)) && !w.serving && w.ran == old(w.ran)
      ensures w.ledger.journal == old(w.ledger.journal) - {key}
      ensures w.ledger.accepted == old(w.ledger.accepted) && w.ledger.sent == old(w.ledger.sent)
    {
      var now: nat :| now >= 0;
      RunInv(history);
      assert w.ledger.journal[key].claim.key == key;
      Do(Action.Recover(key, now));
      assert w.ledger.journal == old(w.ledger.journal) - {key};
      var pruned: bool := *;
      var victims := PruneOldest(w.ledger.outbox);
      Do(RecoverPrune(if pruned then victims else {}));
    }

    /** At start-up: turns every record left in the journal into a result, until a store call fails. */
    method Recover() returns (ok: bool)
      requires Valid() && !w.serving
      modifies this
      ensures Valid() && Extends(history, old(history)) && !w.serving && w.ran == old(w.ran)
      ensures w.ledger.accepted == old(w.ledger.accepted) && w.ledger.sent == old(w.ledger.sent)
      ensures ok ==> w.ledger.journal == map[]
      ensures ok ==> forall c | c in w.ledger.accepted && Uncontested(w.ledger, c) ::
                InOutbox(w.ledger, c) || c in w.ledger.sent || c in w.ledger.pruned
    {
      var left := w.ledger.journal.Keys;
      var read: bool := *;
      if !read {
        return false;
      }
      while left != {}
        invariant Valid() && Extends(history, old(history))
        invariant !w.serving && w.ran == old(w.ran)
        invariant w.ledger.accepted == old(w.ledger.accepted) && w.ledger.sent == old(w.ledger.sent)
        invariant w.ledger.journal.Keys == left
        decreases |left|
      {
        var stored: bool := *;
        if !stored {
          return false;
        }
        var key :| key in left;
        RecoverRecord(key);
        left := left - {key};
      }
      KeptAfterRecovery(history);
      return true;
    }

    /** Runs a batch without the store. */
    method PublishDirectly(me: nat) returns (ghost steps: seq<Action>)
      requires Valid() && w.serving && me < |w.batches| && me < |w.handlers|
      requires w.batches[me].mode == Direct && w.handlers[me] == Handler(true, 0, Executing)
      modifies this
      ensures Valid() && Extends(history, old(history)) && w.serving
      ensures me < |w.batches| && w.batches[me] == old(w.batches[me])
      ensures RunOf(w.ran, me) == InTurn(|w.batches[me].keys|)
      ensures Own(history, me) == Own(old(history), me) + steps && DirectSteps(steps, me, |w.batches[me].keys|)
    {
      var keys := w.batches[me].keys;
      steps := [];
      for i := 0 to |keys|
        invariant Valid() && Extends(history, old(history)) && w.serving
        invariant me < |w.batches| && me < |w.handlers| && w.batches[me] == Batch(keys, Direct)
        invariant w.handlers[me] == Handler(true, i, Executing)
        invariant Own(history, me) == Own(old(history), me) + steps && DirectSteps(steps, me, i)
      {
        Do(Execute(me));
        Others(me);
        var ok: bool := *;
        Do(Publish(me, ok));
        Others(me);
        steps := steps + [Execute(me)] + [Publish(me, ok)];
      }
      RunsInOrder(history);
    }
  }
}
