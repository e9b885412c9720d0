/**
 Log collection: a budgeted round-robin over the log sources, then a de-duplicator that merges
 repeated tool messages into one entry with a count.
 */
module LogCollection {
  import opened Options

  datatype LogEntry = LogEntry(level: string, ts: string, msg: string, count: Option<nat>)

  // ---------------------------------------------------------------------------------------------
  // De-duplication
  // ---------------------------------------------------------------------------------------------

  predicate IsClientLog(e: LogEntry) {
    e.level != "TOOL" && ("openframe" <= e.msg || "async_nats" <= e.msg)
  }

  predicate SameTool(e: LogEntry, msg: string) {
    !IsClientLog(e) && e.msg == msg
  }

  function Bump(e: LogEntry, extra: nat): LogEntry {
    if extra == 0 then e else e.(count := Some(e.count.Or(Some(1)).value + extra))
  }

  /** The number of tool entries with this message. */
  function Occurrences(logs: seq<LogEntry>, msg: string): nat {
    if logs == [] then 0
    else Occurrences(logs[..|logs| - 1], msg) + if SameTool(logs[|logs| - 1], msg) then 1 else 0
  }

  /** The positions of the client entries and of the first tool entry with each message. */
  function Kept(logs: seq<LogEntry>): (positions: seq<nat>)
    ensures forall i :: i in positions ==> i < |logs|
  {
    if logs == [] then [] else
    var n := |logs| - 1;
    Kept(logs[..n]) + if IsClientLog(logs[n]) || Occurrences(logs[..n], logs[n].msg) == 0 then [n] else []
  }

  /** The entry at position `i` with every later occurrence of its message added to its count. */
  function Merged(logs: seq<LogEntry>, i: nat): LogEntry
    requires i < |logs|
  {
    if IsClientLog(logs[i]) then logs[i] else Bump(logs[i], Occurrences(logs[i + 1..], logs[i].msg))
  }

  lemma {:induction false} KeptIncreases(logs: seq<LogEntry>)
    ensures forall k, l :: 0 <= k < l < |Kept(logs)| ==> Kept(logs)[k] < Kept(logs)[l]
  {
    if logs != [] {
      var prefix := logs[..|logs| - 1];
      KeptIncreases(prefix);
      assert forall k :: 0 <= k < |Kept(prefix)| ==> Kept(prefix)[k] in Kept(prefix);
    }
  }

  lemma {:induction false} NoOccurrence(logs: seq<LogEntry>, msg: string)
    ensures Occurrences(logs, msg) == 0 <==> forall j :: 0 <= j < |logs| ==> !SameTool(logs[j], msg)
  {
    if logs != [] {
      var n := |logs| - 1;
      NoOccurrence(logs[..n], msg);
      assert forall j :: 0 <= j < n ==> logs[..n][j] == logs[j];
    }
  }

  /** Kept are exactly the client entries and the first tool entry with each message. */
  lemma {:induction false} KeptIsFirstOccurrences(logs: seq<LogEntry>, i: nat)
    requires i < |logs|
    ensures i in Kept(logs) <==>
            IsClientLog(logs[i]) || forall j :: 0 <= j < i ==> !SameTool(logs[j], logs[i].msg)
    decreases |logs|
  {
    var n := |logs| - 1;
    if i < n {
      KeptIsFirstOccurrences(logs[..n], i);
    } else {
      NoOccurrence(logs[..n], logs[n].msg);
    }
  }

  function Dedup(logs: seq<LogEntry>): seq<LogEntry> {
    var kept := Kept(logs);
    seq(|kept|, k requires 0 <= k < |kept| => assert kept[k] in kept; Merged(logs, kept[k]))
  }

  /** One more entry: every kept entry it repeats gains one occurrence. */
  lemma MergedSnoc(prefix: seq<LogEntry>, e: LogEntry, i: nat)
    requires i < |prefix|
    ensures Merged(prefix + [e], i) ==
            if !IsClientLog(prefix[i]) && SameTool(e, prefix[i].msg) then Bump(Merged(prefix, i), 1) else Merged(prefix, i)
  {
    var logs := prefix + [e];
    var later := logs[i + 1..];
    assert later == prefix[i + 1..] + [e] && later[..|later| - 1] == prefix[i + 1..];
  }

  /** What one more entry does to the result. */
  lemma DedupSnoc(prefix: seq<LogEntry>, e: LogEntry)
    ensures var before, after := Dedup(prefix), Dedup(prefix + [e]);
            && (IsClientLog(e) || Occurrences(prefix, e.msg) == 0 ==> after == before + [e])
            && (!IsClientLog(e) && Occurrences(prefix, e.msg) > 0 ==>
                  && |after| == |before|
                  && forall k :: 0 <= k < |before| ==>
                       after[k] == if SameTool(before[k], e.msg) then Bump(before[k], 1) else before[k])
  {
    var logs := prefix + [e];
    assert logs[..|prefix|] == prefix;
    var before, after := Dedup(prefix), Dedup(logs);
    var kept := Kept(prefix);
    forall k | 0 <= k < |kept|
      ensures after[k] == if SameTool(before[k], e.msg) && !IsClientLog(e) then Bump(before[k], 1) else before[k]
      ensures SameTool(before[k], e.msg) ==> Occurrences(prefix, e.msg) > 0
    {
      assert kept[k] in kept;
      MergedSnoc(prefix, e, kept[k]);
      NoOccurrence(prefix, e.msg);
    }
    if IsClientLog(e) || Occurrences(prefix, e.msg) == 0 {
      assert Kept(logs) == kept + [|prefix|];
      assert Merged(logs, |prefix|) == e by {
        assert logs[|prefix| + 1..] == [];
      }
      assert after[|before|] == e;
    }
  }

  /** The entries that can repeat a message. */
  ghost predicate HasTool(logs: seq<LogEntry>, msg: string) {
    exists k :: 0 <= k < |logs| && SameTool(logs[k], msg)
  }

  ghost predicate DistinctTools(logs: seq<LogEntry>) {
    forall k, l :: 0 <= k < l < |logs| && !IsClientLog(logs[k]) ==> !SameTool(logs[l], logs[k].msg)
  }

  lemma {:induction false} DedupTools(logs: seq<LogEntry>, msg: string)
    ensures HasTool(Dedup(logs), msg) <==> Occurrences(logs, msg) > 0
  {
    if logs != [] {
      var n := |logs| - 1;
      var before, after := Dedup(logs[..n]), Dedup(logs);
      assert logs == logs[..n] + [logs[n]];
      DedupTools(logs[..n], msg);
      DedupSnoc(logs[..n], logs[n]);
      assert forall k :: 0 <= k < |before| ==> (SameTool(after[k], msg) <==> SameTool(before[k], msg));
      if |after| > |before| {
        assert after[|before|] == logs[n];
      } else {
        DedupTools(logs[..n], logs[n].msg);
      }
    }
  }

  lemma {:induction false} DedupDistinct(logs: seq<LogEntry>)
    ensures DistinctTools(Dedup(logs))
  {
    if logs != [] {
      var n := |logs| - 1;
      var before, after := Dedup(logs[..n]), Dedup(logs);
      assert logs == logs[..n] + [logs[n]];
      DedupDistinct(logs[..n]);
      DedupSnoc(logs[..n], logs[n]);
      DedupTools(logs[..n], logs[n].msg);
    }
  }

  /** A repeated message bumps the one entry that has it. */
  lemma DedupRepeat(prefix: seq<LogEntry>, e: LogEntry, k: nat)
    requires !IsClientLog(e) && k < |Dedup(prefix)| && SameTool(Dedup(prefix)[k], e.msg)
    ensures Dedup(prefix + [e]) == Dedup(prefix)[k := Bump(Dedup(prefix)[k], 1)]
  {
    DedupSnoc(prefix, e);
    DedupTools(prefix, e.msg);
    DedupDistinct(prefix);
  }

  method Deduplicate(logs: seq<LogEntry>) returns (result: seq<LogEntry>)
    ensures result == Dedup(logs)
  {
    result := [];
    var toolSeen: map<string, nat> := map[];
    for n := 0 to |logs|
      invariant result == Dedup(logs[..n])
      invariant forall msg :: msg in toolSeen <==> Occurrences(logs[..n], msg) > 0
      invariant forall msg :: msg in toolSeen ==> toolSeen[msg] < |result| && SameTool(result[toolSeen[msg]], msg)
    {
      var entry := logs[n];
      ghost var prefix := logs[..n];
      assert logs[..n + 1] == prefix + [entry] && logs[..n + 1][..n] == prefix;
      DedupSnoc(prefix, entry);
      if IsClientLog(entry) {
        result := result + [entry];
      } else if entry.msg in toolSeen {
        var idx := toolSeen[entry.msg];
        DedupRepeat(prefix, entry, idx);
        result := result[idx := result[idx].(count := Some(result[idx].count.Or(Some(1)).value + 1))];
      } else {
        toolSeen := toolSeen[entry.msg := |result|];
        result := result + [entry];
      }
    }
    assert logs[..|logs|] == logs;
  }

  // ---------------------------------------------------------------------------------------------
  // What the result is, entry by entry
  // ---------------------------------------------------------------------------------------------

  predicate StartsWith(text: string, start: string) {
    |text| >= |start| && text[..|start|] == start
  }

  /** Entries of level TOOL, and of any other level unless their message starts with the name of the client or
      of its broker library. */
  predicate Repeatable(e: LogEntry) {
    e.level == "TOOL" || !(StartsWith(e.msg, "openframe") || StartsWith(e.msg, "async_nats"))
  }

  lemma RepeatableIsNoClientLog(e: LogEntry)
    ensures Repeatable(e) <==> !IsClientLog(e)
  {
  }

  /** The positions from `i` on, but before `n`, at which the message is repeated. */
  function Repeats(logs: seq<LogEntry>, msg: string, i: nat, n: nat): set<nat>
    requires n <= |logs|
  {
    set j: nat | i <= j < n && Repeatable(logs[j]) && logs[j].msg == msg
  }

  lemma {:induction false} OccurrencesAreRepeats(logs: seq<LogEntry>, msg: string, i: nat, n: nat)
    requires i <= n <= |logs|
    ensures Occurrences(logs[i..n], msg) == |Repeats(logs, msg, i, n)|
    decreases n
  {
    if i < n {
      OccurrencesAreRepeats(logs, msg, i, n - 1);
      assert logs[i..n][..n - 1 - i] == logs[i..n - 1];
      RepeatableIsNoClientLog(logs[n - 1]);
      var before, after := Repeats(logs, msg, i, n - 1), Repeats(logs, msg, i, n);
      assert after == if SameTool(logs[n - 1], msg) then before + {n - 1} else before;
    } else {
      assert Repeats(logs, msg, i, n) == {};
    }
  }

  predicate IsFirst(logs: seq<LogEntry>, i: nat)
    requires i < |logs|
  {
    !Repeatable(logs[i]) || forall j :: 0 <= j < i && Repeatable(logs[j]) ==> logs[j].msg != logs[i].msg
  }

  /** The entry as it was, but for its count: that grows by its later repeats, if any. */
  predicate WithRepeats(logs: seq<LogEntry>, i: nat, e: LogEntry)
    requires i < |logs|
  {
    var repeats := if Repeatable(logs[i]) then |Repeats(logs, logs[i].msg, i + 1, |logs|)| else 0;
    && e.level == logs[i].level && e.ts == logs[i].ts && e.msg == logs[i].msg
    && e.count == if repeats == 0 then logs[i].count
                  else Some((if logs[i].count.Some? then logs[i].count.value else 1) + repeats)
  }

  lemma MergedWithRepeats(logs: seq<LogEntry>, i: nat)
    requires i < |logs|
    ensures WithRepeats(logs, i, Merged(logs, i))
  {
    RepeatableIsNoClientLog(logs[i]);
    OccurrencesAreRepeats(logs, logs[i].msg, i + 1, |logs|);
    assert logs[i + 1..|logs|] == logs[i + 1..];
  }

  /** The result has one entry for each entry that cannot be repeated and for the first of each message that
      can, in order, and each is as it was but for the count of its repeats. */
  lemma DedupIsFirstsWithRepeats(logs: seq<LogEntry>) returns (at: seq<nat>)
    ensures |at| == |Dedup(logs)| && forall k :: 0 <= k < |at| ==> at[k] < |logs|
    ensures forall k, l :: 0 <= k < l < |at| ==> at[k] < at[l]
    ensures forall i :: 0 <= i < |logs| ==> (i in at <==> IsFirst(logs, i))
    ensures forall k :: 0 <= k < |at| ==> WithRepeats(logs, at[k], Dedup(logs)[k])
  {
    at := Kept(logs);
    KeptIncreases(logs);
    forall k | 0 <= k < |at| ensures at[k] < |logs| && WithRepeats(logs, at[k], Dedup(logs)[k]) {
      assert at[k] in at;
      MergedWithRepeats(logs, at[k]);
    }
    forall i: nat | i < |logs| ensures i in at <==> IsFirst(logs, i) {
      KeptIsFirstOccurrences(logs, i);
      assert forall e :: Repeatable(e) <==> !IsClientLog(e);
    }
  }

  // ---------------------------------------------------------------------------------------------
  // What de-duplication conserves
  // ---------------------------------------------------------------------------------------------

  function ClientLogs(logs: seq<LogEntry>): seq<LogEntry> {
    if logs == [] then [] else
    ClientLogs(logs[..|logs| - 1]) + if IsClientLog(logs[|logs| - 1]) then [logs[|logs| - 1]] else []
  }

  lemma {:induction false} SameClientLogs(a: seq<LogEntry>, b: seq<LogEntry>)
    requires |a| == |b|
    requires forall k :: 0 <= k < |a| ==> IsClientLog(a[k]) == IsClientLog(b[k]) && (IsClientLog(a[k]) ==> a[k] == b[k])
    ensures ClientLogs(a) == ClientLogs(b)
  {
    if a != [] {
      SameClientLogs(a[..|a| - 1], b[..|b| - 1]);
    }
  }

  /** Client entries come through unchanged and in order. */
  lemma {:induction false} ClientLogsUnchanged(logs: seq<LogEntry>)
    ensures ClientLogs(Dedup(logs)) == ClientLogs(logs)
  {
    if logs != [] {
      var n := |logs| - 1;
      assert logs == logs[..n] + [logs[n]];
      ClientLogsUnchanged(logs[..n]);
      DedupSnoc(logs[..n], logs[n]);
      if |Dedup(logs)| > |Dedup(logs[..n])| {
        assert Dedup(logs)[..|Dedup(logs[..n])|] == Dedup(logs[..n]);
      } else {
        DedupTools(logs[..n], logs[n].msg);
        SameClientLogs(Dedup(logs[..n]), Dedup(logs));
      }
    }
  }

  function Count(e: LogEntry): nat {
    e.count.Or(Some(1)).value
  }

  /** The counts of all entries, an absent one standing for a single occurrence. */
  function Total(logs: seq<LogEntry>): nat {
    if logs == [] then 0 else Total(logs[..|logs| - 1]) + Count(logs[|logs| - 1])
  }

  lemma {:induction false} OccurrencesConcat(a: seq<LogEntry>, b: seq<LogEntry>, msg: string)
    ensures Occurrences(a + b, msg) == Occurrences(a, msg) + Occurrences(b, msg)
  {
    if b == [] {
      assert a + b == a;
    } else {
      OccurrencesConcat(a, b[..|b| - 1], msg);
      assert (a + b)[..|a + b| - 1] == a + b[..|b| - 1];
    }
  }

  lemma OccurrencesAround(logs: seq<LogEntry>, i: nat, msg: string)
    requires i < |logs| && SameTool(logs[i], msg)
    ensures Occurrences(logs, msg) == Occurrences(logs[..i], msg) + 1 + Occurrences(logs[i + 1..], msg)
  {
    OccurrencesConcat(logs[..i + 1], logs[i + 1..], msg);
    assert logs == logs[..i + 1] + logs[i + 1..] && logs[..i + 1][..i] == logs[..i];
  }

  /** Each kept tool entry counts its own occurrences: on entries without counts, the count shown for
      a message is the number of times it occurred, and together the counts add up to the input. */
  lemma CountsAreOccurrences(logs: seq<LogEntry>, k: nat)
    requires forall i :: 0 <= i < |logs| ==> logs[i].count.None?
    requires k < |Dedup(logs)| && !IsClientLog(Dedup(logs)[k])
    ensures Count(Dedup(logs)[k]) == Occurrences(logs, Dedup(logs)[k].msg)
  {
    var i, msg := Kept(logs)[k], Dedup(logs)[k].msg;
    assert i in Kept(logs);
    KeptIsFirstOccurrences(logs, i);
    NoOccurrence(logs[..i], msg);
    OccurrencesAround(logs, i, msg);
  }

  lemma {:induction false} TotalUpdate(logs: seq<LogEntry>, k: nat, e: LogEntry)
    requires k < |logs|
    ensures Total(logs[k := e]) == Total(logs) - Count(logs[k]) + Count(e)
  {
    var n := |logs| - 1;
    if k < n {
      TotalUpdate(logs[..n], k, e);
      assert logs[k := e][..n] == logs[..n][k := e];
    } else {
      assert logs[k := e][..n] == logs[..n];
    }
  }

  /** On entries without counts the total is the number of entries, so no count can exceed it. */
  lemma {:induction false} TotalIsConserved(logs: seq<LogEntry>)
    requires forall i :: 0 <= i < |logs| ==> logs[i].count.None?
    ensures Total(Dedup(logs)) == |logs|
  {
    if logs != [] {
      var n := |logs| - 1;
      var before, after := Dedup(logs[..n]), Dedup(logs);
      assert logs == logs[..n] + [logs[n]];
      TotalIsConserved(logs[..n]);
      DedupSnoc(logs[..n], logs[n]);
      if |after| > |before| {
        assert after[..|before|] == before;
      } else {
        DedupTools(logs[..n], logs[n].msg);
        var k :| 0 <= k < |before| && SameTool(before[k], logs[n].msg);
        DedupRepeat(logs[..n], logs[n], k);
        TotalUpdate(before, k, Bump(before[k], 1));
      }
    }
  }

  lemma {:induction false} DistinctIsFixed(logs: seq<LogEntry>)
    requires DistinctTools(logs)
    ensures Dedup(logs) == logs
  {
    if logs != [] {
      var n := |logs| - 1;
      assert logs == logs[..n] + [logs[n]];
      DistinctIsFixed(logs[..n]);
      NoOccurrence(logs[..n], logs[n].msg);
      DedupSnoc(logs[..n], logs[n]);
    } else {
      assert Dedup(logs) == [];
    }
  }

  /** De-duplicating twice is de-duplicating once, on any entries. */
  lemma DedupIsIdempotent(logs: seq<LogEntry>)
    ensures Dedup(Dedup(logs)) == Dedup(logs)
  {
    DedupDistinct(logs);
    DistinctIsFixed(Dedup(logs));
  }

  // ---------------------------------------------------------------------------------------------
  // Round-robin reading
  // ---------------------------------------------------------------------------------------------

  datatype Response = Entries(entries: seq<LogEntry>) | Failure

  /** What a source was asked for, and what it answered. */
  datatype Answer = Answer(offered: nat, response: Response)

  function Scripted(script: seq<Response>, n: nat): Response {
    if n < |script| then script[n] else Entries([])
  }

  function Offered(r: Response, maxCount: nat): Response {
    if r.Entries? && |r.entries| > maxCount then Entries(r.entries[..maxCount]) else r
  }

  /** A source answers its n-th read with the n-th of a script of arbitrary responses, cut to what was
      asked for: every behaviour of a source that returns at most what it is offered has such a script.
      `answered` are the reads so far. */
  class LogSource {
    const script: seq<Response>
    ghost var answered: seq<Answer>
    var position: nat

    /** The reads so far were answered from the script. */
    ghost predicate Valid()
      reads this
    {
      && position == |answered|
      && forall n :: 0 <= n < |answered| ==> answered[n].response == Offered(Scripted(script, n), answered[n].offered)
    }

    constructor (script: seq<Response>)
      ensures this.script == script && answered == [] && Valid()
    {
      this.script, this.answered, this.position := script, [], 0;
    }

    method Read(maxCount: nat) returns (r: Response)
      requires Valid()
      modifies this
      ensures r.Entries? ==> |r.entries| <= maxCount
      ensures answered == old(answered) + [Answer(maxCount, r)]
      ensures Valid()
    {
      r := Offered(Scripted(script, position), maxCount);
      position, answered := position + 1, answered + [Answer(maxCount, r)];
    }
  }

  /** One read: which source was offered how much in which round, and what came back. */
  datatype ReadEvent = ReadEvent(source: nat, offered: nat, response: Response)

  /** A round starts with a remaining budget and a set of active sources. */
  datatype Round = Round(budget: nat, quota: nat, active: seq<bool>, events: seq<ReadEvent>)

  predicate CameShort(r: ReadEvent) {
    r.response.Failure? || |r.response.entries| < r.offered
  }

  function ReadOf(r: ReadEvent): seq<LogEntry> {
    if r.response.Entries? then r.response.entries else []
  }

  function ReadIn(events: seq<ReadEvent>): seq<LogEntry> {
    if events == [] then [] else ReadIn(events[..|events| - 1]) + ReadOf(events[|events| - 1])
  }

  lemma ReadInSnoc(events: seq<ReadEvent>, event: ReadEvent)
    ensures ReadIn(events + [event]) == ReadIn(events) + ReadOf(event)
  {
    assert (events + [event])[..|events|] == events;
  }

  function ReadInAll(rounds: seq<Round>): seq<LogEntry> {
    if rounds == [] then [] else ReadInAll(rounds[..|rounds| - 1]) + ReadIn(rounds[|rounds| - 1].events)
  }

  /** The reads of source `i`, in order. */
  function AnswersIn(events: seq<ReadEvent>, i: nat): seq<Answer> {
    if events == [] then []
    else
      var last := events[|events| - 1];
      AnswersIn(events[..|events| - 1], i) + if last.source == i then [Answer(last.offered, last.response)] else []
  }

  function AnswersInAll(rounds: seq<Round>, i: nat): seq<Answer> {
    if rounds == [] then [] else AnswersInAll(rounds[..|rounds| - 1], i) + AnswersIn(rounds[|rounds| - 1].events, i)
  }

  /** What each source has answered after the reads of a round, and after several rounds. */
  function Grown(before: seq<seq<Answer>>, events: seq<ReadEvent>): seq<seq<Answer>> {
    seq(|before|, i requires 0 <= i < |before| => before[i] + AnswersIn(events, i))
  }

  function GrownAll(before: seq<seq<Answer>>, rounds: seq<Round>): seq<seq<Answer>> {
    seq(|before|, i requires 0 <= i < |before| => before[i] + AnswersInAll(rounds, i))
  }

  lemma GrownByNothing(before: seq<seq<Answer>>)
    ensures Grown(before, []) == before && GrownAll(before, []) == before
  {
    assert forall i :: 0 <= i < |before| ==> before[i] + [] == before[i];
  }

  lemma GrownSnoc(start: seq<seq<Answer>>, events: seq<ReadEvent>, event: ReadEvent)
    requires event.source < |start|
    ensures var before := Grown(start, events);
            Grown(start, events + [event])
            == before[event.source := before[event.source] + [Answer(event.offered, event.response)]]
  {
    assert (events + [event])[..|events|] == events;
    var before := Grown(start, events);
    forall i | 0 <= i < |start|
      ensures Grown(start, events + [event])[i]
              == if event.source == i then before[i] + [Answer(event.offered, event.response)] else before[i]
    {
      assert AnswersIn(events, i) + [] == AnswersIn(events, i);
      assert before[i] + [Answer(event.offered, event.response)]
          == start[i] + (AnswersIn(events, i) + [Answer(event.offered, event.response)]);
    }
  }

  lemma GrownAllSnoc(before: seq<seq<Answer>>, rounds: seq<Round>, round: Round)
    ensures Grown(GrownAll(before, rounds), round.events) == GrownAll(before, rounds + [round])
  {
    assert (rounds + [round])[..|rounds|] == rounds;
    forall i | 0 <= i < |before|
      ensures Grown(GrownAll(before, rounds), round.events)[i] == GrownAll(before, rounds + [round])[i]
    {
      assert before[i] + AnswersInAll(rounds, i) + AnswersIn(round.events, i)
          == before[i] + (AnswersInAll(rounds, i) + AnswersIn(round.events, i));
    }
  }

  function CountActive(active: seq<bool>): nat {
    if active == [] then 0 else (if active[0] then 1 else 0) + CountActive(active[1..])
  }

  lemma {:induction false} CountActiveUpdate(active: seq<bool>, i: nat)
    requires i < |active| && active[i]
    ensures CountActive(active[i := false]) == CountActive(active) - 1
  {
    if i > 0 {
      CountActiveUpdate(active[1..], i - 1);
      assert active[i := false][1..] == active[1..][i - 1 := false];
    } else {
      assert active[i := false][1..] == active[1..];
    }
  }

  lemma {:induction false} SomeActive(active: seq<bool>)
    ensures CountActive(active) > 0 <==> exists i :: 0 <= i < |active| && active[i]
  {
    if active != [] {
      SomeActive(active[1..]);
      assert forall i :: 0 < i < |active| ==> active[i] == active[1..][i - 1];
      if exists i :: 0 <= i < |active[1..]| && active[1..][i] {
        var i :| 0 <= i < |active[1..]| && active[1..][i];
        assert active[i + 1];
      }
    }
  }

  /** A round is fair: it reads active sources only, each at most once and in order, and when the
      budget covers all of them each is offered the same full share. */
  ghost predicate FairRound(r: Round) {
    && (forall k :: 0 <= k < |r.events| ==> r.events[k].source < |r.active| && r.active[r.events[k].source])
    && (forall k, l :: 0 <= k < l < |r.events| ==> r.events[k].source < r.events[l].source)
    && (CountActive(r.active) > 0 && r.budget >= CountActive(r.active) ==>
          && (forall k :: 0 <= k < |r.events| ==> r.events[k].offered == r.budget / CountActive(r.active))
          && (forall i :: 0 <= i < |r.active| && r.active[i] ==> exists k :: 0 <= k < |r.events| && r.events[k].source == i))
    && (r.budget < CountActive(r.active) ==> forall k :: 0 <= k < |r.events| ==> r.events[k].offered == 1)
  }

  /** Source `i` failed or returned less than it was offered. */
  ghost predicate ShortIn(events: seq<ReadEvent>, i: nat) {
    exists k :: 0 <= k < |events| && events[k].source == i && CameShort(events[k])
  }

  /** Each round starts with the budget left over and the sources that have not come short. */
  ghost predicate Follows(r: Round, budget: nat, active: seq<bool>) {
    && budget == r.budget - |ReadIn(r.events)|
    && |active| == |r.active|
    && forall i :: 0 <= i < |active| ==> (active[i] <==> r.active[i] && !ShortIn(r.events, i))
  }

  ghost predicate ValidRounds(rounds: seq<Round>, maxTotal: nat, sources: nat) {
    && (forall k :: 0 <= k < |rounds| ==> FairRound(rounds[k]))
    && (rounds != [] ==> rounds[0].budget == maxTotal && rounds[0].active == seq(sources, i => true))
    && (forall k :: 0 <= k < |rounds| - 1 ==> Follows(rounds[k], rounds[k + 1].budget, rounds[k + 1].active))
  }

  ghost predicate ShortInSome(rounds: seq<Round>, i: nat) {
    exists k :: 0 <= k < |rounds| && ShortIn(rounds[k].events, i)
  }

  lemma ShortInSnoc(events: seq<ReadEvent>, r: ReadEvent, i: nat)
    ensures ShortIn(events + [r], i) <==> ShortIn(events, i) || (r.source == i && CameShort(r))
  {
    var events' := events + [r];
    assert events'[|events|] == r;
    if ShortIn(events, i) {
      var k :| 0 <= k < |events| && events[k].source == i && CameShort(events[k]);
      assert events'[k] == events[k];
    }
  }

  lemma {:induction false} AllActive(n: nat)
    ensures CountActive(seq(n, i => true)) == n
  {
    if n > 0 {
      assert seq(n, i => true)[1..] == seq(n - 1, i => true);
      AllActive(n - 1);
    }
  }

  /** What it takes to offer each active source the full quota. */
  function FullShares(quota: nat, active: seq<bool>): nat {
    if active == [] then 0 else (if active[0] then quota else 0) + FullShares(quota, active[1..])
  }

  lemma {:induction false} FullSharesIsProduct(quota: nat, active: seq<bool>)
    ensures FullShares(quota, active) == quota * CountActive(active)
  {
    if active != [] {
      FullSharesIsProduct(quota, active[1..]);
      var n := CountActive(active[1..]);
      assert quota * (1 + n) == quota + quota * n;
    }
  }

  function Quota(budget: nat, active: seq<bool>): nat
    requires CountActive(active) > 0
  {
    var perSource := budget / CountActive(active);
    if perSource >= 1 then perSource else 1
  }

  // Halfway through a round, with the sources before `i` visited:

  /** the remaining budget still covers a full quota for each active source to come; */
  ghost predicate QuotaLeft(r: Round, i: nat, remaining: int)
    requires i <= |r.active| && CountActive(r.active) > 0
  {
    && remaining >= 0 && r.quota >= 1 && (r.budget < CountActive(r.active) ==> r.quota == 1)
    && (r.budget >= CountActive(r.active) ==> remaining >= FullShares(r.quota, r.active[i..]))
    && forall k :: 0 <= k < |r.events| ==> r.events[k].offered == r.quota
  }

  /** the reads so far are of active sources, in order, and skip none if the budget covers them; */
  ghost predicate InOrder(r: Round, i: nat)
    requires i <= |r.active|
  {
    && (forall k :: 0 <= k < |r.events| ==> r.events[k].source < i && r.active[r.events[k].source])
    && (forall k, l :: 0 <= k < l < |r.events| ==> r.events[k].source < r.events[l].source)
    && (r.budget >= CountActive(r.active) ==>
          forall j :: 0 <= j < i && r.active[j] ==> exists k :: 0 <= k < |r.events| && r.events[k].source == j)
  }

  /** the sources that came short are the ones made inactive; */
  ghost predicate ShortOnes(r: Round, i: nat, active': seq<bool>) {
    && |active'| == |r.active|
    && (forall k :: 0 <= k < |r.events| ==> r.events[k].source < i)
    && forall j :: 0 <= j < |active'| ==> (active'[j] <==> r.active[j] && !ShortIn(r.events, j))
  }

  /** and every read has used budget or a source. */
  ghost predicate Progress(r: Round, i: nat, remaining: int, active': seq<bool>)
    requires i <= |r.active|
  {
    && remaining + |ReadIn(r.events)| == r.budget
    && remaining + CountActive(active') <= r.budget + CountActive(r.active) - (if r.events == [] then 0 else 1)
    && (r.events == [] ==> forall j :: 0 <= j < i ==> !r.active[j])
  }

  ghost predicate InRound(r: Round, i: nat, remaining: int, active': seq<bool>) {
    && i <= |r.active| && CountActive(r.active) > 0 && r.budget > 0
    && QuotaLeft(r, i, remaining) && InOrder(r, i) && ShortOnes(r, i, active') && Progress(r, i, remaining, active')
  }

  lemma FullSharesFrom(quota: nat, active: seq<bool>, i: nat)
    requires i < |active|
    ensures FullShares(quota, active[i..]) == (if active[i] then quota else 0) + FullShares(quota, active[i + 1..])
  {
    assert active[i..][1..] == active[i + 1..];
  }

  lemma SkipStep(r: Round, i: nat, remaining: int, active': seq<bool>)
    requires InRound(r, i, remaining, active') && i < |r.active|
    requires !active'[i] || remaining == 0
    ensures InRound(r, i + 1, remaining, active')
  {
    FullSharesFrom(r.quota, r.active, i);
    if r.active[i] {
      assert !ShortIn(r.events, i);
    }
  }

  function Smaller(a: int, b: int): int {
    if a <= b then a else b
  }

  function WithRead(r: Round, event: ReadEvent): Round {
    r.(events := r.events + [event])
  }

  function AfterRead(active: seq<bool>, event: ReadEvent): seq<bool>
    requires event.source < |active|
  {
    if CameShort(event) then active[event.source := false] else active
  }

  /** The next source is read: it is active, there is budget, and it returns no more than offered. */
  ghost predicate ReadsNext(r: Round, i: nat, remaining: int, active': seq<bool>, event: ReadEvent) {
    && InRound(r, i, remaining, active') && i < |r.active| && active'[i] && remaining > 0
    && event.source == i && event.offered == Smaller(r.quota, remaining)
    && |ReadOf(event)| <= event.offered
  }

  lemma ReadQuota(r: Round, i: nat, remaining: int, active': seq<bool>, event: ReadEvent)
    requires ReadsNext(r, i, remaining, active', event)
    ensures QuotaLeft(WithRead(r, event), i + 1, remaining - |ReadOf(event)|)
  {
    FullSharesFrom(r.quota, r.active, i);
  }

  lemma ReadShort(r: Round, i: nat, active': seq<bool>, event: ReadEvent)
    requires ShortOnes(r, i, active') && i < |active'| && active'[i] && event.source == i
    ensures ShortOnes(WithRead(r, event), i + 1, AfterRead(active', event))
  {
    var active'' := AfterRead(active', event);
    forall j | 0 <= j < |active''| ensures active''[j] <==> r.active[j] && !ShortIn(WithRead(r, event).events, j) {
      ShortInSnoc(r.events, event, j);
    }
  }

  lemma ReadProgress(r: Round, i: nat, remaining: int, active': seq<bool>, event: ReadEvent)
    requires ReadsNext(r, i, remaining, active', event)
    ensures Progress(WithRead(r, event), i + 1, remaining - |ReadOf(event)|, AfterRead(active', event))
    ensures ReadIn(WithRead(r, event).events) == ReadIn(r.events) + ReadOf(event)
  {
    assert WithRead(r, event).events[..|r.events|] == r.events;
    if CameShort(event) {
      CountActiveUpdate(active', i);
    }
  }

  lemma ReadOrder(r: Round, i: nat, event: ReadEvent)
    requires i < |r.active| && InOrder(r, i) && r.active[i] && event.source == i
    ensures InOrder(WithRead(r, event), i + 1)
  {
    var r' := WithRead(r, event);
    assert r'.events[|r.events|] == event;
    forall j | 0 <= j < i && r.active[j] && r.budget >= CountActive(r.active)
      ensures exists k :: 0 <= k < |r'.events| && r'.events[k].source == j
    {
      var k :| 0 <= k < |r.events| && r.events[k].source == j;
      assert r'.events[k].source == j;
    }
  }

  lemma ReadStep(r: Round, i: nat, remaining: int, active': seq<bool>, event: ReadEvent)
    requires ReadsNext(r, i, remaining, active', event)
    ensures InRound(WithRead(r, event), i + 1, remaining - |ReadOf(event)|, AfterRead(active', event))
    ensures ReadIn(WithRead(r, event).events) == ReadIn(r.events) + ReadOf(event)
  {
    ReadQuota(r, i, remaining, active', event);
    ReadOrder(r, i, event);
    ReadShort(r, i, active', event);
    ReadProgress(r, i, remaining, active', event);
  }

  /** What a pass over the first sources leaves, given their responses. */
  datatype Visited = Visited(events: seq<ReadEvent>, remaining: int, active: seq<bool>)

  function Visit(budget: nat, quota: nat, active: seq<bool>, responses: seq<Response>): (v: Visited)
    requires |responses| <= |active|
    ensures |v.active| == |active|
    ensures v.remaining >= 0
  {
    if responses == [] then Visited([], budget, active) else
    var i := |responses| - 1;
    var v := Visit(budget, quota, active, responses[..i]);
    if v.active[i] && v.remaining > 0 then
      var offered := Smaller(quota, v.remaining);
      var event := ReadEvent(i, offered, Offered(responses[i], offered));
      Visited(v.events + [event], v.remaining - |ReadOf(event)|, AfterRead(v.active, event))
    else v
  }

  lemma VisitNext(budget: nat, quota: nat, active: seq<bool>, responses: seq<Response>, v: Visited, response: Response)
    requires |responses| < |active| && v == Visit(budget, quota, active, responses)
    ensures Visit(budget, quota, active, responses + [response])
            == if v.active[|responses|] && v.remaining > 0 then
                 var offered := Smaller(quota, v.remaining);
                 var event := ReadEvent(|responses|, offered, Offered(response, offered));
                 Visited(v.events + [event], v.remaining - |ReadOf(event)|, AfterRead(v.active, event))
               else v
  {
    assert (responses + [response])[..|responses|] == responses;
  }

  lemma VisitReads(round: Round, i: nat, v: Visited, response: Response)
    requires i < |round.active| == |v.active| && round.events == v.events && InRound(round, i, v.remaining, v.active)
    requires v.active[i] && v.remaining > 0
    ensures var offered := Smaller(round.quota, v.remaining);
            var event := ReadEvent(i, offered, Offered(response, offered));
            InRound(WithRead(round, event), i + 1, v.remaining - |ReadOf(event)|, AfterRead(v.active, event))
  {
    var offered := Smaller(round.quota, v.remaining);
    ReadStep(round, i, v.remaining, v.active, ReadEvent(i, offered, Offered(response, offered)));
  }

  lemma {:induction false} VisitInRound(budget: nat, quota: nat, active: seq<bool>, responses: seq<Response>)
    requires |responses| <= |active| && InRound(Round(budget, quota, active, []), 0, budget, active)
    ensures var v := Visit(budget, quota, active, responses);
            InRound(Round(budget, quota, active, v.events), |responses|, v.remaining, v.active)
  {
    if responses != [] {
      var i := |responses| - 1;
      VisitInRound(budget, quota, active, responses[..i]);
      var v := Visit(budget, quota, active, responses[..i]);
      var round := Round(budget, quota, active, v.events);
      if v.active[i] && v.remaining > 0 {
        VisitReads(round, i, v, responses[i]);
      } else {
        SkipStep(round, i, v.remaining, v.active);
      }
    }
  }

  lemma RoundIsFair(r: Round, remaining: int)
    requires CountActive(r.active) > 0 && QuotaLeft(r, |r.active|, remaining) && InOrder(r, |r.active|)
    requires r.quota == Quota(r.budget, r.active)
    ensures FairRound(r)
  {
    var n := CountActive(r.active);
    if r.budget >= n {
      assert r.budget / n >= 1;
    } else {
      assert r.budget / n == 0;
    }
  }

  lemma RoundEnds(r: Round, remaining: int, active': seq<bool>)
    requires InRound(r, |r.active|, remaining, active') && r.quota == Quota(r.budget, r.active)
    ensures remaining >= 0 && FairRound(r) && Follows(r, remaining, active')
    ensures remaining + CountActive(active') < r.budget + CountActive(r.active)
  {
    RoundIsFair(r, remaining);
    SomeActive(r.active);
  }

  lemma ShareFits(budget: nat, n: nat)
    requires n > 0
    ensures budget / n * n <= budget
    ensures budget / n >= 1 <==> budget >= n
  {
  }

  lemma StartRound(budget: nat, active: seq<bool>)
    requires budget > 0 && CountActive(active) > 0
    ensures InRound(Round(budget, Quota(budget, active), active, []), 0, budget, active)
  {
    assert active[0..] == active;
    FullSharesIsProduct(Quota(budget, active), active);
    ShareFits(budget, CountActive(active));
  }

  ghost predicate RoundsSoFar(rounds: seq<Round>, maxTotal: nat, remaining: nat, active: seq<bool>) {
    && ValidRounds(rounds, maxTotal, |active|)
    && remaining + |ReadInAll(rounds)| == maxTotal
    && (rounds == [] ==> remaining == maxTotal && active == seq(|active|, i => true))
    && (rounds != [] ==> Follows(rounds[|rounds| - 1], remaining, active))
    && (forall i :: 0 <= i < |active| && !active[i] ==> ShortInSome(rounds, i))
  }

  lemma RoundsSnoc(rounds: seq<Round>, maxTotal: nat, remaining: nat, active: seq<bool>,
                   round: Round, remaining': nat, active': seq<bool>)
    requires RoundsSoFar(rounds, maxTotal, remaining, active)
    requires round.budget == remaining && round.active == active && FairRound(round) && Follows(round, remaining', active')
    ensures RoundsSoFar(rounds + [round], maxTotal, remaining', active')
    ensures ReadInAll(rounds + [round]) == ReadInAll(rounds) + ReadIn(round.events)
  {
    var rounds' := rounds + [round];
    assert rounds'[..|rounds|] == rounds && rounds'[|rounds|] == round;
    forall i | 0 <= i < |active'| && !active'[i] ensures ShortInSome(rounds', i) {
      if active[i] {
        assert ShortIn(rounds'[|rounds|].events, i);
      } else {
        var k :| 0 <= k < |rounds| && ShortIn(rounds[k].events, i);
        assert ShortIn(rounds'[k].events, i);
      }
    }
  }

  /** A round that was read is fair, uses budget or a source, and continues the rounds before it. */
  lemma RoundDone(rounds: seq<Round>, maxTotal: nat, round: Round, responses: seq<Response>, remaining: int, active': seq<bool>)
    requires round.budget > 0 && CountActive(round.active) > 0 && round.quota == Quota(round.budget, round.active)
    requires RoundsSoFar(rounds, maxTotal, round.budget, round.active)
    requires |responses| == |round.active|
    requires Visit(round.budget, round.quota, round.active, responses) == Visited(round.events, remaining, active')
    ensures remaining >= 0 && |active'| == |round.active|
    ensures remaining + CountActive(active') < round.budget + CountActive(round.active)
    ensures RoundsSoFar(rounds + [round], maxTotal, remaining, active')
    ensures ReadInAll(rounds + [round]) == ReadInAll(rounds) + ReadIn(round.events)
  {
    StartRound(round.budget, round.active);
    VisitInRound(round.budget, round.quota, round.active, responses);
    RoundEnds(round, remaining, active');
    RoundsSnoc(rounds, maxTotal, round.budget, round.active, round, remaining, active');
  }

  class LogSourceRegistry {
    const sources: seq<LogSource>

    constructor (sources: seq<LogSource>)
      ensures this.sources == sources
    {
      this.sources := sources;
    }

    ghost predicate Valid()
      reads sources
    {
      && (forall i, j :: 0 <= i < j < |sources| ==> sources[i] != sources[j])
      && (forall i :: 0 <= i < |sources| ==> sources[i].Valid())
    }

    /** What each source has answered so far. */
    ghost function Answered(): (all: seq<seq<Answer>>)
      reads sources
      ensures |all| == |sources| && forall i :: 0 <= i < |sources| ==> all[i] == sources[i].answered
    {
      seq(|sources|, i requires 0 <= i < |sources| reads sources => sources[i].answered)
    }

    /** Reads one source; `events` are the reads since `start`. */
    method ReadSource(i: nat, toRead: nat, ghost start: seq<seq<Answer>>, ghost events: seq<ReadEvent>)
      returns (response: Response, ghost events': seq<ReadEvent>)
      requires Valid() && i < |sources| && Answered() == Grown(start, events)
      modifies sources[i]
      ensures Valid() && Answered() == Grown(start, events')
      ensures events' == events + [ReadEvent(i, toRead, response)]
      ensures response.Entries? ==> |response.entries| <= toRead
    {
      response := sources[i].Read(toRead);
      ghost var event := ReadEvent(i, toRead, response);
      GrownSnoc(start, events, event);
      events' := events + [event];
      assert forall k :: 0 <= k < |sources| && k != i ==> sources[k].answered == old(sources[k].answered);
    }

    /** One pass over the sources with the quota of this round. */
    method ReadRound(active: seq<bool>, budget: nat, quota: nat)
      returns (active': seq<bool>, remaining: int, entries: seq<LogEntry>, ghost events: seq<ReadEvent>, ghost responses: seq<Response>)
      requires Valid() && |active| == |sources| && quota > 0
      modifies sources
      ensures Valid() && Answered() == Grown(old(Answered()), events)
      ensures |responses| == |sources| && entries == ReadIn(events)
      ensures Visit(budget, quota, active, responses) == Visited(events, remaining, active')
    {
      active', remaining, entries, events, responses := active, budget, [], [], [];
      GrownByNothing(Answered());
      for i := 0 to |sources|
        invariant Valid() && Answered() == Grown(old(Answered()), events)
        invariant |responses| == i && entries == ReadIn(events) && remaining >= 0
        invariant Visit(budget, quota, active, responses) == Visited(events, remaining, active')
      {
        var response := Entries([]);
        ghost var visited := Visited(events, remaining, active');
        if active'[i] && remaining > 0 {
          var toRead := Smaller(quota, remaining);
          ghost var before := events;
          response, events := ReadSource(i, toRead, old(Answered()), events);
          ReadInSnoc(before, ReadEvent(i, toRead, response));
          match response
          case Entries(found) =>
            entries := entries + found;
            var count := |found|;
            if count == 0 {
              active' := active'[i := false];
            } else {
              remaining := remaining - count;
              if count < toRead {
                active' := active'[i := false];
              }
            }
          case Failure =>
            active' := active'[i := false];
        }
        VisitNext(budget, quota, active, responses, visited, response);
        responses := responses + [response];
      }
    }

    /** Every entry comes from a source: the reads of each source in the rounds, in order, are exactly what
        it was asked and answered meanwhile. */
    method ReadAll(maxTotal: nat) returns (logs: seq<LogEntry>, ghost rounds: seq<Round>)
      requires Valid()
      modifies sources
      ensures Valid() && Answered() == GrownAll(old(Answered()), rounds)
      ensures logs == Dedup(ReadInAll(rounds)) && ValidRounds(rounds, maxTotal, |sources|)
      ensures |ReadInAll(rounds)| <= maxTotal
      ensures |ReadInAll(rounds)| == maxTotal || forall i :: 0 <= i < |sources| ==> ShortInSome(rounds, i)
    {
      var allLogs: seq<LogEntry> := [];
      var remaining: nat := maxTotal;
      var active := seq(|sources|, i => true);
      rounds := [];
      GrownByNothing(Answered());
      while remaining > 0 && CountActive(active) > 0
        invariant |active| == |sources| && Valid() && Answered() == GrownAll(old(Answered()), rounds)
        invariant RoundsSoFar(rounds, maxTotal, remaining, active) && allLogs == ReadInAll(rounds)
        decreases remaining + CountActive(active)
      {
        var active', remaining', entries;
        ghost var events, responses;
        var quotaPerSource := remaining / CountActive(active);
        var quota := if quotaPerSource >= 1 then quotaPerSource else 1;
        active', remaining', entries, events, responses := ReadRound(active, remaining, quota);
        ghost var round := Round(remaining, quota, active, events);
        RoundDone(rounds, maxTotal, round, responses, remaining', active');
        GrownAllSnoc(old(Answered()), rounds, round);
        rounds := rounds + [round];
        allLogs := allLogs + entries;
        active, remaining := active', remaining';
      }
      SomeActive(active);
      logs := Deduplicate(allLogs);
    }
  }
}
