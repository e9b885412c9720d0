/**
 The chat message store: tool-execution chunks, which may come late, twice, out of order or without
 an id, are merged into the nested messages; approval results flip the status of cards.
 */
module ChatStore {
  import opened Options

  datatype Kind = Executing | Executed

  /** The payload of a tool-execution chunk and of the card it is shown on. */
  datatype ToolData = ToolData(
    kind: Kind,
    executionId: Option<string>,
    toolType: string,
    toolFunction: string,
    title: Option<string>,
    explanation: Option<string>,
    parameters: Option<string>,
    result: Option<string>,
    success: Option<bool>)

  datatype RunStatus = InProgress | Done

  datatype BatchRun = BatchRun(status: RunStatus, result: Option<string>, success: Option<bool>)

  datatype Segment =
    | ToolExecution(data: ToolData)
    | ApprovalBatch(cardId: Option<string>, status: string, resolvedBy: Option<string>,
                    calls: seq<Option<string>>, runs: map<string, BatchRun>)
    | ApprovalRequest(cardId: Option<string>, status: string, resolvedBy: Option<string>)
    | EscalationOffer(cardId: Option<string>, status: string, resolvedBy: Option<string>)
    | OtherSegment(text: string)

  datatype Role = Assistant | User | ErrorRole

  datatype Content = Text(text: string) | Segments(list: seq<Segment>)

  datatype Message = Message(id: string, role: Role, content: Content)

  type Store = seq<Message>

  // ---------------------------------------------------------------------------------------------
  // updateToolExecutionById
  // ---------------------------------------------------------------------------------------------

  /** An id that JavaScript takes for true: an empty one counts as absent. */
  predicate HasId(data: ToolData) {
    data.executionId.Some? && data.executionId.value != ""
  }

  predicate Matches(data: ToolData, segment: Segment) {
    match segment
    case ToolExecution(d) =>
      if HasId(data) then d.executionId == data.executionId
      else d.kind == Executing && d.toolType == data.toolType && d.toolFunction == data.toolFunction
    case ApprovalBatch(_, _, _, calls, _) => HasId(data) && data.executionId in calls
    case _ => false
  }

  /** Only assistant messages with a list of segments are searched. */
  predicate Searched(m: Message) {
    m.role == Assistant && m.content.Segments?
  }

  function FindSegment(list: seq<Segment>, data: ToolData): Option<nat> {
    if list == [] then None
    else if Matches(data, list[|list| - 1]) then Some(|list| - 1)
    else FindSegment(list[..|list| - 1], data)
  }

  /** The newest match: the last one in the last message that has any. */
  function Find(ms: Store, data: ToolData): (found: Option<(nat, nat)>)
  {
    if ms == [] then None else
    var last := ms[|ms| - 1];
    var j := if Searched(last) then FindSegment(last.content.list, data) else None;
    if j.Some? then Some((|ms| - 1, j.value)) else Find(ms[..|ms| - 1], data)
  }

  function LastAssistant(ms: Store): Option<nat> {
    if ms == [] then None
    else if ms[|ms| - 1].role == Assistant then Some(|ms| - 1)
    else LastAssistant(ms[..|ms| - 1])
  }

  lemma {:induction false} LastAssistantIsOne(ms: Store)
    ensures LastAssistant(ms).Some? ==>
              var i := LastAssistant(ms).value;
              i < |ms| && ms[i].role == Assistant && forall k :: i < k < |ms| ==> ms[k].role != Assistant
    ensures LastAssistant(ms).None? ==> forall k :: 0 <= k < |ms| ==> ms[k].role != Assistant
  {
    if ms != [] {
      var prefix := ms[..|ms| - 1];
      LastAssistantIsOne(prefix);
      assert forall k :: 0 <= k < |prefix| ==> prefix[k] == ms[k];
    }
  }

  predicate Position(ms: Store, i: int, j: int) {
    0 <= i < |ms| && Searched(ms[i]) && 0 <= j < |ms[i].content.list|
  }

  function SegmentAt(ms: Store, i: int, j: int): Segment
    requires Position(ms, i, j)
  {
    ms[i].content.list[j]
  }

  predicate MatchesAt(ms: Store, data: ToolData, i: int, j: int) {
    Position(ms, i, j) && Matches(data, ms[i].content.list[j])
  }

  lemma {:induction false} FindSegmentIsNewest(list: seq<Segment>, data: ToolData)
    ensures FindSegment(list, data).Some? ==>
              var j := FindSegment(list, data).value;
              j < |list| && Matches(data, list[j]) && forall l :: j < l < |list| ==> !Matches(data, list[l])
    ensures FindSegment(list, data).None? ==> forall l :: 0 <= l < |list| ==> !Matches(data, list[l])
  {
    if list != [] {
      var prefix := list[..|list| - 1];
      FindSegmentIsNewest(prefix, data);
      assert forall l :: 0 <= l < |prefix| ==> prefix[l] == list[l];
    }
  }

  /** The search finds a match whenever there is one, and none comes after it. */
  lemma {:induction false} FindIsNewest(ms: Store, data: ToolData)
    ensures Find(ms, data).Some? ==>
              var (i, j) := Find(ms, data).value;
              MatchesAt(ms, data, i, j) && forall k, l :: MatchesAt(ms, data, k, l) ==> k < i || (k == i && l <= j)
    ensures Find(ms, data).None? ==> forall k, l :: !MatchesAt(ms, data, k, l)
  {
    if ms != [] {
      var n := |ms| - 1;
      FindIsNewest(ms[..n], data);
      if Searched(ms[n]) {
        FindSegmentIsNewest(ms[n].content.list, data);
      }
      assert forall k, l :: k < n ==> (MatchesAt(ms, data, k, l) <==> MatchesAt(ms[..n], data, k, l));
    }
  }

  /** The matched segment after the merge; a finished run is never taken back to executing. */
  function Merge(segment: Segment, data: ToolData): Segment
    requires Matches(data, segment)
  {
    match segment
    case ToolExecution(d) =>
      if data.kind == Executing && d.kind == Executed then
        segment
      else
        ToolExecution(data.(
          title := data.title.Or(d.title),
          explanation := data.explanation.Or(d.explanation),
          parameters := data.parameters.Or(d.parameters)))
    case ApprovalBatch(_, _, _, _, runs) =>
      var id := data.executionId.value;
      var previous := if id in runs then Some(runs[id]) else None;
      if data.kind == Executing && previous.Some? && previous.value.status == Done then
        segment
      else
        segment.(runs := runs[id := if data.kind == Executed then
                                      BatchRun(Done, data.result, data.success)
                                    else if previous.Some? then
                                      previous.value.(status := InProgress)
                                    else
                                      BatchRun(InProgress, None, None)])
  }

  function SetSegment(ms: Store, i: nat, j: nat, segment: Segment): Store
    requires i < |ms| && ms[i].content.Segments? && j < |ms[i].content.list|
  {
    ms[i := ms[i].(content := Segments(ms[i].content.list[j := segment]))]
  }

  function ListOf(content: Content): seq<Segment> {
    if content.Segments? then content.list else []
  }

  function Append(ms: Store, data: ToolData, freshId: string): Store {
    var card := ToolExecution(data);
    match LastAssistant(ms)
    case Some(i) => LastAssistantIsOne(ms); ms[i := ms[i].(content := Segments(ListOf(ms[i].content) + [card]))]
    case None => ms + [Message(freshId, Assistant, Segments([card]))]
  }

  function UpdateTool(ms: Store, data: ToolData, freshId: string): Store {
    match Find(ms, data)
    case Some((i, j)) => FindIsNewest(ms, data); SetSegment(ms, i, j, Merge(ms[i].content.list[j], data))
    case None => Append(ms, data, freshId)
  }

  // ---------------------------------------------------------------------------------------------
  // updateApprovalStatusById
  // ---------------------------------------------------------------------------------------------

  /** Approval requests, approval batches and escalation offers share one id space. */
  predicate IsCard(segment: Segment) {
    segment.ApprovalRequest? || segment.ApprovalBatch? || segment.EscalationOffer?
  }

  function ApproveSegment(segment: Segment, requestId: string, status: string, name: Option<string>): Segment {
    if IsCard(segment) && segment.cardId == Some(requestId) then
      segment.(status := status, resolvedBy := name.Or(segment.resolvedBy))
    else
      segment
  }

  function ApproveMessage(m: Message, requestId: string, status: string, name: Option<string>): Message {
    if !Searched(m) then m else
    var list := m.content.list;
    m.(content := Segments(seq(|list|, j requires 0 <= j < |list| => ApproveSegment(list[j], requestId, status, name))))
  }

  function UpdateApproval(ms: Store, requestId: string, status: string, name: Option<string>): Store {
    seq(|ms|, i requires 0 <= i < |ms| => ApproveMessage(ms[i], requestId, status, name))
  }

  /** `after` differs from `before` in the cards with this id alone: each of them has the new status, and the
      new name if there is one. */
  ghost predicate CardsApproved(before: Store, after: Store, requestId: string, status: string, name: Option<string>) {
    && |after| == |before|
    && (forall i :: 0 <= i < |before| ==>
          after[i].id == before[i].id && after[i].role == before[i].role && (!(before[i].role == Assistant && before[i].content.Segments?) ==> after[i] == before[i]))
    && (forall i :: 0 <= i < |before| && before[i].role == Assistant && before[i].content.Segments? ==>
          after[i].content.Segments? && |after[i].content.list| == |before[i].content.list|)
    && (forall i, j :: (0 <= i < |before| && before[i].role == Assistant && before[i].content.Segments? && 0 <= j < |before[i].content.list|) ==>
          var was, becomes := before[i].content.list[j], after[i].content.list[j];
          if (was.ApprovalRequest? || was.ApprovalBatch? || was.EscalationOffer?) && was.cardId == Some(requestId) then
            becomes == was.(status := status, resolvedBy := if name.Some? then name else was.resolvedBy)
          else becomes == was)
  }

  lemma SameSegments(before: Store, after: Store, requestId: string, status: string, name: Option<string>, i: nat)
    requires CardsApproved(before, after, requestId, status, name) && i < |before| && Searched(before[i])
    ensures after[i] == ApproveMessage(before[i], requestId, status, name)
  {
    var list := before[i].content.list;
    forall j | 0 <= j < |list| ensures after[i].content.list[j] == ApproveSegment(list[j], requestId, status, name) {
      assert Position(before, i, j);
    }
  }

  /** Approving changes the cards with the id and nothing else, and that determines the result. */
  lemma ApprovalChangesItsCards(before: Store, after: Store, requestId: string, status: string, name: Option<string>)
    ensures after == UpdateApproval(before, requestId, status, name)
            <==> CardsApproved(before, after, requestId, status, name)
  {
    var approved := UpdateApproval(before, requestId, status, name);
    if CardsApproved(before, after, requestId, status, name) {
      forall i | 0 <= i < |before| ensures after[i] == approved[i] {
        if Searched(before[i]) {
          SameSegments(before, after, requestId, status, name, i);
        }
      }
    }
  }

  // ---------------------------------------------------------------------------------------------
  // The hook's state
  // ---------------------------------------------------------------------------------------------

  class ChatMessages {
    var messages: Store

    method UpdateToolExecutionById(data: ToolData, freshId: string)
      modifies this
      ensures messages == UpdateTool(old(messages), data, freshId)
    {
      var found, msgIdx, segIdx := FindNewest(data);
      if found {
        FindIsNewest(messages, data);
        var message := messages[msgIdx];
        var nextContent := message.content.list[segIdx := Merge(message.content.list[segIdx], data)];
        messages := messages[msgIdx := message.(content := Segments(nextContent))];
        return;
      }
      ghost var before := messages;
      LastAssistantIsOne(before);
      var i := |messages|;
      while i > 0
        invariant 0 <= i <= |before| && messages == before
        invariant forall k :: i <= k < |before| ==> before[k].role != Assistant
      {
        i := i - 1;
        if messages[i].role == Assistant {
          var existing := if messages[i].content.Segments? then messages[i].content.list else [];
          messages := messages[i := messages[i].(content := Segments(existing + [ToolExecution(data)]))];
          return;
        }
      }
      messages := messages + [Message(freshId, Assistant, Segments([ToolExecution(data)]))];
    }

    method FindNewest(data: ToolData) returns (found: bool, msgIdx: int, segIdx: int)
      ensures found <==> Find(messages, data).Some?
      ensures found ==> msgIdx >= 0 && segIdx >= 0 && Find(messages, data) == Some((msgIdx, segIdx))
    {
      FindIsNewest(messages, data);
      var i := |messages|;
      while i > 0
        invariant 0 <= i <= |messages|
        invariant forall k, l :: i <= k ==> !MatchesAt(messages, data, k, l)
      {
        i := i - 1;
        if messages[i].role == Assistant && messages[i].content.Segments? {
          var content := messages[i].content.list;
          var j := |content|;
          while j > 0
            invariant 0 <= j <= |content|
            invariant forall l :: j <= l < |content| ==> !Matches(data, content[l])
          {
            j := j - 1;
            if Matches(data, content[j]) {
              assert MatchesAt(messages, data, i, j);
              ghost var (p, q) := Find(messages, data).value;
              assert MatchesAt(messages, data, p, q);
              return true, i, j;
            }
          }
        }
      }
      return false, -1, -1;
    }

    method UpdateApprovalStatusById(requestId: string, status: string, name: Option<string>)
      modifies this
      ensures CardsApproved(old(messages), messages, requestId, status, name)
    {
      ghost var before := messages;
      messages := UpdateApproval(messages, requestId, status, name);
      ApprovalChangesItsCards(before, messages, requestId, status, name);
    }
  }

  // ---------------------------------------------------------------------------------------------
  // One update at a time
  // ---------------------------------------------------------------------------------------------

  /** The chunk is for this segment: with an id, for the card or the batch with that id; without one, for a
      running card of the same tool.  An empty id is none. */
  ghost predicate IsFor(ms: Store, data: ToolData, i: int, j: int) {
    && 0 <= i < |ms| && ms[i].role == Assistant && ms[i].content.Segments? && 0 <= j < |ms[i].content.list|
    && var segment := ms[i].content.list[j];
       if data.executionId.Some? && data.executionId != Some("") then
         || (segment.ToolExecution? && segment.data.executionId == data.executionId)
         || (segment.ApprovalBatch? && data.executionId in segment.calls)
       else
         && segment.ToolExecution? && segment.data.kind == Executing
         && segment.data.toolType == data.toolType && segment.data.toolFunction == data.toolFunction
  }

  lemma IsForMatches(ms: Store, data: ToolData, i: int, j: int)
    ensures IsFor(ms, data, i, j) <==> MatchesAt(ms, data, i, j)
  {
  }

  function Given(new_: Option<string>, old_: Option<string>): Option<string> {
    if new_.Some? then new_ else old_
  }

  /** A card after a chunk: unchanged if that would take a finished run back; otherwise the chunk's data, with
      the title, explanation and parameters it had if the chunk brings none. */
  predicate CardTakes(before: ToolData, data: ToolData, after: ToolData) {
    if data.kind == Executing && before.kind == Executed then after == before
    else
      && after.kind == data.kind && after.executionId == data.executionId
      && after.toolType == data.toolType && after.toolFunction == data.toolFunction
      && after.result == data.result && after.success == data.success
      && after.title == Given(data.title, before.title)
      && after.explanation == Given(data.explanation, before.explanation)
      && after.parameters == Given(data.parameters, before.parameters)
  }

  /** The run of a batch after a chunk for it: done with the chunk's result and success, or in progress with
      what it had, unless it was done. */
  predicate RunTakes(before: Option<BatchRun>, data: ToolData, after: BatchRun) {
    if data.kind == Executed then
      after.status == Done && after.result == data.result && after.success == data.success
    else if before.None? then
      after.status == InProgress && after.result == None && after.success == None
    else if before.value.status == Done then
      after == before.value
    else
      after.status == InProgress && after.result == before.value.result && after.success == before.value.success
  }

  function RunAt(runs: map<string, BatchRun>, x: string): Option<BatchRun> {
    if x in runs then Some(runs[x]) else None
  }

  /** A segment after a chunk that is for it.  Of a batch only the run with the chunk's id changes. */
  ghost predicate Takes(before: Segment, data: ToolData, after: Segment) {
    || (before.ToolExecution? && after.ToolExecution? && CardTakes(before.data, data, after.data))
    || (&& before.ApprovalBatch? && after.ApprovalBatch? && data.executionId.Some?
        && after.cardId == before.cardId && after.status == before.status
        && after.resolvedBy == before.resolvedBy && after.calls == before.calls
        && (forall x :: x != data.executionId.value ==> RunAt(after.runs, x) == RunAt(before.runs, x))
        && data.executionId.value in after.runs
        && RunTakes(RunAt(before.runs, data.executionId.value), data, after.runs[data.executionId.value]))
  }

  lemma MergeTakes(segment: Segment, data: ToolData)
    requires Matches(data, segment)
    ensures Takes(segment, data, Merge(segment, data))
  {
  }

  /** `after` is `before` with one segment of one message replaced. */
  ghost predicate OneSegmentReplaced(before: Store, after: Store, i: int, j: int) {
    && Position(before, i, j) && |after| == |before|
    && after[i].id == before[i].id && after[i].role == Assistant && after[i].content.Segments?
    && |after[i].content.list| == |before[i].content.list|
    && (forall k :: 0 <= k < |before| && k != i ==> after[k] == before[k])
    && (forall l :: 0 <= l < |before[i].content.list| && l != j ==> after[i].content.list[l] == before[i].content.list[l])
  }

  /** `after` is `before` with one card appended to one message; text content gives way to it. */
  ghost predicate OneSegmentAppended(before: Store, after: Store, i: int, data: ToolData) {
    && 0 <= i < |before| && before[i].role == Assistant
    && |after| == |before| && (forall k :: 0 <= k < |before| && k != i ==> after[k] == before[k])
    && after[i].id == before[i].id && after[i].role == Assistant && after[i].content.Segments?
    && after[i].content.list ==
         (if before[i].content.Segments? then before[i].content.list else []) + [ToolExecution(data)]
  }

  ghost predicate OneMessageAppended(before: Store, after: Store, data: ToolData, freshId: string) {
    after == before + [Message(freshId, Assistant, Segments([ToolExecution(data)]))]
  }

  /** Every update replaces the newest segment the chunk is for by what that takes from it, or, only if it is
      for none, appends one card to the last assistant message, or, only if there is none, one message. */
  lemma UpdateTouchesOnePlace(ms: Store, data: ToolData, freshId: string)
    ensures var ms' := UpdateTool(ms, data, freshId);
            || (exists i, j ::
                  && IsFor(ms, data, i, j) && (forall k, l :: IsFor(ms, data, k, l) ==> k < i || (k == i && l <= j))
                  && OneSegmentReplaced(ms, ms', i, j)
                  && Takes(ms[i].content.list[j], data, ms'[i].content.list[j]))
            || ((forall i, j :: !IsFor(ms, data, i, j))
                && exists i :: OneSegmentAppended(ms, ms', i, data) && forall k :: i < k < |ms| ==> ms[k].role != Assistant)
            || ((forall i, j :: !IsFor(ms, data, i, j))
                && (forall k :: 0 <= k < |ms| ==> ms[k].role != Assistant)
                && OneMessageAppended(ms, ms', data, freshId))
  {
    FindIsNewest(ms, data);
    LastAssistantIsOne(ms);
    forall i, j ensures IsFor(ms, data, i, j) <==> MatchesAt(ms, data, i, j) {
      IsForMatches(ms, data, i, j);
    }
    var ms' := UpdateTool(ms, data, freshId);
    match Find(ms, data)
    case Some((i, j)) =>
      MergeTakes(ms[i].content.list[j], data);
      assert IsFor(ms, data, i, j) && OneSegmentReplaced(ms, ms', i, j);
      assert Takes(ms[i].content.list[j], data, ms'[i].content.list[j]);
    case None =>
      if LastAssistant(ms).Some? {
        assert OneSegmentAppended(ms, ms', LastAssistant(ms).value, data);
      }
  }

  /** The one place an update touches, as seen by position: all other segments stay where they are. */
  lemma UpdatedPlace(ms: Store, data: ToolData, freshId: string) returns (i: int, j: int)
    ensures var ms' := UpdateTool(ms, data, freshId);
            && Position(ms', i, j)
            && (forall k, l :: k != i || l != j ==> (Position(ms', k, l) <==> Position(ms, k, l)))
            && (forall k, l :: (k != i || l != j) && Position(ms, k, l) ==> SegmentAt(ms', k, l) == SegmentAt(ms, k, l))
            && (if exists k, l :: MatchesAt(ms, data, k, l) then
                  && Find(ms, data) == Some((i, j)) && MatchesAt(ms, data, i, j)
                  && SegmentAt(ms', i, j) == Merge(SegmentAt(ms, i, j), data)
                else
                  !Position(ms, i, j) && SegmentAt(ms', i, j) == ToolExecution(data))
  {
    FindIsNewest(ms, data);
    LastAssistantIsOne(ms);
    match Find(ms, data)
    case Some((k, l)) =>
      assert MatchesAt(ms, data, k, l);
      i, j := k, l;
    case None =>
      i := if LastAssistant(ms).Some? then LastAssistant(ms).value else |ms|;
      j := if i < |ms| then |ListOf(ms[i].content)| else 0;
  }

  lemma FindUnique(ms: Store, data: ToolData, i: int, j: int)
    requires MatchesAt(ms, data, i, j)
    requires forall k, l :: MatchesAt(ms, data, k, l) ==> k < i || (k == i && l <= j)
    ensures Find(ms, data) == Some((i, j))
  {
    FindIsNewest(ms, data);
    var (k, l) := Find(ms, data).value;
    assert MatchesAt(ms, data, k, l);
  }

  lemma MergeTwice(segment: Segment, data: ToolData)
    requires HasId(data) || data.kind == Executing
    requires Matches(data, segment)
    ensures Matches(data, Merge(segment, data))
    ensures Merge(Merge(segment, data), data) == Merge(segment, data)
  {
  }

  lemma RedeliveryActs(ms: Store, data: ToolData, freshId: string, freshId': string)
    requires HasId(data) || data.kind == Executing
    ensures var once := UpdateTool(ms, data, freshId); UpdateTool(once, data, freshId') == once
  {
    var once := UpdateTool(ms, data, freshId);
    var i, j := UpdatedPlace(ms, data, freshId);
    FindIsNewest(ms, data);
    assert forall k, l :: (k != i || l != j) && MatchesAt(once, data, k, l) ==> MatchesAt(ms, data, k, l);
    if exists k, l :: MatchesAt(ms, data, k, l) {
      MergeTwice(SegmentAt(ms, i, j), data);
    } else {
      assert Merge(ToolExecution(data), data) == ToolExecution(data);
    }
    FindUnique(once, data, i, j);
    var list := once[i].content.list;
    assert list[j := list[j]] == list && once[i := once[i]] == once;
  }

  lemma RedeliveryChanges(ms: Store, data: ToolData, freshId: string, freshId': string)
    requires !HasId(data) && data.kind == Executed
    ensures var once := UpdateTool(ms, data, freshId); UpdateTool(once, data, freshId') != once
  {
    var once := UpdateTool(ms, data, freshId);
    var k, l := UpdatedPlace(once, data, freshId');
  }

  /** A redelivered chunk changes nothing the second time, unless it is an EXECUTED chunk without an
      id: that one takes over another running card of the same tool, or appends a second card. */
  lemma RedeliveryIsIdempotent(ms: Store, data: ToolData, freshId: string, freshId': string)
    ensures var once := UpdateTool(ms, data, freshId);
            UpdateTool(once, data, freshId') == once
            <==> (data.executionId.Some? && data.executionId != Some("")) || data.kind == Executing
  {
    if HasId(data) || data.kind == Executing {
      RedeliveryActs(ms, data, freshId, freshId');
    } else {
      RedeliveryChanges(ms, data, freshId, freshId');
    }
  }

  // ---------------------------------------------------------------------------------------------
  // Any sequence of updates
  // ---------------------------------------------------------------------------------------------

  datatype Action = Chunk(data: ToolData, freshId: string) | Approve(requestId: string, status: string, name: Option<string>)

  function Apply(ms: Store, action: Action): Store {
    match action
    case Chunk(data, freshId) => UpdateTool(ms, data, freshId)
    case Approve(requestId, status, name) => UpdateApproval(ms, requestId, status, name)
  }

  function ApplyAll(ms: Store, actions: seq<Action>): Store {
    if actions == [] then ms else Apply(ApplyAll(ms, actions[..|actions| - 1]), actions[|actions| - 1])
  }

  /** The run `x` is shown on this segment. */
  predicate Holds(segment: Segment, x: string) {
    match segment
    case ToolExecution(d) => d.executionId == Some(x)
    case ApprovalBatch(_, _, _, calls, _) => Some(x) in calls
    case _ => false
  }

  predicate ShowsDone(segment: Segment, x: string) {
    && Holds(segment, x)
    && if segment.ToolExecution? then segment.data.kind == Executed
       else x in segment.runs && segment.runs[x].status == Done
  }

  ghost predicate HeldAt(ms: Store, x: string, i: int, j: int) {
    Position(ms, i, j) && Holds(SegmentAt(ms, i, j), x)
  }

  ghost predicate DoneAt(ms: Store, x: string, i: int, j: int) {
    Position(ms, i, j) && ShowsDone(SegmentAt(ms, i, j), x)
  }

  ghost predicate ShownDone(ms: Store, x: string) {
    exists i, j :: DoneAt(ms, x, i, j)
  }

  ghost predicate Held(ms: Store, x: string) {
    exists i, j :: HeldAt(ms, x, i, j)
  }

  ghost predicate HeldAtMostOnce(ms: Store, x: string) {
    forall i, j, k, l :: HeldAt(ms, x, i, j) && HeldAt(ms, x, k, l) ==> i == k && j == l
  }

  predicate Finishes(action: Action, x: string) {
    action.Chunk? && action.data.kind == Executed && action.data.executionId == Some(x)
  }

  ghost predicate Finished(actions: seq<Action>, x: string) {
    exists k :: 0 <= k < |actions| && Finishes(actions[k], x)
  }

  lemma FinishedSnoc(actions: seq<Action>, action: Action, x: string)
    ensures Finished(actions + [action], x) <==> Finished(actions, x) || Finishes(action, x)
  {
    var all := actions + [action];
    assert all[|actions|] == action;
    if Finished(actions, x) {
      var k :| 0 <= k < |actions| && Finishes(actions[k], x);
      assert all[k] == actions[k];
    }
  }

  lemma MergeShows(segment: Segment, data: ToolData, x: string)
    requires Matches(data, segment) && x != ""
    ensures Holds(Merge(segment, data), x) ==> Holds(segment, x)
    ensures data.executionId == Some(x) ==> Holds(Merge(segment, data), x)
    ensures ShowsDone(Merge(segment, data), x) <==>
            ShowsDone(segment, x) || (data.kind == Executed && data.executionId == Some(x))
  {
  }

  lemma ChunkStep(ms: Store, data: ToolData, freshId: string, x: string)
    requires x != ""
    ensures var ms' := UpdateTool(ms, data, freshId);
            && (ShownDone(ms', x) <==> ShownDone(ms, x) || Finishes(Chunk(data, freshId), x))
            && (HeldAtMostOnce(ms, x) ==> HeldAtMostOnce(ms', x))
            && (data.executionId == Some(x) ==> Held(ms', x))
            && (HasId(data) && Held(ms, x) ==> Held(ms', x))
  {
    var ms' := UpdateTool(ms, data, freshId);
    var i, j := UpdatedPlace(ms, data, freshId);
    if MatchesAt(ms, data, i, j) {
      MergeShows(SegmentAt(ms, i, j), data, x);
      assert HeldAt(ms', x, i, j) ==> HeldAt(ms, x, i, j);
    } else if data.executionId == Some(x) {
      assert forall k, l :: HeldAt(ms, x, k, l) ==> MatchesAt(ms, data, k, l);
    }
    assert forall k, l :: k != i || l != j ==> (HeldAt(ms', x, k, l) <==> HeldAt(ms, x, k, l));
    assert forall k, l :: k != i || l != j ==> (DoneAt(ms', x, k, l) <==> DoneAt(ms, x, k, l));
    assert DoneAt(ms', x, i, j) <==> DoneAt(ms, x, i, j) || Finishes(Chunk(data, freshId), x);
    assert HasId(data) && HeldAt(ms, x, i, j) ==> HeldAt(ms', x, i, j);
    assert data.executionId == Some(x) ==> HeldAt(ms', x, i, j);
  }

  lemma ApprovalStep(ms: Store, requestId: string, status: string, name: Option<string>, x: string)
    ensures var ms' := UpdateApproval(ms, requestId, status, name);
            && (ShownDone(ms', x) <==> ShownDone(ms, x))
            && (HeldAtMostOnce(ms', x) <==> HeldAtMostOnce(ms, x))
            && (Held(ms', x) <==> Held(ms, x))
  {
    var ms' := UpdateApproval(ms, requestId, status, name);
    assert forall k, l :: HeldAt(ms', x, k, l) <==> HeldAt(ms, x, k, l);
    assert forall k, l :: DoneAt(ms', x, k, l) <==> DoneAt(ms, x, k, l);
  }

  /** In any mix of chunks and approvals, whatever their order: a run is shown as done exactly when it
      was to begin with or its EXECUTED chunk was applied, and it never gets a second card. */
  lemma {:induction false} DoneExactlyWhenFinished(ms: Store, actions: seq<Action>, x: string)
    requires x != ""
    ensures ShownDone(ApplyAll(ms, actions), x) <==> ShownDone(ms, x) || Finished(actions, x)
    ensures HeldAtMostOnce(ms, x) ==> HeldAtMostOnce(ApplyAll(ms, actions), x)
  {
    if actions != [] {
      var n := |actions| - 1;
      var prefix := actions[..n];
      DoneExactlyWhenFinished(ms, prefix, x);
      match actions[n] {
        case Chunk(data, freshId) => ChunkStep(ApplyAll(ms, prefix), data, freshId, x);
        case Approve(requestId, status, name) => ApprovalStep(ApplyAll(ms, prefix), requestId, status, name, x);
      }
      FinishedSnoc(prefix, actions[n], x);
      assert actions == prefix + [actions[n]];
    }
  }

  /** A run that has a chunk with an id stays visible as long as every later chunk carries an id. */
  lemma {:induction false} VisibleUnlessSwallowed(ms: Store, actions: seq<Action>, x: string)
    requires x != "" && Held(ms, x)
    requires forall k :: 0 <= k < |actions| && actions[k].Chunk? ==> HasId(actions[k].data)
    ensures Held(ApplyAll(ms, actions), x)
  {
    if actions != [] {
      var n := |actions| - 1;
      var prefix := actions[..n];
      assert forall k :: 0 <= k < n ==> prefix[k] == actions[k];
      VisibleUnlessSwallowed(ms, prefix, x);
      match actions[n] {
        case Chunk(data, freshId) => ChunkStep(ApplyAll(ms, prefix), data, freshId, x);
        case Approve(requestId, status, name) => ApprovalStep(ApplyAll(ms, prefix), requestId, status, name, x);
      }
    }
  }

  // ---------------------------------------------------------------------------------------------
  // What a run shows
  // ---------------------------------------------------------------------------------------------

  datatype Outcome = Outcome(result: Option<string>, success: Option<bool>)

  function OutcomeOf(segment: Segment, x: string): Outcome {
    if segment.ToolExecution? then Outcome(segment.data.result, segment.data.success)
    else if segment.ApprovalBatch? && x in segment.runs then Outcome(segment.runs[x].result, segment.runs[x].success)
    else Outcome(None, None)
  }

  function OutcomeAfter(data: ToolData, x: string, before: Outcome): Outcome {
    if data.kind == Executed && data.executionId == Some(x) then Outcome(data.result, data.success) else before
  }

  /** The outcome that the last EXECUTED chunk for `x` brought, or else `start`. */
  function LastOutcome(actions: seq<Action>, x: string, start: Outcome): Outcome {
    if actions == [] then start
    else
      var last := actions[|actions| - 1];
      var before := LastOutcome(actions[..|actions| - 1], x, start);
      if last.Chunk? then OutcomeAfter(last.data, x, before) else before
  }

  ghost predicate DoneWith(ms: Store, x: string, outcome: Outcome) {
    forall i, j :: DoneAt(ms, x, i, j) ==> OutcomeOf(SegmentAt(ms, i, j), x) == outcome
  }

  lemma MergeOutcome(segment: Segment, data: ToolData, x: string)
    requires Matches(data, segment) && ShowsDone(Merge(segment, data), x) && x != ""
    ensures OutcomeOf(Merge(segment, data), x) == OutcomeAfter(data, x, OutcomeOf(segment, x))
  {
  }

  /** A chunk with an id leaves its run at the place it touches, and nowhere else. */
  lemma OnlyPlace(ms: Store, data: ToolData, freshId: string, x: string, i: int, j: int)
    requires x != "" && HeldAtMostOnce(ms, x) && data.executionId == Some(x)
    requires var ms' := UpdateTool(ms, data, freshId);
             && Position(ms', i, j)
             && (if exists k, l :: MatchesAt(ms, data, k, l) then
                   MatchesAt(ms, data, i, j) && SegmentAt(ms', i, j) == Merge(SegmentAt(ms, i, j), data)
                 else SegmentAt(ms', i, j) == ToolExecution(data))
    ensures forall k, l :: HeldAt(UpdateTool(ms, data, freshId), x, k, l) ==> k == i && l == j
  {
    var ms' := UpdateTool(ms, data, freshId);
    ChunkStep(ms, data, freshId, x);
    if MatchesAt(ms, data, i, j) {
      MergeShows(SegmentAt(ms, i, j), data, x);
    }
    assert HeldAt(ms', x, i, j);
  }

  lemma OutcomeStep(ms: Store, data: ToolData, freshId: string, x: string, start: Outcome)
    requires x != "" && HeldAtMostOnce(ms, x) && DoneWith(ms, x, start)
    ensures DoneWith(UpdateTool(ms, data, freshId), x, OutcomeAfter(data, x, start))
  {
    var ms' := UpdateTool(ms, data, freshId);
    var i, j := UpdatedPlace(ms, data, freshId);
    ChunkStep(ms, data, freshId, x);
    forall k, l | DoneAt(ms', x, k, l)
      ensures OutcomeOf(SegmentAt(ms', k, l), x) == OutcomeAfter(data, x, start)
    {
      assert HeldAt(ms', x, k, l);
      if k != i || l != j {
        assert DoneAt(ms, x, k, l) && HeldAt(ms, x, k, l);
        if data.executionId == Some(x) {
          OnlyPlace(ms, data, freshId, x, i, j);
        }
      } else if MatchesAt(ms, data, i, j) {
        MergeOutcome(SegmentAt(ms, i, j), data, x);
        MergeShows(SegmentAt(ms, i, j), data, x);
        assert !Finishes(Chunk(data, freshId), x) ==> DoneAt(ms, x, i, j);
      }
    }
  }

  lemma ApprovalOutcome(ms: Store, requestId: string, status: string, name: Option<string>, x: string, start: Outcome)
    requires DoneWith(ms, x, start)
    ensures DoneWith(UpdateApproval(ms, requestId, status, name), x, start)
  {
    var ms' := UpdateApproval(ms, requestId, status, name);
    forall i, j | DoneAt(ms', x, i, j) ensures OutcomeOf(SegmentAt(ms', i, j), x) == start {
      assert DoneAt(ms, x, i, j);
      assert OutcomeOf(SegmentAt(ms', i, j), x) == OutcomeOf(SegmentAt(ms, i, j), x);
    }
  }

  /** After any mix of chunks and approvals, a run that is shown as done shows the result and the success that
      the last EXECUTED chunk for it brought, on a card of its own or in a batch. */
  lemma {:induction false} DoneShowsLastOutcome(ms: Store, actions: seq<Action>, x: string, start: Outcome)
    requires x != "" && HeldAtMostOnce(ms, x) && DoneWith(ms, x, start)
    ensures DoneWith(ApplyAll(ms, actions), x, LastOutcome(actions, x, start))
    decreases |actions|
  {
    if actions != [] {
      var prefix, last := actions[..|actions| - 1], actions[|actions| - 1];
      DoneShowsLastOutcome(ms, prefix, x, start);
      DoneExactlyWhenFinished(ms, prefix, x);
      var before, so := ApplyAll(ms, prefix), LastOutcome(prefix, x, start);
      if last.Chunk? {
        OutcomeStep(before, last.data, last.freshId, x, so);
      } else {
        ApprovalOutcome(before, last.requestId, last.status, last.name, x, so);
      }
    }
  }

  /** The chunks for `x` that count: an EXECUTING one does not once the run has been finished. */
  function Heeded(actions: seq<Action>, x: string): seq<ToolData> {
    if actions == [] then []
    else
      var before, last := Heeded(actions[..|actions| - 1], x), actions[|actions| - 1];
      if last.Chunk? && last.data.executionId == Some(x)
         && !(last.data.kind == Executing && before != [] && before[|before| - 1].kind == Executed)
      then before + [last.data] else before
  }

  function LastGiven(values: seq<Option<string>>): Option<string> {
    if values == [] then None else Given(values[|values| - 1], LastGiven(values[..|values| - 1]))
  }

  function Titles(chunks: seq<ToolData>): seq<Option<string>> { seq(|chunks|, i requires 0 <= i < |chunks| => chunks[i].title) }

  function Explanations(chunks: seq<ToolData>): seq<Option<string>> { seq(|chunks|, i requires 0 <= i < |chunks| => chunks[i].explanation) }

  function Parameters(chunks: seq<ToolData>): seq<Option<string>> { seq(|chunks|, i requires 0 <= i < |chunks| => chunks[i].parameters) }

  /** What a card shows: the last chunk that counted, with the last title, explanation and parameters that any
      of them gave. */
  predicate ShowsChunks(data: ToolData, chunks: seq<ToolData>) {
    && chunks != []
    && var last := chunks[|chunks| - 1];
       && data.kind == last.kind && data.executionId == last.executionId
       && data.toolType == last.toolType && data.toolFunction == last.toolFunction
       && data.result == last.result && data.success == last.success
       && data.title == LastGiven(Titles(chunks))
       && data.explanation == LastGiven(Explanations(chunks))
       && data.parameters == LastGiven(Parameters(chunks))
  }

  /** Wherever the run is shown, it is a card that shows these chunks. */
  ghost predicate CardsShow(ms: Store, x: string, chunks: seq<ToolData>) {
    && (Held(ms, x) <==> chunks != [])
    && forall i, j :: HeldAt(ms, x, i, j) ==>
         SegmentAt(ms, i, j).ToolExecution? && ShowsChunks(SegmentAt(ms, i, j).data, chunks)
  }

  lemma GivenSnoc(values: seq<Option<string>>, value: Option<string>)
    ensures LastGiven(values + [value]) == Given(value, LastGiven(values))
  {
    assert (values + [value])[..|values|] == values;
  }

  lemma ShowsSnoc(before: ToolData, chunks: seq<ToolData>, data: ToolData, after: ToolData)
    requires chunks == [] || ShowsChunks(before, chunks)
    requires if chunks == [] then after == data
             else CardTakes(before, data, after) && !(data.kind == Executing && before.kind == Executed)
    ensures ShowsChunks(after, chunks + [data])
  {
    var all := chunks + [data];
    GivenSnoc(Titles(chunks), data.title);
    GivenSnoc(Explanations(chunks), data.explanation);
    GivenSnoc(Parameters(chunks), data.parameters);
    assert Titles(all) == Titles(chunks) + [data.title];
    assert Explanations(all) == Explanations(chunks) + [data.explanation];
    assert Parameters(all) == Parameters(chunks) + [data.parameters];
  }

  function HeededNext(chunks: seq<ToolData>, data: ToolData): seq<ToolData> {
    if data.kind == Executing && chunks != [] && chunks[|chunks| - 1].kind == Executed then chunks else chunks + [data]
  }

  lemma CardStepOwn(ms: Store, data: ToolData, freshId: string, x: string, chunks: seq<ToolData>, i: int, j: int)
    requires x != "" && HeldAtMostOnce(ms, x) && CardsShow(ms, x, chunks) && data.executionId == Some(x)
    requires var ms' := UpdateTool(ms, data, freshId);
             && Position(ms', i, j)
             && (if exists k, l :: MatchesAt(ms, data, k, l) then
                   MatchesAt(ms, data, i, j) && SegmentAt(ms', i, j) == Merge(SegmentAt(ms, i, j), data)
                 else SegmentAt(ms', i, j) == ToolExecution(data))
    ensures CardsShow(UpdateTool(ms, data, freshId), x, HeededNext(chunks, data))
  {
    var ms' := UpdateTool(ms, data, freshId);
    OnlyPlace(ms, data, freshId, x, i, j);
    ChunkStep(ms, data, freshId, x);
    if exists k, l :: MatchesAt(ms, data, k, l) {
      assert HeldAt(ms, x, i, j);
      var before := SegmentAt(ms, i, j).data;
      MergeTakes(SegmentAt(ms, i, j), data);
      if !(data.kind == Executing && before.kind == Executed) {
        ShowsSnoc(before, chunks, data, SegmentAt(ms', i, j).data);
      }
    } else {
      forall k, l ensures !HeldAt(ms, x, k, l) {
        assert HeldAt(ms, x, k, l) ==> MatchesAt(ms, data, k, l);
      }
      ShowsSnoc(data, chunks, data, data);
    }
  }

  lemma CardStep(ms: Store, data: ToolData, freshId: string, x: string, chunks: seq<ToolData>)
    requires x != "" && HasId(data) && HeldAtMostOnce(ms, x) && CardsShow(ms, x, chunks)
    ensures CardsShow(UpdateTool(ms, data, freshId), x, if data.executionId == Some(x) then HeededNext(chunks, data) else chunks)
  {
    var ms' := UpdateTool(ms, data, freshId);
    var i, j := UpdatedPlace(ms, data, freshId);
    ChunkStep(ms, data, freshId, x);
    if data.executionId == Some(x) {
      CardStepOwn(ms, data, freshId, x, chunks, i, j);
    } else {
      forall k, l ensures HeldAt(ms', x, k, l) ==> HeldAt(ms, x, k, l) && SegmentAt(ms', k, l) == SegmentAt(ms, k, l) {
        if k == i && l == j && MatchesAt(ms, data, i, j) {
          MergeShows(SegmentAt(ms, i, j), data, x);
        }
      }
      if Held(ms', x) {
        var k, l :| HeldAt(ms', x, k, l);
        assert HeldAt(ms, x, k, l);
      }
    }
  }

  lemma ApprovalCards(ms: Store, requestId: string, status: string, name: Option<string>, x: string, chunks: seq<ToolData>)
    requires CardsShow(ms, x, chunks)
    ensures CardsShow(UpdateApproval(ms, requestId, status, name), x, chunks)
  {
    var ms' := UpdateApproval(ms, requestId, status, name);
    ApprovalStep(ms, requestId, status, name, x);
    forall i, j | HeldAt(ms', x, i, j)
      ensures SegmentAt(ms', i, j).ToolExecution? && ShowsChunks(SegmentAt(ms', i, j).data, chunks)
    {
      assert HeldAt(ms, x, i, j);
    }
  }

  /** A run that comes up for the first time is shown, after any mix of approvals and chunks with ids, exactly
      if there was a chunk for it, and then by one card that shows those of its chunks that count. */
  lemma {:induction false} CardShowsItsChunks(ms: Store, actions: seq<Action>, x: string)
    requires x != "" && !Held(ms, x)
    requires forall k :: 0 <= k < |actions| && actions[k].Chunk? ==> HasId(actions[k].data)
    ensures CardsShow(ApplyAll(ms, actions), x, Heeded(actions, x)) && HeldAtMostOnce(ApplyAll(ms, actions), x)
    decreases |actions|
  {
    DoneExactlyWhenFinished(ms, actions, x);
    if actions != [] {
      var prefix, last := actions[..|actions| - 1], actions[|actions| - 1];
      assert forall k :: 0 <= k < |prefix| ==> prefix[k] == actions[k];
      CardShowsItsChunks(ms, prefix, x);
      if last.Chunk? {
        CardStep(ApplyAll(ms, prefix), last.data, last.freshId, x, Heeded(prefix, x));
      } else {
        ApprovalCards(ApplyAll(ms, prefix), last.requestId, last.status, last.name, x, Heeded(prefix, x));
      }
    }
  }

  // ---------------------------------------------------------------------------------------------
  // The two updaters are independent
  // ---------------------------------------------------------------------------------------------

  lemma ApproveKeepsMatches(ms: Store, requestId: string, status: string, name: Option<string>, data: ToolData)
    ensures var ms' := UpdateApproval(ms, requestId, status, name);
            && Find(ms', data) == Find(ms, data)
            && LastAssistant(ms') == LastAssistant(ms)
  {
    var ms' := UpdateApproval(ms, requestId, status, name);
    FindIsNewest(ms, data);
    FindIsNewest(ms', data);
    LastAssistantIsOne(ms);
    LastAssistantIsOne(ms');
    assert forall i, j :: MatchesAt(ms', data, i, j) <==> MatchesAt(ms, data, i, j);
    assert forall i :: 0 <= i < |ms| ==> ms'[i].role == ms[i].role;
    if Find(ms, data).Some? {
      var (i, j) := Find(ms, data).value;
      FindUnique(ms', data, i, j);
    }
  }

  lemma ApproveAfterMerge(segment: Segment, data: ToolData, requestId: string, status: string, name: Option<string>)
    requires Matches(data, segment)
    ensures Matches(data, ApproveSegment(segment, requestId, status, name))
    ensures ApproveSegment(Merge(segment, data), requestId, status, name)
            == Merge(ApproveSegment(segment, requestId, status, name), data)
  {
  }

  /** An approval result and a tool chunk can be applied in either order. */
  lemma ApprovalAndChunkCommute(
      ms: Store, data: ToolData, freshId: string, requestId: string, status: string, name: Option<string>)
    ensures UpdateApproval(UpdateTool(ms, data, freshId), requestId, status, name)
            == UpdateTool(UpdateApproval(ms, requestId, status, name), data, freshId)
  {
    var approved := UpdateApproval(ms, requestId, status, name);
    ApproveKeepsMatches(ms, requestId, status, name, data);
    FindIsNewest(ms, data);
    FindIsNewest(approved, data);
    LastAssistantIsOne(ms);
    var left := UpdateApproval(UpdateTool(ms, data, freshId), requestId, status, name);
    var right := UpdateTool(approved, data, freshId);
    match Find(ms, data) {
      case Some((i, j)) =>
        ApproveAfterMerge(ms[i].content.list[j], data, requestId, status, name);
        assert left[i].content.list == right[i].content.list;
      case None =>
        if LastAssistant(ms).Some? {
          var i := LastAssistant(ms).value;
          assert left[i].content.list == right[i].content.list;
        } else {
          assert left[|ms|].content.list == right[|ms|].content.list;
        }
    }
    assert forall k :: 0 <= k < |left| ==> left[k] == right[k];
  }
}
