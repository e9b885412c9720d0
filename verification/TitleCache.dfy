/**
 The titles of running tools.  The event that starts a tool may carry a title, the event that finishes
 it does not; a bounded cache, in order of insertion, carries the title from one to the other.
 */
module TitleCache {
  import opened Options

  const MAX_ENTRIES := 1000

  datatype Entry = Entry(id: string, title: string)

  datatype Kind = ExecutingTool | ExecutedTool | OtherKind

  datatype ToolData = ToolData(kind: Kind, title: Option<string>, toolFunction: Option<string>, id: Option<string>)
  {
    function Id(): string {
      if id.Some? then id.value else ""
    }

    predicate BringsTitle() {
      kind == ExecutingTool && title.Some? && title.value != ""
    }

    predicate Remembers() {
      BringsTitle() && Id() != ""
    }
  }

  // ---------------------------------------------------------------------------------------------
  // The insertion-ordered map
  // ---------------------------------------------------------------------------------------------

  function Find(entries: seq<Entry>, id: string): (i: Option<nat>)
    ensures i.Some? ==> i.value < |entries| && entries[i.value].id == id
    ensures i.None? ==> forall k :: 0 <= k < |entries| ==> entries[k].id != id
  {
    if entries == [] then None
    else if entries[0].id == id then Some(0)
    else
      var rest := Find(entries[1..], id);
      if rest.Some? then Some(rest.value + 1) else None
  }

  function Get(entries: seq<Entry>, id: string): Option<string> {
    var i := Find(entries, id);
    if i.Some? then Some(entries[i.value].title) else None
  }

  /** An id that is present keeps its place. */
  function Set(entries: seq<Entry>, id: string, title: string): seq<Entry> {
    var i := Find(entries, id);
    if i.Some? then entries[i.value := Entry(id, title)] else entries + [Entry(id, title)]
  }

  function Evicted(entries: seq<Entry>): seq<Entry> {
    if |entries| >= MAX_ENTRIES then entries[1..] else entries
  }

  function Remembered(entries: seq<Entry>, id: string, title: string): seq<Entry> {
    Set(Evicted(entries), id, title)
  }

  predicate Valid(entries: seq<Entry>) {
    && |entries| <= MAX_ENTRIES
    && (forall i, j :: 0 <= i < j < |entries| ==> entries[i].id != entries[j].id)
    && (forall i :: 0 <= i < |entries| ==> entries[i].title != "")
  }

  /** The cache after an event, and the data that is shown for it. */
  function Overridden(entries: seq<Entry>, data: ToolData): (seq<Entry>, ToolData) {
    if data.BringsTitle() then
      (if data.Id() != "" then Remembered(entries, data.Id(), data.title.value) else entries, data.(toolFunction := data.title))
    else if data.kind == ExecutedTool && data.Id() != "" && Get(entries, data.Id()).Some? then
      (entries, data.(toolFunction := Get(entries, data.Id())))
    else (entries, data)
  }

  lemma RememberedValid(entries: seq<Entry>, id: string, title: string)
    requires Valid(entries) && title != ""
    ensures Valid(Remembered(entries, id, title))
  {
  }

  class Cache {
    var entries: seq<Entry>

    constructor ()
      ensures entries == [] && Valid(entries)
    {
      entries := [];
    }

    method RememberTitle(id: string, title: string)
      requires Valid(entries) && title != ""
      modifies this
      ensures entries == Remembered(old(entries), id, title) && Valid(entries)
    {
      RememberedValid(entries, id, title);
      if |entries| >= MAX_ENTRIES {
        entries := entries[1..];
      }
      var i := Find(entries, id);
      if i.Some? {
        entries := entries[i.value := Entry(id, title)];
      } else {
        entries := entries + [Entry(id, title)];
      }
    }

    method OverrideToolTitle(data: ToolData) returns (shown: ToolData)
      requires Valid(entries)
      modifies this
      ensures (entries, shown) == Overridden(old(entries), data) && Valid(entries)
    {
      var id := data.Id();
      if data.kind == ExecutingTool && data.title.Some? && data.title.value != "" {
        if id != "" {
          RememberTitle(id, data.title.value);
        }
        return data.(toolFunction := data.title);
      }
      if data.kind == ExecutedTool && id != "" {
        var title := Get(entries, id);
        if title.Some? && title.value != "" {
          return data.(toolFunction := title);
        }
      }
      return data;
    }
  }

  // ---------------------------------------------------------------------------------------------
  // What is shown for one event
  // ---------------------------------------------------------------------------------------------

  /** Some entry of the cache has this id and this title. */
  ghost predicate Holds(entries: seq<Entry>, id: string, title: string) {
    exists i :: 0 <= i < |entries| && entries[i] == Entry(id, title)
  }

  lemma GetHolds(entries: seq<Entry>, id: string)
    requires Valid(entries)
    ensures forall title :: Get(entries, id) == Some(title) <==> Holds(entries, id, title)
  {
    forall title | Holds(entries, id, title) ensures Get(entries, id) == Some(title) {
      var i :| 0 <= i < |entries| && entries[i] == Entry(id, title);
    }
  }

  lemma RememberHolds(entries: seq<Entry>, id: string, title: string)
    requires Valid(entries)
    ensures Holds(Remembered(entries, id, title), id, title)
  {
    var kept := Evicted(entries);
    var i := Find(kept, id);
    assert Remembered(entries, id, title)[if i.Some? then i.value else |kept|] == Entry(id, title);
  }

  /** A starting event that brings a title is shown under it, and if it has an id the cache holds the title
      from then on.  A finishing event with an id is shown under the title the cache holds for it.  Everything
      else is shown as it is, and leaves the cache as it is. */
  lemma ShownUnderItsTitle(entries: seq<Entry>, data: ToolData)
    requires Valid(entries)
    ensures var (after, shown) := Overridden(entries, data);
            && shown.kind == data.kind && shown.title == data.title && shown.id == data.id
            && (data.kind == ExecutingTool && data.title.Some? && data.title != Some("") ==>
                  && shown.toolFunction == data.title
                  && (if data.id.Some? && data.id != Some("") then Holds(after, data.id.value, data.title.value)
                      else after == entries))
            && (!(data.kind == ExecutingTool && data.title.Some? && data.title != Some("")) ==> after == entries)
            && (data.kind == ExecutedTool && data.id.Some? && data.id != Some("") ==>
                  forall title :: Holds(entries, data.id.value, title) ==> shown.toolFunction == Some(title))
            && (!(data.kind == ExecutingTool && data.title.Some? && data.title != Some(""))
                && !(data.kind == ExecutedTool && data.id.Some? && data.id != Some("")
                     && exists title :: Holds(entries, data.id.value, title)) ==>
                  shown == data)
  {
    GetHolds(entries, data.Id());
    if data.Remembers() {
      RememberHolds(entries, data.Id(), data.title.value);
    }
    if data.kind == ExecutedTool && data.Id() != "" && Get(entries, data.Id()).Some? {
      assert Holds(entries, data.Id(), Get(entries, data.Id()).value);
    }
  }

  // ---------------------------------------------------------------------------------------------
  // Runs
  // ---------------------------------------------------------------------------------------------

  function After(entries: seq<Entry>, events: seq<ToolData>): seq<Entry> {
    if events == [] then entries else Overridden(After(entries, events[..|events| - 1]), events[|events| - 1]).0
  }

  /** The cache never exceeds its bound, in any run. */
  lemma {:induction false} NeverExceedsBound(events: seq<ToolData>)
    ensures Valid(After([], events)) && |After([], events)| <= 1000
  {
    if events != [] {
      var last := events[|events| - 1];
      var before := After([], events[..|events| - 1]);
      NeverExceedsBound(events[..|events| - 1]);
      if last.Remembers() {
        RememberedValid(before, last.Id(), last.title.value);
      }
    }
  }

  // ---------------------------------------------------------------------------------------------
  // How long an entry stays
  // ---------------------------------------------------------------------------------------------

  /** How many remembered titles the entry at `p` survives: the room left, and then the older entries. */
  function Slack(entries: seq<Entry>, p: nat): int {
    MAX_ENTRIES - |entries| + p
  }

  function Remembering(events: seq<ToolData>): nat {
    if events == [] then 0
    else Remembering(events[..|events| - 1]) + if events[|events| - 1].Remembers() then 1 else 0
  }

  /** The title last brought for `id`, or else `title`. */
  function Latest(events: seq<ToolData>, id: string, title: string): string {
    if events == [] then title
    else
      var last := events[|events| - 1];
      if last.Remembers() && last.Id() == id then last.title.value else Latest(events[..|events| - 1], id, title)
  }

  predicate At(entries: seq<Entry>, p: nat, id: string, title: string) {
    p < |entries| && entries[p] == Entry(id, title)
  }

  lemma GetAt(entries: seq<Entry>, p: nat, id: string, title: string)
    requires Valid(entries) && At(entries, p, id, title)
    ensures Find(entries, id) == Some(p) && Get(entries, id) == Some(title)
  {
  }

  /** One remembered title costs an entry at most one of its slack. */
  lemma RememberingCostsOne(entries: seq<Entry>, p: nat, id: string, title: string, newId: string, newTitle: string)
    returns (q: nat)
    requires Valid(entries) && At(entries, p, id, title) && Slack(entries, p) >= 1
    ensures var after := Remembered(entries, newId, newTitle);
            At(after, q, id, if newId == id then newTitle else title) && Slack(after, q) >= Slack(entries, p) - 1
  {
    q := if |entries| >= MAX_ENTRIES then p - 1 else p;
    var kept := Evicted(entries);
    assert kept[q] == Entry(id, title);
  }

  lemma {:induction false} Survives(entries: seq<Entry>, p: nat, id: string, title: string, events: seq<ToolData>)
    returns (q: nat)
    requires Valid(entries) && At(entries, p, id, title)
    requires Remembering(events) <= Slack(entries, p)
    ensures var after := After(entries, events);
            && Valid(after) && At(after, q, id, Latest(events, id, title))
            && Slack(after, q) >= Slack(entries, p) - Remembering(events)
    decreases |events|
  {
    q := p;
    if events != [] {
      var init, last := events[..|events| - 1], events[|events| - 1];
      q := Survives(entries, p, id, title, init);
      if last.Remembers() {
        var before := After(entries, init);
        RememberedValid(before, last.Id(), last.title.value);
        q := RememberingCostsOne(before, q, id, Latest(init, id, title), last.Id(), last.title.value);
      }
    }
  }

  /** A title brought under a new id is still there after any events of which at most 999 bring titles, and
      the event that finishes the tool is shown with the latest title brought for it. */
  lemma FinishedToolShowsItsTitle(before: seq<Entry>, start: ToolData, events: seq<ToolData>, finish: ToolData)
    requires Valid(before) && start.Remembers() && Get(before, start.Id()).None?
    requires Remembering(events) <= 999
    requires finish.kind == ExecutedTool && finish.Id() == start.Id()
    ensures Overridden(After(Overridden(before, start).0, events), finish).1
            == finish.(toolFunction := Some(Latest(events, start.Id(), start.title.value)))
  {
    var id, title := start.Id(), start.title.value;
    var entries := Remembered(before, id, title);
    RememberedValid(before, id, title);
    assert Find(Evicted(before), id).None?;
    var p := |entries| - 1;
    assert At(entries, p, id, title);
    var q := Survives(entries, p, id, title, events);
    GetAt(After(entries, events), q, id, Latest(events, id, title));
  }

  /** The newest entries, as many as the cache can hold. */
  function Newest(entries: seq<Entry>): seq<Entry> {
    if |entries| > MAX_ENTRIES then entries[|entries| - MAX_ENTRIES..] else entries
  }

  predicate Knows(entries: seq<Entry>, id: string) {
    exists i :: 0 <= i < |entries| && entries[i].id == id
  }

  /** Every event brings a title under an id that is not in `entries` and that no event before brought;
      `all` is `entries` with everything they bring. */
  predicate Fresh(entries: seq<Entry>, events: seq<ToolData>, all: seq<Entry>) {
    if events == [] then all == entries
    else
      var last := events[|events| - 1];
      && all != [] && last.Remembers()
      && Fresh(entries, events[..|events| - 1], all[..|all| - 1])
      && all[|all| - 1] == Entry(last.Id(), last.title.value)
      && !Knows(all[..|all| - 1], last.Id())
  }

  lemma RememberNewest(entries: seq<Entry>, id: string, title: string)
    requires !Knows(entries, id)
    ensures Remembered(Newest(entries), id, title) == Newest(entries + [Entry(id, title)])
  {
    var newest := Newest(entries);
    forall k | 0 <= k < |newest| ensures newest[k].id != id {
      assert newest[k] == entries[|entries| - |newest| + k];
    }
    assert Find(Evicted(newest), id).None?;
  }

  /** Against fresh ids, the cache holds exactly the newest 1000 of all that was brought: the bound on how
      long an entry stays is tight. */
  lemma {:induction false} FreshKeepsNewest(entries: seq<Entry>, events: seq<ToolData>, all: seq<Entry>)
    requires |entries| <= MAX_ENTRIES && Fresh(entries, events, all)
    ensures After(entries, events) == Newest(all) && |all| == |entries| + |events|
    decreases |events|
  {
    if events != [] {
      var last := events[|events| - 1];
      var before := all[..|all| - 1];
      FreshKeepsNewest(entries, events[..|events| - 1], before);
      RememberNewest(before, last.Id(), last.title.value);
      assert all == before + [Entry(last.Id(), last.title.value)];
    }
  }

  lemma {:induction false} FreshIds(entries: seq<Entry>, events: seq<ToolData>, all: seq<Entry>)
    requires Valid(entries) && Fresh(entries, events, all)
    ensures entries <= all && forall i, j :: 0 <= i < j < |all| ==> all[i].id != all[j].id
    decreases |events|
  {
    if events != [] {
      var before := all[..|all| - 1];
      FreshIds(entries, events[..|events| - 1], before);
      forall i, j | 0 <= i < j < |all| ensures all[i].id != all[j].id {
        assert all[i] == before[i];
      }
    }
  }

  lemma KnowsNewest(all: seq<Entry>, p: nat)
    requires p < |all| && forall i, j :: 0 <= i < j < |all| ==> all[i].id != all[j].id
    ensures Knows(Newest(all), all[p].id) <==> p + MAX_ENTRIES >= |all|
  {
    var newest := Newest(all);
    var dropped := |all| - |newest|;
    assert forall i :: 0 <= i < |newest| ==> newest[i] == all[i + dropped];
    if p >= dropped {
      assert newest[p - dropped].id == all[p].id;
    }
  }

  /** So an entry survives fresh titles exactly as long as `Slack` says. */
  lemma SlackIsTight(entries: seq<Entry>, p: nat, id: string, title: string, events: seq<ToolData>, all: seq<Entry>)
    requires Valid(entries) && At(entries, p, id, title) && Fresh(entries, events, all)
    ensures Knows(After(entries, events), id) <==> |events| <= Slack(entries, p)
  {
    FreshKeepsNewest(entries, events, all);
    FreshIds(entries, events, all);
    assert all[p].id == id;
    KnowsNewest(all, p);
  }

  /** Bringing a title again does not make an entry younger: at the second place of a full cache it then
      survives one more title, not 999. */
  lemma RefreshedEntryStaysOld(entries: seq<Entry>, id: string, title: string, again: string)
    requires Valid(entries) && |entries| == MAX_ENTRIES && At(entries, 1, id, title)
    ensures At(Remembered(entries, id, again), 0, id, again) && Slack(Remembered(entries, id, again), 0) == 1
  {
    var kept := entries[1..];
    assert kept[0] == Entry(id, title);
  }
}
