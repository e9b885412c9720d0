/**
 Delivery of chat events to the open dialog.  The bridge buffers events and flushes them from
 whichever of two racing callbacks runs first; the subscription hook drops sequence numbers it has
 seen since it last subscribed, and the chat hook drops those it has applied since the dialog opened.
 */
module EventDelivery {
  import opened Options

  datatype Event = Event(dialogId: string, streamSeq: Option<int>, payload: string)

  // ---------------------------------------------------------------------------------------------
  // The two filters
  // ---------------------------------------------------------------------------------------------

  /** `highest` belongs to the subscription hook, `lastApplied` to the chat hook.  `offered` are the
      events of the open dialog that reached the filters while subscribed, `applied` those that
      passed both, since the dialog was opened. */
  datatype Feed = Feed(
    dialog: Option<string>,
    enabled: bool,
    highest: Option<int>,
    lastApplied: int,
    offered: seq<Event>,
    applied: seq<Event>)

  predicate Listens(f: Feed, e: Event) {
    f.enabled && f.dialog == Some(e.dialogId)
  }

  function Offer(f: Feed, e: Event): Feed {
    if !Listens(f, e) then f else
    var f := f.(offered := f.offered + [e]);
    match e.streamSeq
    case None => f.(applied := f.applied + [e])
    case Some(s) =>
      if f.highest.Some? && s <= f.highest.value then f
      else if s <= f.lastApplied then f.(highest := Some(s))
      else f.(highest := Some(s), lastApplied := s, applied := f.applied + [e])
  }

  function OfferAll(f: Feed, events: seq<Event>): Feed {
    if events == [] then f else Offer(OfferAll(f, events[..|events| - 1]), events[|events| - 1])
  }

  /** Opening another dialog resets both filters. */
  function OpenDialog(f: Feed, dialog: Option<string>): Feed {
    if dialog == f.dialog then f else Feed(dialog, f.enabled, None, -1, [], [])
  }

  /** Subscribing again resets only the lower one. */
  function SetEnabled(f: Feed, enabled: bool): Feed {
    if enabled == f.enabled then f else f.(enabled := enabled, highest := None)
  }

  class DialogFeed {
    var dialog: Option<string>
    var enabled: bool
    var highest: Option<int>
    var lastApplied: int
    var offered: seq<Event>
    var applied: seq<Event>

    function View(): Feed
      reads this
    {
      Feed(dialog, enabled, highest, lastApplied, offered, applied)
    }

    constructor ()
      ensures View() == Feed(None, false, None, -1, [], [])
    {
      dialog, enabled, highest, lastApplied, offered, applied := None, false, None, -1, [], [];
    }

    method OnEvent(e: Event)
      modifies this
      ensures View() == Offer(old(View()), e)
    {
      if !enabled || dialog != Some(e.dialogId) {
        return;
      }
      offered := offered + [e];
      if e.streamSeq.Some? {
        if highest.None? || e.streamSeq.value > highest.value {
          highest := e.streamSeq;
        } else {
          return;
        }
      }
      HandleChunk(e);
    }

    method HandleChunk(e: Event)
      modifies this`lastApplied, this`applied
      ensures e.streamSeq.Some? && e.streamSeq.value <= old(lastApplied) ==>
                lastApplied == old(lastApplied) && applied == old(applied)
      ensures !(e.streamSeq.Some? && e.streamSeq.value <= old(lastApplied)) ==>
                lastApplied == e.streamSeq.Or(Some(old(lastApplied))).value && applied == old(applied) + [e]
    {
      if e.streamSeq.Some? {
        if e.streamSeq.value <= lastApplied {
          return;
        }
        lastApplied := e.streamSeq.value;
      }
      applied := applied + [e];
    }

    method Open(d: Option<string>)
      modifies this
      ensures View() == OpenDialog(old(View()), d)
    {
      if d != dialog {
        dialog, highest, lastApplied, offered, applied := d, None, -1, [], [];
      }
    }

    method Enable(on: bool)
      modifies this
      ensures View() == SetEnabled(old(View()), on)
    {
      if on != enabled {
        enabled, highest := on, None;
      }
    }
  }

  // ---------------------------------------------------------------------------------------------
  // The buffer and its callbacks
  // ---------------------------------------------------------------------------------------------

  /** `frames` and `timers` count the scheduled callbacks that have not run yet. */
  datatype Bridge = Bridge(pending: seq<Event>, flushScheduled: bool, frames: nat, timers: nat)

  /** With an animation frame available the callback is scheduled twice, otherwise once. */
  function Receive(b: Bridge, e: Event, hasFrames: bool): Bridge {
    var b := b.(pending := b.pending + [e]);
    if b.flushScheduled then b
    else b.(flushScheduled := true, frames := b.frames + (if hasFrames then 1 else 0), timers := b.timers + 1)
  }

  function Flushed(b: Bridge): Bridge {
    if b.flushScheduled then b.(flushScheduled := false, pending := []) else b
  }

  function Batch(b: Bridge): seq<Event> {
    if b.flushScheduled then b.pending else []
  }

  class NatsBridgeClient {
    var pending: seq<Event>
    var flushScheduled: bool
    var frames: nat
    var timers: nat
    const hasFrames: bool
    const listener: DialogFeed

    function View(): Bridge
      reads this
    {
      Bridge(pending, flushScheduled, frames, timers)
    }

    constructor (hasFrames: bool, listener: DialogFeed)
      ensures View() == Bridge([], false, 0, 0)
      ensures this.hasFrames == hasFrames && this.listener == listener
    {
      pending, flushScheduled, frames, timers := [], false, 0, 0;
      this.hasFrames, this.listener := hasFrames, listener;
    }

    method OnMessage(e: Event)
      modifies this
      ensures View() == Receive(old(View()), e, hasFrames)
    {
      pending := pending + [e];
      if flushScheduled {
        return;
      }
      flushScheduled := true;
      if hasFrames {
        frames := frames + 1;
      }
      timers := timers + 1;
    }

    /** The callback both schedules share. */
    method Flush()
      modifies this, listener
      ensures View() == Flushed(old(View()))
      ensures listener.View() == OfferAll(old(listener.View()), Batch(old(View())))
    {
      if !flushScheduled {
        return;
      }
      flushScheduled := false;
      var batch := pending;
      pending := [];
      for i := 0 to |batch|
        invariant View() == Flushed(old(View()))
        invariant listener.View() == OfferAll(old(listener.View()), batch[..i])
      {
        assert batch[..i + 1][..i] == batch[..i];
        listener.OnEvent(batch[i]);
      }
      assert batch[..|batch|] == batch;
    }
  }

  // ---------------------------------------------------------------------------------------------
  // The whole pipeline
  // ---------------------------------------------------------------------------------------------

  datatype Pipeline = Pipeline(bridge: Bridge, feed: Feed, received: seq<Event>, delivered: seq<Event>)

  datatype Step =
    | Message(e: Event, hasFrames: bool)
    | Frame
    | Timer
    | Open(dialog: Option<string>)
    | Enable(on: bool)

  function RunCallback(p: Pipeline): Pipeline {
    p.(bridge := Flushed(p.bridge), feed := OfferAll(p.feed, Batch(p.bridge)), delivered := p.delivered + Batch(p.bridge))
  }

  function Next(p: Pipeline, step: Step): Pipeline {
    match step
    case Message(e, hasFrames) => p.(bridge := Receive(p.bridge, e, hasFrames), received := p.received + [e])
    case Frame => if p.bridge.frames > 0 then RunCallback(p.(bridge := p.bridge.(frames := p.bridge.frames - 1))) else p
    case Timer => if p.bridge.timers > 0 then RunCallback(p.(bridge := p.bridge.(timers := p.bridge.timers - 1))) else p
    case Open(dialog) => p.(feed := OpenDialog(p.feed, dialog))
    case Enable(on) => p.(feed := SetEnabled(p.feed, on))
  }

  function Run(p: Pipeline, steps: seq<Step>): Pipeline {
    if steps == [] then p else Next(Run(p, steps[..|steps| - 1]), steps[|steps| - 1])
  }

  function Start(dialog: Option<string>, enabled: bool): Pipeline {
    Pipeline(Bridge([], false, 0, 0), Feed(dialog, enabled, None, -1, [], []), [], [])
  }

  // ---------------------------------------------------------------------------------------------
  // What the filters let through
  // ---------------------------------------------------------------------------------------------

  /** An event is applied if it carries no number, or one above every number offered before it. */
  predicate IsNew(before: seq<Event>, e: Event) {
    e.streamSeq.None? ||
    (e.streamSeq.value > -1 && forall f :: f in before && f.streamSeq.Some? ==> f.streamSeq.value < e.streamSeq.value)
  }

  function NewEvents(offered: seq<Event>): seq<Event> {
    if offered == [] then [] else
    var before, e := offered[..|offered| - 1], offered[|offered| - 1];
    NewEvents(before) + if IsNew(before, e) then [e] else []
  }

  /** Both marks are bounded by what was offered; together they let through exactly the new events. */
  ghost predicate FeedInv(f: Feed) {
    && f.applied == NewEvents(f.offered)
    && (f.highest.Some? ==> f.highest.value <= f.lastApplied)
    && f.lastApplied >= -1
    && (f.lastApplied == -1 || exists e :: e in f.offered && e.streamSeq == Some(f.lastApplied))
    && (forall e :: e in f.offered && e.streamSeq.Some? ==> e.streamSeq.value <= f.lastApplied)
  }

  lemma NewEventsSnoc(before: seq<Event>, e: Event)
    ensures NewEvents(before + [e]) == NewEvents(before) + if IsNew(before, e) then [e] else []
  {
    assert (before + [e])[..|before|] == before;
  }

  lemma OfferInv(f: Feed, e: Event)
    requires FeedInv(f)
    ensures FeedInv(Offer(f, e))
  {
    if Listens(f, e) {
      NewEventsSnoc(f.offered, e);
      var f' := Offer(f, e);
      assert f'.offered == f.offered + [e];
      assert IsNew(f.offered, e) <==> e.streamSeq.None? || e.streamSeq.value > f.lastApplied;
    }
  }

  lemma {:induction false} OfferAllInv(f: Feed, events: seq<Event>)
    requires FeedInv(f)
    ensures FeedInv(OfferAll(f, events))
  {
    if events != [] {
      OfferAllInv(f, events[..|events| - 1]);
      OfferInv(OfferAll(f, events[..|events| - 1]), events[|events| - 1]);
    }
  }

  lemma NextFeedInv(p: Pipeline, step: Step)
    requires FeedInv(p.feed)
    ensures FeedInv(Next(p, step).feed)
  {
    match step
    case Message(_, _) =>
    case Frame => OfferAllInv(p.feed, Batch(p.bridge));
    case Timer => OfferAllInv(p.feed, Batch(p.bridge));
    case Open(dialog) =>
    case Enable(on) =>
  }

  lemma {:induction false} RunFeedInv(p: Pipeline, steps: seq<Step>)
    requires FeedInv(p.feed)
    ensures FeedInv(Run(p, steps).feed)
  {
    if steps != [] {
      RunFeedInv(p, steps[..|steps| - 1]);
      NextFeedInv(Run(p, steps[..|steps| - 1]), steps[|steps| - 1]);
    }
  }

  ghost predicate NumbersIncrease(events: seq<Event>) {
    forall i, j :: 0 <= i < j < |events| && events[i].streamSeq.Some? && events[j].streamSeq.Some? ==>
      events[i].streamSeq.value < events[j].streamSeq.value
  }

  lemma {:induction false} NewEventsIncrease(offered: seq<Event>)
    ensures forall e :: e in NewEvents(offered) ==> e in offered
    ensures NumbersIncrease(NewEvents(offered))
  {
    if offered != [] {
      var before, e := offered[..|offered| - 1], offered[|offered| - 1];
      NewEventsIncrease(before);
      if IsNew(before, e) {
        var kept := NewEvents(before);
        assert forall i :: 0 <= i < |kept| ==> kept[i] in before;
      }
    }
  }

  /** However receives, callbacks, re-subscriptions and dialog changes interleave: since the dialog
      was opened the two filters have let through exactly the new events, so the numbers applied
      strictly increase. */
  lemma AppliedExactlyTheNew(dialog: Option<string>, enabled: bool, steps: seq<Step>)
    ensures var feed := Run(Start(dialog, enabled), steps).feed;
            && feed.applied == NewEvents(feed.offered)
            && NumbersIncrease(feed.applied)
  {
    RunFeedInv(Start(dialog, enabled), steps);
    NewEventsIncrease(Run(Start(dialog, enabled), steps).feed.offered);
  }

  ghost predicate BridgeInv(p: Pipeline) {
    && p.delivered + p.bridge.pending == p.received
    && (p.bridge.flushScheduled <==> p.bridge.pending != [])
    && (p.bridge.flushScheduled ==> p.bridge.timers > 0)
  }

  lemma NextBridgeInv(p: Pipeline, step: Step)
    requires BridgeInv(p)
    ensures BridgeInv(Next(p, step))
  {
    if step.Message? {
      assert p.delivered + (p.bridge.pending + [step.e]) == p.received + [step.e];
    } else {
      assert p.delivered + [] == p.delivered;
    }
  }

  /** Nothing is lost, duplicated or reordered on the way through the buffer, and a buffer that is
      not empty has a timer outstanding, whether or not animation frames ever fire; that timer,
      or any callback before it, empties it. */
  lemma {:induction false} BufferLosesNothing(dialog: Option<string>, enabled: bool, steps: seq<Step>)
    ensures var p := Run(Start(dialog, enabled), steps);
            && p.delivered + p.bridge.pending == p.received
            && (p.bridge.pending != [] ==> p.bridge.timers > 0)
            && (p.bridge.timers > 0 ==> Next(p, Timer).delivered == p.received)
            && (p.bridge.frames > 0 ==> Next(p, Frame).delivered == p.received)
            && BridgeInv(p)
  {
    if steps != [] {
      BufferLosesNothing(dialog, enabled, steps[..|steps| - 1]);
      var before := Run(Start(dialog, enabled), steps[..|steps| - 1]);
      NextBridgeInv(before, steps[|steps| - 1]);
    }
  }

  /** The message that finds the buffer empty schedules both callbacks if there are frames to wait for, and each
      of them would deliver it. */
  lemma EitherCallbackDelivers(dialog: Option<string>, enabled: bool, steps: seq<Step>, e: Event)
    requires Run(Start(dialog, enabled), steps).bridge.pending == []
    ensures var p := Next(Run(Start(dialog, enabled), steps), Message(e, true));
            && p.bridge.pending == [e]
            && Next(p, Frame).delivered == p.received && Next(p, Timer).delivered == p.received
            && Next(Next(p, Frame), Timer).delivered == p.received
  {
    var p := Run(Start(dialog, enabled), steps);
    BufferLosesNothing(dialog, enabled, steps);
    NextBridgeInv(p, Message(e, true));
  }

  function ForDialog(events: seq<Event>, dialog: string): seq<Event> {
    if events == [] then [] else
    var e := events[|events| - 1];
    ForDialog(events[..|events| - 1], dialog) + if e.dialogId == dialog then [e] else []
  }

  lemma {:induction false} ForDialogConcat(a: seq<Event>, b: seq<Event>, dialog: string)
    ensures ForDialog(a + b, dialog) == ForDialog(a, dialog) + ForDialog(b, dialog)
  {
    if b == [] {
      assert a + b == a;
    } else {
      ForDialogConcat(a, b[..|b| - 1], dialog);
      assert (a + b)[..|a + b| - 1] == a + b[..|b| - 1];
    }
  }

  lemma {:induction false} OfferAllOffers(f: Feed, events: seq<Event>, dialog: string)
    requires f.enabled && f.dialog == Some(dialog)
    ensures var f' := OfferAll(f, events);
            f'.enabled && f'.dialog == f.dialog && f'.offered == f.offered + ForDialog(events, dialog)
  {
    if events != [] {
      OfferAllOffers(f, events[..|events| - 1], dialog);
    }
  }

  lemma {:induction false} OfferAllIgnores(f: Feed, events: seq<Event>)
    requires !f.enabled || f.dialog.None?
    ensures OfferAll(f, events) == f
  {
    if events != [] {
      OfferAllIgnores(f, events[..|events| - 1]);
    }
  }

  /** What the open dialog hears of a delivered batch. */
  function HeardOf(f: Feed, batch: seq<Event>): seq<Event> {
    if f.enabled && f.dialog.Some? then ForDialog(batch, f.dialog.value) else []
  }

  /** The events for the open dialog, among those delivered while it was subscribed since it was opened. */
  function Heard(start: Pipeline, steps: seq<Step>): seq<Event> {
    if steps == [] then []
    else
      var before, step := Run(start, steps[..|steps| - 1]), steps[|steps| - 1];
      var heard := Heard(start, steps[..|steps| - 1]);
      if step.Open? && step.dialog != before.feed.dialog then []
      else if (step.Frame? && before.bridge.frames > 0) || (step.Timer? && before.bridge.timers > 0) then
        heard + HeardOf(before.feed, Batch(before.bridge))
      else heard
  }

  lemma {:induction false} OfferedIsHeard(start: Pipeline, steps: seq<Step>)
    requires start.feed.offered == []
    ensures Run(start, steps).feed.offered == Heard(start, steps)
  {
    if steps != [] {
      var n := |steps| - 1;
      OfferedIsHeard(start, steps[..n]);
      var before := Run(start, steps[..n]);
      if before.feed.enabled && before.feed.dialog.Some? {
        OfferAllOffers(before.feed, Batch(before.bridge), before.feed.dialog.value);
      } else {
        OfferAllIgnores(before.feed, Batch(before.bridge));
      }
    }
  }

  /** In every run, whatever dialogs are opened and subscriptions renewed: since the dialog was opened the chat
      has applied exactly the new ones among the events it heard, in order. */
  lemma AppliedFromHeard(dialog: Option<string>, enabled: bool, steps: seq<Step>)
    ensures Run(Start(dialog, enabled), steps).feed.applied == NewEvents(Heard(Start(dialog, enabled), steps))
  {
    AppliedExactlyTheNew(dialog, enabled, steps);
    OfferedIsHeard(Start(dialog, enabled), steps);
  }

  /** The numbers of the events that the open dialog heard since it was last subscribed. */
  function HeardSinceSubscribed(start: Pipeline, steps: seq<Step>): seq<Event> {
    if steps == [] then []
    else
      var before, step := Run(start, steps[..|steps| - 1]), steps[|steps| - 1];
      var heard := HeardSinceSubscribed(start, steps[..|steps| - 1]);
      if (step.Open? && step.dialog != before.feed.dialog) || (step.Enable? && step.on != before.feed.enabled) then []
      else if (step.Frame? && before.bridge.frames > 0) || (step.Timer? && before.bridge.timers > 0) then
        heard + HeardOf(before.feed, Batch(before.bridge))
      else heard
  }

  /** `high` is the greatest number among the events, if any has one. */
  ghost predicate IsHighest(high: Option<int>, events: seq<Event>) {
    && (forall e | e in events && e.streamSeq.Some? :: high.Some? && e.streamSeq.value <= high.value)
    && (high.Some? ==> exists e :: e in events && e.streamSeq == high)
  }

  lemma HighestSnoc(f: Feed, heard: seq<Event>, e: Event)
    requires IsHighest(f.highest, heard) && Listens(f, e)
    ensures IsHighest(Offer(f, e).highest, heard + [e])
  {
    if f.highest.Some? {
      var g :| g in heard && g.streamSeq == f.highest;
      assert g in heard + [e];
    }
    assert e in heard + [e];
  }

  lemma {:induction false} HighestOfBatch(f: Feed, heard: seq<Event>, events: seq<Event>)
    requires IsHighest(f.highest, heard)
    ensures IsHighest(OfferAll(f, events).highest, heard + HeardOf(f, events))
    ensures OfferAll(f, events).enabled == f.enabled && OfferAll(f, events).dialog == f.dialog
    decreases |events|
  {
    if events == [] {
      assert heard + [] == heard;
    } else {
      var init, e := events[..|events| - 1], events[|events| - 1];
      HighestOfBatch(f, heard, init);
      var before := OfferAll(f, init);
      if Listens(f, e) {
        HighestSnoc(before, heard + HeardOf(f, init), e);
        assert heard + HeardOf(f, events) == heard + HeardOf(f, init) + [e];
      } else {
        assert heard + HeardOf(f, events) == heard + HeardOf(f, init);
      }
    }
  }

  /** In every run the lower filter's mark is the greatest number heard since the dialog was last subscribed. */
  lemma {:induction false} LowerMarkIsOfThisSubscription(dialog: Option<string>, enabled: bool, steps: seq<Step>)
    ensures IsHighest(Run(Start(dialog, enabled), steps).feed.highest, HeardSinceSubscribed(Start(dialog, enabled), steps))
  {
    if steps != [] {
      var prefix := steps[..|steps| - 1];
      LowerMarkIsOfThisSubscription(dialog, enabled, prefix);
      var before := Run(Start(dialog, enabled), prefix);
      HighestOfBatch(before.feed, HeardSinceSubscribed(Start(dialog, enabled), prefix), Batch(before.bridge));
    }
  }

  predicate KeepsSubscription(step: Step) {
    !step.Open? && !step.Enable?
  }

  lemma {:induction false} OfferedIsDelivered(dialog: string, steps: seq<Step>)
    requires forall step :: step in steps ==> KeepsSubscription(step)
    ensures var p := Run(Start(Some(dialog), true), steps);
            p.feed.enabled && p.feed.dialog == Some(dialog) && p.feed.offered == ForDialog(p.delivered, dialog)
  {
    if steps != [] {
      var n := |steps| - 1;
      assert KeepsSubscription(steps[n]);
      OfferedIsDelivered(dialog, steps[..n]);
      var before := Run(Start(Some(dialog), true), steps[..n]);
      OfferAllOffers(before.feed, Batch(before.bridge), dialog);
      ForDialogConcat(before.delivered, Batch(before.bridge), dialog);
    }
  }

  /** From message to chat: as long as one dialog stays subscribed, once the buffer is empty the chat
      has applied exactly the new ones among all events received for it, in the order received. */
  lemma AppliedFromReceived(dialog: string, steps: seq<Step>)
    requires forall step :: step in steps ==> KeepsSubscription(step)
    requires Run(Start(Some(dialog), true), steps).bridge.pending == []
    ensures var p := Run(Start(Some(dialog), true), steps);
            p.feed.applied == NewEvents(ForDialog(p.received, dialog))
  {
    var p := Run(Start(Some(dialog), true), steps);
    AppliedExactlyTheNew(Some(dialog), true, steps);
    BufferLosesNothing(Some(dialog), true, steps);
    OfferedIsDelivered(dialog, steps);
    assert p.delivered + [] == p.delivered;
  }
}
