/**
 The token watcher polls a file for rotation.  When the modification time has not moved and nothing
 is missing it skips reading; that fast path must not be noticed by anyone.
 */
module TokenWatcher {
  import opened Options

  const CLEAR_AFTER_MISSING_POLLS := 3

  /** What one poll finds: the modification time, and the token a read would give just after. */
  datatype Poll = Poll(mtime: Option<int>, token: Option<string>)

  /** `emitted` are the updates sent to the frontend; `None` tells it to drop its token. */
  datatype Watcher = Watcher(lastMtime: Option<int>, lastEmitted: Option<string>, missingPolls: nat, emitted: seq<Option<string>>)

  const FRESH := Watcher(None, None, 0, [])

  /** What a read does to the watcher. */
  function OnRead(w: Watcher, token: Option<string>): Watcher {
    match token
    case Some(_) =>
      var w := w.(missingPolls := 0);
      if w.lastEmitted != token then w.(lastEmitted := token, emitted := w.emitted + [token]) else w
    case None =>
      if w.lastEmitted.None? then w
      else if w.missingPolls + 1 >= CLEAR_AFTER_MISSING_POLLS then
        w.(lastEmitted := None, missingPolls := 0, emitted := w.emitted + [None])
      else w.(missingPolls := w.missingPolls + 1)
  }

  predicate MustRead(w: Watcher, mtime: Option<int>) {
    mtime.None? || mtime != w.lastMtime || w.missingPolls > 0
  }

  function FastPoll(w: Watcher, poll: Poll): Watcher {
    if MustRead(w, poll.mtime) then OnRead(w.(lastMtime := poll.mtime), poll.token) else w
  }

  /** The watcher without the fast path. */
  function SlowPoll(w: Watcher, poll: Poll): Watcher {
    OnRead(w.(lastMtime := poll.mtime), poll.token)
  }

  function Fast(polls: seq<Poll>): Watcher {
    if polls == [] then FRESH else FastPoll(Fast(polls[..|polls| - 1]), polls[|polls| - 1])
  }

  function Slow(polls: seq<Poll>): Watcher {
    if polls == [] then FRESH else SlowPoll(Slow(polls[..|polls| - 1]), polls[|polls| - 1])
  }

  /** The thread's loop over the polls it lives to see. */
  method Watch(polls: seq<Poll>) returns (emitted: seq<Option<string>>)
    ensures emitted == Fast(polls).emitted
  {
    var lastMtime: Option<int>, lastEmitted: Option<string>, missingPolls := None, None, 0;
    emitted := [];
    for i := 0 to |polls|
      invariant Fast(polls[..i]) == Watcher(lastMtime, lastEmitted, missingPolls, emitted)
    {
      assert polls[..i + 1][..i] == polls[..i];
      var mtime := polls[i].mtime;
      if mtime.None? || mtime != lastMtime || missingPolls > 0 {
        lastMtime := mtime;
        match polls[i].token
        case Some(token) =>
          missingPolls := 0;
          if lastEmitted != Some(token) {
            emitted := emitted + [Some(token)];
            lastEmitted := Some(token);
          }
        case None =>
          if lastEmitted.Some? {
            missingPolls := missingPolls + 1;
            if missingPolls >= CLEAR_AFTER_MISSING_POLLS {
              emitted := emitted + [None];
              lastEmitted := None;
              missingPolls := 0;
            }
          }
      }
    }
    assert polls[..|polls|] == polls;
  }

  // ---------------------------------------------------------------------------------------------
  // The fast path is invisible
  // ---------------------------------------------------------------------------------------------

  /** While the modification time stands still, so does what a read would give. */
  ghost predicate MtimeTellsToken(polls: seq<Poll>) {
    forall i :: 0 <= i < |polls| - 1 && polls[i].mtime.Some? && polls[i].mtime == polls[i + 1].mtime ==>
      polls[i].token == polls[i + 1].token
  }

  /** Poll `i` is skipped by the fast path. */
  ghost predicate Skipped(polls: seq<Poll>, i: nat)
    requires i < |polls|
  {
    !MustRead(Fast(polls[..i]), polls[i].mtime)
  }

  /** After every poll both watchers are in the same state. */
  ghost predicate Lockstep(polls: seq<Poll>) {
    forall i :: 0 <= i <= |polls| ==> Fast(polls[..i]) == Slow(polls[..i])
  }

  ghost predicate HarmlessSkip(polls: seq<Poll>, i: nat)
    requires i < |polls|
  {
    Skipped(polls, i) ==> polls[i].token == Fast(polls[..i]).lastEmitted
  }

  lemma SamePrefixes(prefix: seq<Poll>, polls: seq<Poll>)
    requires prefix <= polls
    ensures forall i :: 0 <= i < |prefix| ==> (HarmlessSkip(prefix, i) <==> HarmlessSkip(polls, i))
    ensures Lockstep(prefix) <==> forall i :: 0 <= i <= |prefix| ==> Fast(polls[..i]) == Slow(polls[..i])
  {
    assert forall i :: 0 <= i <= |prefix| ==> prefix[..i] == polls[..i];
  }

  lemma ReadIsNoopIff(w: Watcher, poll: Poll)
    requires !MustRead(w, poll.mtime)
    ensures SlowPoll(w, poll) == w <==> poll.token == w.lastEmitted
  {
    if poll.token != w.lastEmitted && poll.token.Some? {
      assert |SlowPoll(w, poll).emitted| == |w.emitted| + 1;
    }
  }

  /** The watchers stay in step exactly when every poll the fast path skips would have read the token
      last emitted. */
  lemma {:induction false} LockstepIff(polls: seq<Poll>)
    ensures Lockstep(polls) <==> forall i :: 0 <= i < |polls| ==> HarmlessSkip(polls, i)
  {
    if polls == [] {
      assert polls[..0] == polls;
    } else {
      var n := |polls| - 1;
      var prefix := polls[..n];
      LockstepIff(prefix);
      SamePrefixes(prefix, polls);
      assert polls[..n + 1] == polls;
      if Lockstep(prefix) {
        assert prefix[..n] == prefix;
        if Skipped(polls, n) {
          ReadIsNoopIff(Fast(prefix), polls[n]);
        }
        assert Fast(polls) == Slow(polls) <==> HarmlessSkip(polls, n);
      }
    }
  }

  /** What both watchers know after a run: the last modification time, and that without missing polls
      the last read gave the token last emitted. */
  lemma {:induction false} FastKnows(polls: seq<Poll>)
    requires MtimeTellsToken(polls)
    ensures var w := Fast(polls);
            && w.lastMtime == (if polls == [] then None else polls[|polls| - 1].mtime)
            && (polls != [] && w.missingPolls == 0 ==> w.lastEmitted == polls[|polls| - 1].token)
  {
    if polls != [] {
      FastKnows(polls[..|polls| - 1]);
    }
  }

  /** The fast-path watcher emits what a watcher that reads on every poll emits. */
  lemma FastPathIsInvisible(polls: seq<Poll>)
    requires MtimeTellsToken(polls)
    ensures Lockstep(polls) && Fast(polls).emitted == Slow(polls).emitted
  {
    forall i | 0 <= i < |polls| ensures HarmlessSkip(polls, i) {
      FastKnows(polls[..i]);
    }
    LockstepIff(polls);
    assert polls[..|polls|] == polls;
  }

  /** Without the proviso it is not: a rotation within one tick of the clock is never emitted. */
  lemma RotationWithinOneTickIsMissed()
    ensures var polls := [Poll(Some(7), Some("old")), Poll(Some(7), Some("new")), Poll(Some(7), Some("new"))];
            Fast(polls).emitted == [Some("old")] && Slow(polls).emitted == [Some("old"), Some("new")]
  {
    var polls := [Poll(Some(7), Some("old")), Poll(Some(7), Some("new")), Poll(Some(7), Some("new"))];
    assert polls[..2][..1] == polls[..1] && polls[..1][..0] == [];
    assert Fast(polls[..1]) == Slow(polls[..1]) == Watcher(Some(7), Some("old"), 0, [Some("old")]);
    assert Slow(polls[..2]).emitted == [Some("old"), Some("new")] && Fast(polls[..2]).emitted == [Some("old")];
  }

  // ---------------------------------------------------------------------------------------------
  // What is emitted
  // ---------------------------------------------------------------------------------------------

  ghost predicate AdjacentDiffer(emitted: seq<Option<string>>) {
    && (emitted != [] ==> emitted[0].Some?)
    && forall i :: 0 <= i < |emitted| - 1 ==> emitted[i] != emitted[i + 1]
  }

  /** On any polls at all, no update repeats the one before it, and the first is a token. */
  lemma {:induction false} EmissionsDiffer(polls: seq<Poll>)
    ensures AdjacentDiffer(Fast(polls).emitted)
    ensures var w := Fast(polls); w.lastEmitted == if w.emitted == [] then None else w.emitted[|w.emitted| - 1]
  {
    if polls != [] {
      EmissionsDiffer(polls[..|polls| - 1]);
    }
  }

  /** The number of polls at the end that could not read a token. */
  function Unavailable(polls: seq<Poll>): nat {
    if polls == [] || polls[|polls| - 1].token.Some? then 0 else 1 + Unavailable(polls[..|polls| - 1])
  }

  /** The last token that could be read, if any. */
  function LastToken(polls: seq<Poll>): Option<string> {
    if polls == [] then None else polls[|polls| - 1].token.Or(LastToken(polls[..|polls| - 1]))
  }

  /** The frontend holds the last token read until it has been unavailable for three polls. */
  lemma {:induction false} FrontendHolds(polls: seq<Poll>)
    requires MtimeTellsToken(polls)
    ensures Fast(polls).lastEmitted == if Unavailable(polls) < CLEAR_AFTER_MISSING_POLLS then LastToken(polls) else None
    ensures Fast(polls).missingPolls ==
            if LastToken(polls).Some? && Unavailable(polls) < CLEAR_AFTER_MISSING_POLLS then Unavailable(polls) else 0
  {
    if polls != [] {
      var prefix := polls[..|polls| - 1];
      FrontendHolds(prefix);
      FastKnows(prefix);
    }
  }

  /** The last poll is the third in a row without a token, after one with. */
  ghost predicate ThirdInARow(polls: seq<Poll>) {
    var n := |polls|;
    && n >= 4 && polls[n - 4].token.Some?
    && polls[n - 3].token.None? && polls[n - 2].token.None? && polls[n - 1].token.None?
  }

  lemma {:induction false} UnavailableFrom(polls: seq<Poll>, n: nat)
    ensures Unavailable(polls) >= n <==> n <= |polls| && forall i :: |polls| - n <= i < |polls| ==> polls[i].token.None?
    ensures LastToken(polls).None? <==> Unavailable(polls) == |polls|
  {
    if polls != [] {
      UnavailableFrom(polls[..|polls| - 1], if n > 0 then n - 1 else 0);
    }
  }

  lemma ThirdInARowCounts(polls: seq<Poll>, poll: Poll)
    ensures ThirdInARow(polls + [poll]) <==>
            poll.token.None? && Unavailable(polls) == 2 && LastToken(polls).Some?
  {
    if |polls| >= 3 {
      var n := |polls|;
      assert polls[..n - 1][..n - 2] == polls[..n - 2] && polls[..n - 2][..n - 3] == polls[..n - 3];
      assert Unavailable(polls[..n - 2]) > 0 <==> polls[n - 3].token.None?;
      UnavailableFrom(polls, 2);
    } else {
      UnavailableFrom(polls, 2);
    }
  }

  /** A poll emits a clear exactly when it is the third in a row without a token, after one with. */
  lemma ClearAfterExactlyThree(polls: seq<Poll>, poll: Poll)
    requires MtimeTellsToken(polls + [poll])
    ensures Fast(polls + [poll]).emitted == Fast(polls).emitted + [None] <==> ThirdInARow(polls + [poll])
  {
    assert (polls + [poll])[..|polls|] == polls;
    assert MtimeTellsToken(polls) by {
      assert forall i :: 0 <= i < |polls| ==> polls[i] == (polls + [poll])[i];
    }
    FrontendHolds(polls);
    FastKnows(polls);
    ThirdInARowCounts(polls, poll);
    var w := Fast(polls);
    assert Fast(polls + [poll]) == FastPoll(w, poll);
    assert FastPoll(w, poll).emitted == w.emitted + [None] ==> FastPoll(w, poll).emitted[|w.emitted|] == None;
  }

  // ---------------------------------------------------------------------------------------------
  // When the fast path changes what is emitted
  // ---------------------------------------------------------------------------------------------

  /** After every poll both watchers have emitted the same. */
  ghost predicate SameEmissions(polls: seq<Poll>) {
    forall i :: 0 <= i <= |polls| ==> Fast(polls[..i]).emitted == Slow(polls[..i]).emitted
  }

  /** If poll `i` is skipped, it would read no token or the one last emitted. */
  ghost predicate NoTokenMissed(polls: seq<Poll>, i: nat)
    requires i < |polls|
  {
    Skipped(polls, i) && polls[i].token.Some? ==> polls[i].token == Fast(polls[..i]).lastEmitted
  }

  /** Poll `i` is not the third of three polls without a token of which the first was skipped while the
      frontend had one. */
  ghost predicate NoClearDelayed(polls: seq<Poll>, i: nat)
    requires i < |polls|
  {
    i >= 2 && polls[i - 2].token.None? && polls[i - 1].token.None? && polls[i].token.None?
    && Fast(polls[..i - 2]).lastEmitted.Some?
    ==> !Skipped(polls, i - 2)
  }

  ghost predicate Unnoticed(polls: seq<Poll>, i: nat)
    requires i < |polls|
  {
    NoTokenMissed(polls, i) && NoClearDelayed(polls, i)
  }

  /** The watcher that always reads knows how long no token could be read, on any polls. */
  lemma {:induction false} SlowKnows(polls: seq<Poll>)
    ensures var w := Slow(polls);
            && w.lastEmitted == (if w.emitted == [] then None else w.emitted[|w.emitted| - 1])
            && (w.lastEmitted.Some? ==> w.missingPolls == Unavailable(polls) < CLEAR_AFTER_MISSING_POLLS)
            && (w.lastEmitted.None? ==> w.missingPolls == 0)
  {
    if polls != [] {
      SlowKnows(polls[..|polls| - 1]);
    }
  }

  /** The polls without a token at the end began with one that was skipped. */
  ghost predicate BeganSkipped(polls: seq<Poll>) {
    var n, u := |polls|, Unavailable(polls);
    0 < u <= n && Skipped(polls, n - u)
  }

  /** As long as nothing was noticed, the fast watcher's count falls behind exactly if they did. */
  ghost predicate CountsBehind(polls: seq<Poll>) {
    var w := Fast(polls);
    && (w.lastEmitted.None? ==> w.missingPolls == 0)
    && (w.lastEmitted.Some? ==>
          if BeganSkipped(polls) then w.missingPolls < Unavailable(polls) else w.missingPolls == Unavailable(polls))
  }

  lemma {:induction false} SkippedBefore(polls: seq<Poll>, poll: Poll, i: nat)
    requires i < |polls|
    ensures Skipped(polls + [poll], i) == Skipped(polls, i) && (polls + [poll])[..i] == polls[..i]
  {
    assert (polls + [poll])[..i] == polls[..i];
  }

  lemma {:induction false} UnavailableSnoc(polls: seq<Poll>, poll: Poll)
    ensures Unavailable(polls + [poll]) == if poll.token.Some? then 0 else Unavailable(polls) + 1
    ensures Fast(polls + [poll]) == FastPoll(Fast(polls), poll) && Slow(polls + [poll]) == SlowPoll(Slow(polls), poll)
    ensures Skipped(polls + [poll], |polls|) == !MustRead(Fast(polls), poll.mtime)
  {
    assert (polls + [poll])[..|polls|] == polls;
  }

  lemma {:induction false} BeganSkippedSnoc(polls: seq<Poll>, poll: Poll)
    ensures BeganSkipped(polls + [poll]) <==>
            poll.token.None? && if Unavailable(polls) == 0 then !MustRead(Fast(polls), poll.mtime) else BeganSkipped(polls)
  {
    UnavailableSnoc(polls, poll);
    UnavailableFrom(polls, Unavailable(polls));
    if 0 < Unavailable(polls) {
      SkippedBefore(polls, poll, |polls| - Unavailable(polls));
    }
  }

  /** The two watchers, after polls nobody noticed, take one more. */
  lemma {:induction false} CountsBehindSnoc(polls: seq<Poll>, poll: Poll)
    requires Fast(polls).emitted == Slow(polls).emitted && CountsBehind(polls)
    ensures var all := polls + [poll];
            Fast(all).emitted == Slow(all).emitted ==> CountsBehind(all)
  {
    EmissionsDiffer(polls);
    SlowKnows(polls);
    UnavailableSnoc(polls, poll);
    BeganSkippedSnoc(polls, poll);
  }

  lemma TwoWithoutToken(w: Watcher, a: Poll, b: Poll)
    requires a.token.None? && b.token.None?
    ensures var after := FastPoll(FastPoll(w, a), b);
            && (after.lastEmitted.Some? ==> w.lastEmitted.Some?)
            && (w.lastEmitted.Some? && !MustRead(w, a.mtime) ==> after.lastEmitted.Some?)
  {
  }

  /** The polls before the last two. */
  lemma {:induction false} BeforeLastTwo(polls: seq<Poll>, poll: Poll) returns (first: seq<Poll>)
    requires |polls| >= 2
    ensures var n, all := |polls|, polls + [poll];
            && all[n - 2] == polls[n - 2] && all[n - 1] == polls[n - 1] && all[n] == poll
            && all[..n - 2] == first
            && Skipped(all, n - 2) == Skipped(polls, n - 2) == !MustRead(Fast(first), polls[n - 2].mtime)
            && Fast(polls) == FastPoll(FastPoll(Fast(first), polls[n - 2]), polls[n - 1])
  {
    var n := |polls|;
    first := polls[..n - 2];
    assert polls[..n - 1][..n - 2] == first;
    assert (polls + [poll])[..n - 2] == first;
  }

  lemma {:induction false} LastTwoUnavailable(polls: seq<Poll>)
    requires |polls| >= 2
    ensures Unavailable(polls) >= 2 <==> polls[|polls| - 2].token.None? && polls[|polls| - 1].token.None?
  {
    UnavailableFrom(polls, 2);
  }

  lemma {:induction false} NoClearDelayedMeans(polls: seq<Poll>, poll: Poll)
    requires Fast(polls).lastEmitted.Some? ==> Unavailable(polls) < CLEAR_AFTER_MISSING_POLLS
    ensures NoClearDelayed(polls + [poll], |polls|) <==>
            !(poll.token.None? && Fast(polls).lastEmitted.Some? && Unavailable(polls) == 2 && BeganSkipped(polls))
  {
    var n := |polls|;
    if n < 2 {
      UnavailableFrom(polls, 2);
    } else {
      var first := BeforeLastTwo(polls, poll);
      LastTwoUnavailable(polls);
      if polls[n - 2].token.None? && polls[n - 1].token.None? {
        TwoWithoutToken(Fast(first), polls[n - 2], polls[n - 1]);
      }
    }
  }

  /** The next poll is noticed exactly if it is a skipped token or a delayed clear. */
  lemma {:induction false} EmissionSnoc(polls: seq<Poll>, poll: Poll)
    requires SameEmissions(polls) && CountsBehind(polls)
    ensures var all := polls + [poll];
            Fast(all).emitted == Slow(all).emitted <==> Unnoticed(all, |polls|)
  {
    var all := polls + [poll];
    assert polls[..|polls|] == polls && all[..|polls|] == polls;
    EmissionsDiffer(polls);
    SlowKnows(polls);
    UnavailableSnoc(polls, poll);
    NoClearDelayedMeans(polls, poll);
    var f, w := Fast(polls), Slow(polls);
    assert |SlowPoll(w, poll).emitted| <= |w.emitted| + 1;
  }

  /** Both watchers emit the same after every poll if and only if the fast path skips no poll that would read
      a new token, and no poll without a token from which the clear would be counted. */
  lemma {:induction false} SameEmissionsIff(polls: seq<Poll>)
    ensures SameEmissions(polls) <==> forall i :: 0 <= i < |polls| ==> Unnoticed(polls, i)
    ensures SameEmissions(polls) ==> CountsBehind(polls)
  {
    if polls != [] {
      var n := |polls| - 1;
      var prefix := polls[..n];
      assert polls == prefix + [polls[n]];
      SameEmissionsIff(prefix);
      assert forall i :: 0 <= i <= n ==> polls[..i] == prefix[..i];
      assert polls[..n + 1] == polls;
      assert forall i :: 0 <= i < n ==> Unnoticed(polls, i) == Unnoticed(prefix, i);
      if SameEmissions(prefix) {
        assert prefix[..n] == prefix;
        EmissionSnoc(prefix, polls[n]);
        CountsBehindSnoc(prefix, polls[n]);
      }
    }
  }
}
