/** What a progress subscriber sees (internal/engine/progress.go): its replay followed by its
    channel, measured against the log of everything ever emitted for the domain.

    The hub is watched through one domain and one channel at a time: `View` is what the hub holds
    for them, `Act` what a critical section does to that view, `Story` the history. */
module ProgressStreams {
  import opened Progress

  datatype View = View(buffer: seq<Event>, listening: bool, closed: bool, queue: seq<Event>)

  datatype Act = Clear | Said(event: Event) | Join | Leave | Take | Elsewhere | Idle

  function ViewOf(h: HubState, d: Domain, c: ChanId): View {
    View(h.BufferOf(d), c in h.SubsOf(d),
         c in h.chans && h.chans[c].closed, if c in h.chans then h.chans[c].queue else [])
  }

  function ActOf(h: HubState, s: Step, d: Domain, c: ChanId): Act
    requires Enabled(h, s)
  {
    match s
    case Begin(x) => if x == d then Clear else Idle
    case Emit(x, ev, now) =>
      if x == d then Said(Stamp(h, d, ev, now)) else if c in h.SubsOf(x) then Elsewhere else Idle
    case Fire(i) => if h.timers[i].domain == d && h.GenOf(d) == h.timers[i].gen then Clear else Idle
    case Subscribe(x, k) => if k != c then Idle else if x == d then Join else Elsewhere
    case Cancel(x, k) => if k != c || c !in h.SubsOf(x) then Idle else if x == d then Leave else Elsewhere
    case Receive(k) => if k == c then Take else Idle
  }

  /** How an act changes the view. A channel that listens here, or has been closed, is never
      touched through another domain. */
  ghost predicate Moves(v: View, a: Act, v': View) {
    match a
    case Clear => v' == v.(buffer := [])
    case Said(e) =>
      && v' == v.(buffer := LastN(v.buffer + [e], REPLAY_LIMIT), queue := v'.queue)
      && v'.queue == if v.listening then Offer(Chan(v.queue, false), e).queue else v.queue
    case Join => !v.listening && !v.closed && v' == v.(listening := true, queue := [])
    case Leave => v.listening && v' == v.(listening := false, closed := true)
    case Take => v.queue != [] && v' == v.(queue := v.queue[1..])
    case Elsewhere => !v.listening && !v.closed && v'.buffer == v.buffer && !v'.listening
    case Idle => v' == v
  }

  lemma EmitMoves(h: HubState, x: Domain, ev: Event, now: int, d: Domain, c: ChanId)
    requires WellFormed(h)
    ensures Moves(ViewOf(h, d, c), ActOf(h, Step.Emit(x, ev, now), d, c), ViewOf(EmitStep(h, x, ev, now), d, c))
  {
  }

  lemma NextMoves(h: HubState, s: Step, d: Domain, c: ChanId)
    requires WellFormed(h) && Enabled(h, s)
    ensures Moves(ViewOf(h, d, c), ActOf(h, s, d, c), ViewOf(Next(h, s), d, c))
  {
    hide WellFormed, EmitStep, FireStep, SubscribeStep, CancelStep, ViewOf, Moves, LastN, Offer;
    match s
    case Begin(x) => QuietMoves(h, s, d, c);
    case Emit(x, ev, now) => EmitMoves(h, x, ev, now, d, c);
    case Fire(i) => FireMoves(h, i, d, c);
    case Subscribe(x, k) => SubscribeMoves(h, x, k, d, c);
    case Cancel(x, k) => CancelMoves(h, x, k, d, c);
    case Receive(k) => QuietMoves(h, s, d, c);
  }

  lemma QuietMoves(h: HubState, s: Step, d: Domain, c: ChanId)
    requires Enabled(h, s) && (s.Begin? || s.Receive?)
    ensures Moves(ViewOf(h, d, c), ActOf(h, s, d, c), ViewOf(Next(h, s), d, c))
  {
  }

  lemma FireMoves(h: HubState, i: nat, d: Domain, c: ChanId)
    requires WellFormed(h) && i < |h.timers|
    ensures Moves(ViewOf(h, d, c), ActOf(h, Step.Fire(i), d, c), ViewOf(FireStep(h, i), d, c))
  {
  }

  lemma SubscribeMoves(h: HubState, x: Domain, k: ChanId, d: Domain, c: ChanId)
    requires WellFormed(h) && k !in h.chans
    ensures Moves(ViewOf(h, d, c), ActOf(h, Step.Subscribe(x, k), d, c), ViewOf(SubscribeStep(h, x, k), d, c))
  {
  }

  lemma CancelMoves(h: HubState, x: Domain, k: ChanId, d: Domain, c: ChanId)
    requires WellFormed(h) && k in h.chans
    ensures Moves(ViewOf(h, d, c), ActOf(h, Step.Cancel(x, k), d, c), ViewOf(CancelStep(h, x, k), d, c))
  {
  }

  // The history.

  /** One subscription. Positions index the domain's emission log. */
  datatype Tap = Tap(
    base: nat,           // where the buffer replayed at subscription began
    at: nat,             // the log's length at subscription
    replay: seq<Event>,  // what Subscribe returned
    taken: seq<Event>,   // what the consumer has received since
    picked: seq<nat>,    // the log positions of the events the channel accepted
    lossy: bool,         // some event found the channel full
    end: nat)            // the log's length at cancellation

  datatype Maybe = NoTap | Tapped(tap: Tap)

  datatype Story = Story(log: seq<Event>, base: nat, sub: Maybe)

  /** An event at log position `n` is offered to a channel holding `queue`. */
  function Heard(t: Tap, queue: seq<Event>, n: nat): Tap {
    if |queue| < CHANNEL_CAPACITY then t.(picked := t.picked + [n]) else t.(lossy := true)
  }

  function Tell(v: View, st: Story, a: Act): Story {
    match a
    case Clear => st.(base := |st.log|)
    case Said(e) =>
      st.(log := st.log + [e],
          sub := if st.sub.Tapped? && v.listening then Tapped(Heard(st.sub.tap, v.queue, |st.log|)) else st.sub)
    case Join => st.(sub := Tapped(Tap(st.base, |st.log|, v.buffer, [], [], false, 0)))
    case Leave => if st.sub.Tapped? then st.(sub := Tapped(st.sub.tap.(end := |st.log|))) else st
    case Take =>
      if st.sub.Tapped? && v.queue != [] then st.(sub := Tapped(st.sub.tap.(taken := st.sub.tap.taken + [v.queue[0]])))
      else st
    case _ => st
  }

  /** The hub after a run of enabled steps; a step that is not enabled does nothing. */
  function HubAfter(steps: seq<Step>): HubState {
    if steps == [] then EmptyHub else
    var h := HubAfter(steps[..|steps| - 1]);
    var s := steps[|steps| - 1];
    if Enabled(h, s) then Next(h, s) else h
  }

  function StoryAfter(steps: seq<Step>, d: Domain, c: ChanId): Story {
    if steps == [] then Story([], 0, NoTap) else
    var h := HubAfter(steps[..|steps| - 1]);
    var st := StoryAfter(steps[..|steps| - 1], d, c);
    var s := steps[|steps| - 1];
    if Enabled(h, s) then Tell(ViewOf(h, d, c), st, ActOf(h, s, d, c)) else st
  }

  // The invariant.

  /** One subscription against its domain's log, of which `end` events had been emitted when it
      last listened. */
  ghost predicate Faithful(t: Tap, queue: seq<Event>, log: seq<Event>, end: nat) {
    && t.base <= t.at <= end <= |log|
    && t.replay == LastN(log[t.base..t.at], REPLAY_LIMIT)
    && (forall i :: 0 <= i < |t.picked| ==> t.at <= t.picked[i] < end)
    && (forall i, j :: 0 <= i < j < |t.picked| ==> t.picked[i] < t.picked[j])
    && |t.taken| + |queue| == |t.picked|
    && (forall i :: 0 <= i < |t.picked| ==> (t.taken + queue)[i] == log[t.picked[i]])
    && (!t.lossy ==> |t.picked| == end - t.at && forall i :: 0 <= i < |t.picked| ==> t.picked[i] == t.at + i)
  }

  function EndOf(v: View, st: Story): nat
    requires st.sub.Tapped?
  {
    if v.listening then |st.log| else st.sub.tap.end
  }

  ghost predicate Inv(v: View, st: Story) {
    && st.base <= |st.log|
    && v.buffer == LastN(st.log[st.base..], REPLAY_LIMIT)
    && (st.sub.NoTap? ==> !v.listening)
    && (st.sub.Tapped? ==> (v.listening || v.closed) && Faithful(st.sub.tap, v.queue, st.log, EndOf(v, st)))
  }

  lemma HeardKeeps(t: Tap, queue: seq<Event>, log: seq<Event>, e: Event)
    requires Faithful(t, queue, log, |log|)
    ensures Faithful(Heard(t, queue, |log|), Offer(Chan(queue, false), e).queue, log + [e], |log| + 1)
  {
    assert (log + [e])[t.base..t.at] == log[t.base..t.at];
    if |queue| < CHANNEL_CAPACITY {
      assert t.taken + (queue + [e]) == (t.taken + queue) + [e];
    }
  }

  lemma LogGrows(t: Tap, queue: seq<Event>, log: seq<Event>, end: nat, e: Event)
    requires Faithful(t, queue, log, end)
    ensures Faithful(t, queue, log + [e], end)
  {
  }

  lemma SaidKeeps(v: View, st: Story, e: Event, v': View)
    requires Inv(v, st) && Moves(v, Said(e), v')
    ensures Inv(v', Tell(v, st, Said(e)))
  {
    assert (st.log + [e])[st.base..] == st.log[st.base..] + [e];
    if st.sub.Tapped? {
      if v.listening {
        HeardKeeps(st.sub.tap, v.queue, st.log, e);
      } else {
        LogGrows(st.sub.tap, v.queue, st.log, st.sub.tap.end, e);
      }
    }
  }

  lemma {:induction false} MoveKeeps(v: View, st: Story, a: Act, v': View)
    requires Inv(v, st) && Moves(v, a, v')
    ensures Inv(v', Tell(v, st, a))
  {
    match a
    case Said(e) => SaidKeeps(v, st, e, v');
    case Join => assert st.log[st.base..|st.log|] == st.log[st.base..];
    case Take =>
      if st.sub.Tapped? {
        var taken := st.sub.tap.taken;
        assert (taken + [v.queue[0]]) + v.queue[1..] == taken + v.queue;
      }
    case _ =>
  }

  lemma {:induction false} RunKeeps(steps: seq<Step>, d: Domain, c: ChanId)
    ensures WellFormed(HubAfter(steps))
    ensures Inv(ViewOf(HubAfter(steps), d, c), StoryAfter(steps, d, c))
  {
    if steps != [] {
      var before := steps[..|steps| - 1];
      var s := steps[|steps| - 1];
      RunKeeps(before, d, c);
      var h := HubAfter(before);
      if Enabled(h, s) {
        NextWellFormed(h, s);
        NextMoves(h, s, d, c);
        MoveKeeps(ViewOf(h, d, c), StoryAfter(before, d, c), ActOf(h, s, d, c), ViewOf(Next(h, s), d, c));
      }
    }
  }

  // What a subscriber sees, in every run.

  /** The replay is exactly the newest min(200, n) of the n events in the buffer's run so far. */
  lemma {:induction false} ReplayIsTheBufferTail(steps: seq<Step>, d: Domain, c: ChanId)
    requires StoryAfter(steps, d, c).sub.Tapped?
    ensures var st := StoryAfter(steps, d, c); var t := st.sub.tap;
            && t.base <= t.at <= |st.log|
            && |t.replay| == (if t.at - t.base > REPLAY_LIMIT then REPLAY_LIMIT else t.at - t.base)
            && t.replay == st.log[t.at - |t.replay|..t.at]
  {
    RunKeeps(steps, d, c);
  }

  /** Replay, received and unread events together are one contiguous piece of the emission log, up
      to the present or the cancellation, as long as no event found 256 unread ones before it. */
  lemma {:induction false} StreamIsGapFree(steps: seq<Step>, d: Domain, c: ChanId)
    requires StoryAfter(steps, d, c).sub.Tapped? && !StoryAfter(steps, d, c).sub.tap.lossy
    ensures var v := ViewOf(HubAfter(steps), d, c); var st := StoryAfter(steps, d, c); var t := st.sub.tap;
            && |t.replay| <= t.at <= EndOf(v, st) <= |st.log|
            && t.replay + t.taken + v.queue == st.log[t.at - |t.replay|..EndOf(v, st)]
  {
    RunKeeps(steps, d, c);
    var v := ViewOf(HubAfter(steps), d, c);
    var st := StoryAfter(steps, d, c);
    Joined(st.sub.tap, v.queue, st.log, EndOf(v, st));
  }

  lemma Joined(t: Tap, queue: seq<Event>, log: seq<Event>, end: nat)
    requires Faithful(t, queue, log, end) && !t.lossy
    ensures |t.replay| <= t.at && t.replay + t.taken + queue == log[t.at - |t.replay|..end]
  {
    assert t.replay == log[t.at - |t.replay|..t.at];
    assert t.taken + queue == log[t.at..end];
    assert t.replay + t.taken + queue == t.replay + (t.taken + queue);
  }

  /** In any case the channel's events are a subsequence of the log after the replay: in order,
      none twice, none from before the subscription or after the cancellation. */
  lemma {:induction false} StreamIsASubsequence(steps: seq<Step>, d: Domain, c: ChanId)
    requires StoryAfter(steps, d, c).sub.Tapped?
    ensures var v := ViewOf(HubAfter(steps), d, c); var st := StoryAfter(steps, d, c); var t := st.sub.tap;
            && |t.taken + v.queue| == |t.picked|
            && (forall i, j :: 0 <= i < j < |t.picked| ==> t.picked[i] < t.picked[j])
            && (forall i :: 0 <= i < |t.picked| ==> t.at <= t.picked[i] < EndOf(v, st) <= |st.log|)
            && (forall i :: 0 <= i < |t.picked| ==> (t.taken + v.queue)[i] == st.log[t.picked[i]])
  {
    RunKeeps(steps, d, c);
  }
}
